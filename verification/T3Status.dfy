/** `Gateway.ReconcileContainer`: the T3 status of one container. */
module T3Status {
  import opened Model
  import opened SessionNames

  const DEFAULT_PORT := 3773

  function Itoa(n: int): string {
    if n < 0 then "-" + Decimal(-n) else Decimal(n)
  }

  function Enabled(c: Container, cfg: Config): bool {
    if c.rule.Some? && c.rule.value.t3.Some? then c.rule.value.t3.value else cfg.t3Enabled
  }

  function BackendUrl(c: Container, cfg: Config): string {
    "http://" + c.ip + ":" + Itoa(if cfg.t3Port == 0 then DEFAULT_PORT else cfg.t3Port)
  }

  /** Whether the probe is reached at all. */
  predicate Probes(c: Container, cfg: Config) {
    Enabled(c, cfg) && c.running && c.ip != ""
  }

  /** Whether a backend token is asked for. */
  predicate Issues(c: Container, cfg: Config, probe: Result<string>) {
    Probes(c, cfg) && probe.Ok? && cfg.autoIssue && c.t3.backendToken == ""
  }

  /** `probe` is the environment ID that the backend reports ("" when it reports none),
      `issue` the outcome of asking for a backend token. */
  function Reconciled(c: Container, cfg: Config, probe: Result<string>, issue: Result<string>): Container {
    var t3 := c.t3.(enabled := Enabled(c, cfg));
    c.(t3 :=
      if !Enabled(c, cfg) then t3.(status := "disabled")
      else if !c.running then t3.(status := "stopped")
      else if c.ip == "" then t3.(status := "unreachable", error := "container has no IP address")
      else
        var up := t3.(backendUrl := BackendUrl(c, cfg));
        match probe
        case Err(e) => up.(status := "not-ready", error := e)
        case Ok(reported) =>
          var ready := up.(environmentId := FirstNonEmpty(reported, ShortId(c.id)), status := "ready", error := "");
          if !Issues(c, cfg, probe) then ready
          else match issue
            case Err(e) => ready.(status := "ready-no-token", error := e)
            case Ok(token) => ready.(backendToken := token))
  }

  method ReconcileContainer(containers: array<Container>, index: nat, cfg: Config, probe: Result<string>,
      issue: Result<string>)
    requires index < containers.Length
    modifies containers
    ensures containers[..] == old(containers[..])[index := Reconciled(old(containers[index]), cfg, probe, issue)]
  {
    var c := containers[index];
    var enabled := cfg.t3Enabled;
    if c.rule.Some? && c.rule.value.t3.Some? {
      enabled := c.rule.value.t3.value;
    }
    var t3 := c.t3.(enabled := enabled);
    if !enabled {
      containers[index] := c.(t3 := t3.(status := "disabled"));
      return;
    }
    if !c.running {
      containers[index] := c.(t3 := t3.(status := "stopped"));
      return;
    }
    if c.ip == "" {
      containers[index] := c.(t3 := t3.(status := "unreachable", error := "container has no IP address"));
      return;
    }
    var port := if cfg.t3Port == 0 then DEFAULT_PORT else cfg.t3Port;
    t3 := t3.(backendUrl := "http://" + c.ip + ":" + Itoa(port));
    if probe.Err? {
      containers[index] := c.(t3 := t3.(status := "not-ready", error := probe.error));
      return;
    }
    var envId := probe.value;
    if envId == "" {
      envId := ShortId(c.id);
    }
    t3 := t3.(environmentId := envId, status := "ready", error := "");
    if cfg.autoIssue && t3.backendToken == "" {
      if issue.Err? {
        t3 := t3.(status := "ready-no-token", error := issue.error);
      } else {
        t3 := t3.(backendToken := issue.value);
      }
    }
    containers[index] := c.(t3 := t3);
  }

  /** A container that requests can be routed to has a backend to route them to. */
  predicate Backed(c: Container) {
    c.t3.environmentId != "" ==>
      && c.t3.enabled && c.running && c.t3.backendUrl != ""
      && (c.t3.status == "ready" || c.t3.status == "ready-no-token")
  }

  /** Discovery hands over containers whose T3 status holds at most a carried token. */
  predicate Blank(c: Container) {
    c.t3 == NO_T3.(backendToken := c.t3.backendToken)
  }

  lemma ReconciledBacked(c: Container, cfg: Config, probe: Result<string>, issue: Result<string>)
    requires Blank(c)
    ensures var r := Reconciled(c, cfg, probe, issue);
            && Backed(r) && r.id == c.id && r.rule == c.rule && r.running == c.running && r.user == c.user
            && (r.t3.environmentId != "" <==>
                Probes(c, cfg) && probe.Ok? && FirstNonEmpty(probe.value, ShortId(c.id)) != "")
            && r.t3.backendToken == (if Issues(c, cfg, probe) && issue.Ok? then issue.value else c.t3.backendToken)
  {}

  /** Nothing but the T3 status is touched. */
  lemma ReconciledRest(c: Container, cfg: Config, probe: Result<string>, issue: Result<string>)
    ensures Reconciled(c, cfg, probe, issue).(t3 := c.t3) == c
  {}

  /** T3 is switched on for the container: by its rule, or globally where the rule says nothing. */
  predicate SwitchedOn(c: Container, cfg: Config) {
    match c.rule
    case Some(rule) => (match rule.t3 case Some(on) => on case None => cfg.t3Enabled)
    case None => cfg.t3Enabled
  }

  /** The container can be asked for its environment. */
  predicate Askable(c: Container, cfg: Config) {
    SwitchedOn(c, cfg) && c.running && c.ip != ""
  }

  /** What a discovered container's status says, case by case. */
  lemma ReconciledStatus(c: Container, cfg: Config, probe: Result<string>, issue: Result<string>)
    requires Blank(c)
    ensures var t3 := Reconciled(c, cfg, probe, issue).t3;
            && (t3.enabled <==> SwitchedOn(c, cfg))
            && (t3.status == "disabled" <==> !SwitchedOn(c, cfg))
            && (t3.status == "stopped" <==> SwitchedOn(c, cfg) && !c.running)
            && (t3.status == "unreachable" <==> SwitchedOn(c, cfg) && c.running && c.ip == "")
            && (t3.status == "not-ready" <==> Askable(c, cfg) && probe.Err?)
            && (t3.status == "ready-no-token" <==>
                  Askable(c, cfg) && probe.Ok? && cfg.autoIssue && c.t3.backendToken == "" && issue.Err?)
            && (t3.status in {"disabled", "stopped", "ready"} ==> t3.error == "")
            && (t3.status == "unreachable" ==> t3.error == "container has no IP address")
            && (t3.status == "not-ready" ==> t3.error == probe.error)
            && (t3.status == "ready-no-token" ==> t3.error == issue.error)
            && (t3.backendUrl != "" <==> Askable(c, cfg))
  {}

  /** The address to which a container's requests go: its own IP and, in decimal, the configured port or else 3773. And
      the identifier it is published under: the one its backend reports, or
          else the first twelve characters of its own. */
  lemma BackendAddress(c: Container, cfg: Config, probe: Result<string>, issue: Result<string>) returns (port: string)
    requires Askable(c, cfg) && cfg.t3Port >= 0
    ensures var t3 := Reconciled(c, cfg, probe, issue).t3;
            && t3.backendUrl == "http://" + c.ip + ":" + port
            && AllDigits(port) && Parse(port) == (if cfg.t3Port == 0 then 3773 else cfg.t3Port)
            && (probe.Ok? && probe.value != "" ==> t3.environmentId == probe.value)
            && (probe.Ok? && probe.value == "" ==> t3.environmentId == if |c.id| <= 12 then c.id else c.id[..12])
  {
    var n := if cfg.t3Port == 0 then DEFAULT_PORT else cfg.t3Port;
    port := Decimal(n);
    DecimalRoundTrip(n);
  }

  /** With one configuration, two containers share an address only if they share an IP. */
  lemma AddressesDiffer(
    c: Container, d: Container, cfg: Config, p1: Result<string>, i1: Result<string>, p2: Result<string>,
        i2: Result<string>)
    requires Askable(c, cfg) && Askable(d, cfg)
    requires Reconciled(c, cfg, p1, i1).t3.backendUrl == Reconciled(d, cfg, p2, i2).t3.backendUrl
    ensures c.ip == d.ip
  {
    var port := Itoa(if cfg.t3Port == 0 then DEFAULT_PORT else cfg.t3Port);
    var u, v := "http://" + c.ip + ":" + port, "http://" + d.ip + ":" + port;
    assert u == v && c.ip == u[7..|u| - |port| - 1] && d.ip == v[7..|v| - |port| - 1];
  }
}
