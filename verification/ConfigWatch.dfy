/** `watchConfig`: a file watcher that reloads the configuration once it has been quiet for a while. */
module ConfigWatch {
  import opened Model

  // Milliseconds.
  const QUIET := 250

  /** Which regular expressions compile. */
  type Regexps = string -> bool

  function ApplyDefaults(c: Config): Config {
    var named := seq(|c.rules|,
        k requires 0 <= k < |c.rules| => c.rules[k].(name := FirstNonEmpty(c.rules[k].name, "rule")));
    c.(t3Port := if c.t3Port == 0 then 3773 else c.t3Port,
       rules := if named == [] then [Rule("default", [], None, [])] else named)
  }

  predicate ValidPattern(pattern: string, compiles: Regexps) {
    pattern == "" || compiles(pattern)
  }

  predicate ValidEntry(e: SyncEntry) {
    e.manager != "" && e.container != "" && e.mode in {"", "push", "pull", "two-way"}
  }

  predicate ValidRule(r: Rule, compiles: Regexps) {
    (forall p | p in r.patterns :: ValidPattern(p, compiles)) && (forall e | e in r.syncs :: ValidEntry(e))
  }

  ghost predicate Valid(c: Config, compiles: Regexps) {
    forall r | r in c.rules :: ValidRule(r, compiles)
  }

  function PatternProblem(patterns: seq<string>, compiles: Regexps): Option<string> {
    if patterns == [] then None
    else if !ValidPattern(patterns[0], compiles) then Some("invalid regular expression: " + patterns[0])
    else PatternProblem(patterns[1..], compiles)
  }

  function EntryProblem(entries: seq<SyncEntry>): Option<string> {
    if entries == [] then None
    else if entries[0].manager == "" || entries[0].container == "" then
      Some("sync entries require manager and container paths")
    else if entries[0].mode !in {"", "push", "pull", "two-way"} then Some("sync mode must be push, pull, or two-way")
    else EntryProblem(entries[1..])
  }

  /** The first thing that is wrong: rule by rule, its matchers before its sync entries. */
  function FirstProblem(rules: seq<Rule>, compiles: Regexps): Option<string> {
    if rules == [] then None
    else if PatternProblem(rules[0].patterns, compiles).Some? then PatternProblem(rules[0].patterns, compiles)
    else if EntryProblem(rules[0].syncs).Some? then EntryProblem(rules[0].syncs)
    else FirstProblem(rules[1..], compiles)
  }

  lemma {:induction false} NoPatternProblem(patterns: seq<string>, compiles: Regexps)
    ensures PatternProblem(patterns, compiles).None? <==> forall p | p in patterns :: ValidPattern(p, compiles)
  {
    if patterns == [] {
    } else {
      NoPatternProblem(patterns[1..], compiles);
      assert patterns[0] in patterns && forall p | p in patterns :: p == patterns[0] || p in patterns[1..];
      assert forall p | p in patterns[1..] :: p in patterns;
    }
  }

  lemma {:induction false} NoEntryProblem(entries: seq<SyncEntry>)
    ensures EntryProblem(entries).None? <==> forall e | e in entries :: ValidEntry(e)
  {
    if entries == [] {
    } else {
      NoEntryProblem(entries[1..]);
      assert entries[0] in entries && forall e | e in entries :: e == entries[0] || e in entries[1..];
      assert forall e | e in entries[1..] :: e in entries;
    }
  }

  /** Validation passes exactly the valid configurations. */
  lemma {:induction false} NoProblemMeansValid(rules: seq<Rule>, compiles: Regexps)
    ensures FirstProblem(rules, compiles).None? <==> forall r | r in rules :: ValidRule(r, compiles)
  {
    if rules == [] {
    } else {
      NoPatternProblem(rules[0].patterns, compiles);
      NoEntryProblem(rules[0].syncs);
      NoProblemMeansValid(rules[1..], compiles);
      assert rules[0] in rules && forall r | r in rules :: r == rules[0] || r in rules[1..];
      assert forall r | r in rules[1..] :: r in rules;
    }
  }

  /** What the file holds at one moment: nothing that decodes, or a configuration. */
  datatype File = Unreadable | Readable(config: Config)

  function Load(f: File, compiles: Regexps): Result<Config> {
    if f.Unreadable? then Err("unreadable")
    else
      var c := ApplyDefaults(f.config);
      match FirstProblem(c.rules, compiles)
      case Some(problem) => Err(problem)
      case None => Ok(c)
  }

  /** `stored` is what the file says: its own rules, in order and complete, with a name where there was none, or the one
      empty rule where there are none; its switches; and its port, or else 3773. */
  predicate FromFile(file: Config, stored: Config) {
    && stored.syncEnabled == file.syncEnabled && stored.t3Enabled == file.t3Enabled
        && stored.autoIssue == file.autoIssue
    && stored.t3Port == (if file.t3Port == 0 then 3773 else file.t3Port)
    && if file.rules == [] then stored.rules == [Rule("default", [], None, [])]
       else
         && |stored.rules| == |file.rules|
         && forall k | 0 <= k < |file.rules| ::
              var r, f := stored.rules[k], file.rules[k];
              && r.name == (if f.name == "" then "rule" else f.name)
              && r.patterns == f.patterns && r.t3 == f.t3 && r.syncs == f.syncs
  }

  /** Filling in defaults neither repairs a configuration nor breaks it. */
  lemma DefaultsKeepValidity(file: Config, stored: Config, compiles: Regexps)
    requires FromFile(file, stored)
    ensures Valid(stored, compiles) <==> Valid(file, compiles)
  {
    if file.rules == [] {
    } else {
      forall k | 0 <= k < |file.rules|
        ensures ValidRule(stored.rules[k], compiles) <==> ValidRule(file.rules[k], compiles)
        ensures file.rules[k] in file.rules && stored.rules[k] in stored.rules
      {}
    }
  }

  /** A file is loaded exactly when it can be read and is valid, matchers included; and what is loaded is what it
      says. */
  lemma LoadsExactly(f: File, compiles: Regexps)
    ensures Load(f, compiles).Ok? <==> f.Readable? && Valid(f.config, compiles)
    ensures Load(f, compiles).Ok? ==> FromFile(f.config, Load(f, compiles).value)
  {
    if f.Readable? {
      NoProblemMeansValid(ApplyDefaults(f.config).rules, compiles);
      DefaultsKeepValidity(f.config, ApplyDefaults(f.config), compiles);
    }
  }

  /** A file with one sync entry is loaded exactly when both paths are given and the mode is a known one or left out. */
  lemma OneEntryFile(c: Config, e: SyncEntry, compiles: Regexps)
    requires c.rules == [Rule("web", [], None, [e])]
    ensures Load(Readable(c), compiles).Ok? <==>
            && e.manager != "" && e.container != ""
            && (e.mode == "" || e.mode == "push" || e.mode == "pull" || e.mode == "two-way")
  {
    LoadsExactly(Readable(c), compiles);
    assert c.rules[0] in c.rules && c.rules[0].syncs[0] in c.rules[0].syncs;
  }

  /** What one round of the select statement picks. */
  datatype Choice =
    | FileEvent(at: int, ours: bool)
    | WatchError(at: int)
    | Fired(at: int, file: File)
    | Stopped(at: int)

  datatype Entry = Handled(at: int) | Attempted(at: int)

  /** `timer` is the moment from which an armed timer can fire. */
  datatype Watch = Watch(timer: Option<int>, config: Config, log: seq<Entry>)

  function Chosen(s: Watch, c: Choice, compiles: Regexps): Watch {
    match c
    case FileEvent(at, ours) => if ours then s.(timer := Some(at + QUIET), log := s.log + [Handled(at)]) else s
    case WatchError(_) => s
    case Fired(at, file) =>
      var loaded := Load(file, compiles);
      s.(timer := None, config := if loaded.Ok? then loaded.value else s.config, log := s.log + [Attempted(at)])
    case Stopped(_) => s
  }

  function Watched(s: Watch, choices: seq<Choice>, compiles: Regexps): Watch
    decreases |choices|
  {
    if choices == [] || choices[0].Stopped? then s
    else Watched(Chosen(s, choices[0], compiles), choices[1..], compiles)
  }

  /** Time does not run backwards and a timer's channel is ready only when it is armed and due. */
  ghost predicate Timed(s: Watch, now: int, choices: seq<Choice>, compiles: Regexps)
    decreases |choices|
  {
    choices == [] || choices[0].Stopped? ||
    (&& now <= choices[0].at
     && (choices[0].Fired? ==> s.timer.Some? && s.timer.value <= choices[0].at)
     && Timed(Chosen(s, choices[0], compiles), choices[0].at, choices[1..], compiles))
  }

  method WatchConfig(config: Config, choices: seq<Choice>, compiles: Regexps) returns (stored: Config, log: seq<Entry>)
    ensures stored == Watched(Watch(None, config, []), choices, compiles).config
    ensures log == Watched(Watch(None, config, []), choices, compiles).log
  {
    var timer: Option<int> := None;
    stored, log := config, [];
    var next := 0;
    while next < |choices|
      invariant 0 <= next <= |choices|
      invariant Watched(Watch(timer, stored, log), choices[next..], compiles)
                == Watched(Watch(None, config, []), choices, compiles)
    {
      var choice := choices[next];
      assert choices[next..][0] == choice && choices[next..][1..] == choices[next + 1..];
      next := next + 1;
      match choice {
        case Stopped(_) => return;
        case FileEvent(at, ours) =>
          if ours {
            timer := Some(at + QUIET);
            log := log + [Handled(at)];
          }
        case WatchError(_) =>
        case Fired(at, file) =>
          timer := None;
          log := log + [Attempted(at)];
          var loaded := Load(file, compiles);
          if loaded.Err? { continue; }
          stored := loaded.value;
      }
    }
  }

  // ---------------------------------------------------------------- what was loaded

  /** The choices that the loop gets to see. */
  function Seen(choices: seq<Choice>): seq<Choice> {
    if choices == [] || choices[0].Stopped? then [] else [choices[0]] + Seen(choices[1..])
  }

  /** The timer fired, and what the file held then could be read and was valid. */
  ghost predicate Loads(c: Choice, compiles: Regexps) {
    c.Fired? && c.file.Readable? && Valid(c.file.config, compiles)
  }

  /** `k` is the position of the last of these choices at which a file was loaded. */
  ghost predicate LastLoad(seen: seq<Choice>, k: int, compiles: Regexps) {
    0 <= k < |seen| && Loads(seen[k], compiles) && forall j | k < j < |seen| :: !Loads(seen[j], compiles)
  }

  ghost predicate NoLoad(seen: seq<Choice>, compiles: Regexps) {
    forall k | 0 <= k < |seen| :: !Loads(seen[k], compiles)
  }

  /** `stored` is what the file said when it was loaded last, and the initial configuration as long as nothing was. */
  ghost predicate StoredFrom(initial: Config, seen: seq<Choice>, stored: Config, compiles: Regexps) {
    && (forall k | LastLoad(seen, k, compiles) :: FromFile(seen[k].file.config, stored))
    && (NoLoad(seen, compiles) ==> stored == initial)
  }

  lemma StoredFromMore(initial: Config, next: Config, c: Choice, rest: seq<Choice>, stored: Config, compiles: Regexps)
    requires if Loads(c, compiles) then FromFile(c.file.config, next) else next == initial
    requires StoredFrom(next, rest, stored, compiles)
    ensures StoredFrom(initial, [c] + rest, stored, compiles)
  {
    var seen := [c] + rest;
    assert seen[0] == c && forall j | 0 < j < |seen| :: seen[j] == rest[j - 1];
    assert forall j | 0 <= j < |rest| :: rest[j] == seen[j + 1];
    forall k | LastLoad(seen, k, compiles) ensures FromFile(seen[k].file.config, stored) {
      if k == 0 {
        assert NoLoad(rest, compiles);
      } else {
        assert LastLoad(rest, k - 1, compiles);
      }
    }
  }

  lemma {:induction false} StoredIsLastLoaded(s: Watch, choices: seq<Choice>, compiles: Regexps)
    ensures StoredFrom(s.config, Seen(choices), Watched(s, choices, compiles).config, compiles)
    decreases |choices|
  {
    if choices == [] || choices[0].Stopped? {
    } else {
      var c := choices[0];
      var next := Chosen(s, c, compiles);
      if c.Fired? { LoadsExactly(c.file, compiles); }
      StoredIsLastLoaded(next, choices[1..], compiles);
      var stored := Watched(next, choices[1..], compiles).config;
      StoredFromMore(s.config, next.config, c, Seen(choices[1..]), stored, compiles);
    }
  }

  /** The events the watcher handles and its attempts to load, in order. */
  function Record(seen: seq<Choice>): seq<Entry> {
    if seen == [] then []
    else
      (if seen[0].Fired? then [Attempted(seen[0].at)]
       else if seen[0].FileEvent? && seen[0].ours then [Handled(seen[0].at)]
       else []) + Record(seen[1..])
  }

  lemma {:induction false} LogIsRecord(s: Watch, choices: seq<Choice>, compiles: Regexps)
    ensures Watched(s, choices, compiles).log == s.log + Record(Seen(choices))
    decreases |choices|
  {
    if choices == [] || choices[0].Stopped? {
    } else {
      LogIsRecord(Chosen(s, choices[0], compiles), choices[1..], compiles);
      assert Seen(choices)[1..] == Seen(choices[1..]);
    }
  }

  // ---------------------------------------------------------------- what the log shows

  function Count(log: seq<Entry>, attempts: bool): nat {
    if log == [] then 0 else Count(log[..|log| - 1], attempts) + if log[|log| - 1].Attempted? == attempts then 1 else 0
  }

  /** An event has been handled since the last attempt. */
  predicate Pending(log: seq<Entry>) {
    log != [] && log[|log| - 1].Handled?
  }

  /** Every attempt comes at least 250 milliseconds after every event handled before it. */
  ghost predicate Quiet(log: seq<Entry>) {
    forall i, j | 0 <= i < j < |log| && log[i].Handled? && log[j].Attempted? :: log[i].at + 250 <= log[j].at
  }

  ghost predicate Inv(s: Watch, now: int) {
    && Quiet(s.log)
    && (s.timer.Some? <==> Pending(s.log))
    && (forall i | 0 <= i < |s.log| :: s.log[i].at <= now && (s.timer.Some? ==> s.log[i].at + QUIET <= s.timer.value))
    && Count(s.log, true) + (if s.timer.Some? then 1 else 0) <= Count(s.log, false)
  }

  /** Appending an entry that is late enough keeps the log quiet. */
  lemma LogMore(log: seq<Entry>, e: Entry)
    requires Quiet(log) && (e.Attempted? ==> forall i | 0 <= i < |log| :: log[i].at + QUIET <= e.at)
    ensures Quiet(log + [e]) && (Pending(log + [e]) <==> e.Handled?)
    ensures Count(log + [e], true) == Count(log, true) + if e.Attempted? then 1 else 0
    ensures Count(log + [e], false) == Count(log, false) + if e.Attempted? then 0 else 1
  {
    var more := log + [e];
    assert more[..|log|] == log;
    forall i, j | 0 <= i < j < |more| && more[i].Handled? && more[j].Attempted?
        ensures more[i].at + QUIET <= more[j].at {
      assert more[i] == log[i];
    }
  }

  lemma HandledKeepsInv(s: Watch, now: int, at: int)
    requires Inv(s, now) && now <= at
    ensures Inv(s.(timer := Some(at + QUIET), log := s.log + [Handled(at)]), at)
  {
    var more := s.log + [Handled(at)];
    LogMore(s.log, Handled(at));
    forall i | 0 <= i < |more| ensures more[i].at <= at {
      if i < |s.log| { assert more[i] == s.log[i]; }
    }
  }

  lemma AttemptedKeepsInv(s: Watch, now: int, at: int, config: Config)
    requires Inv(s, now) && now <= at && s.timer.Some? && s.timer.value <= at
    ensures Inv(Watch(None, config, s.log + [Attempted(at)]), at)
  {
    var more := s.log + [Attempted(at)];
    LogMore(s.log, Attempted(at));
    forall i | 0 <= i < |more| ensures more[i].at <= at {
      if i < |s.log| { assert more[i] == s.log[i]; }
    }
  }

  lemma ChosenKeepsInv(s: Watch, now: int, c: Choice, compiles: Regexps)
    requires Inv(s, now) && now <= c.at
    requires c.Fired? ==> s.timer.Some? && s.timer.value <= c.at
    ensures Inv(Chosen(s, c, compiles), c.at)
  {
    if c.FileEvent? {
      HandledKeepsInv(s, now, c.at);
    } else if c.Fired? {
      AttemptedKeepsInv(s, now, c.at, Chosen(s, c, compiles).config);
    }
  }

  lemma {:induction false} InvOverRuns(s: Watch, now: int, choices: seq<Choice>, compiles: Regexps) returns (later: int)
    requires Inv(s, now) && Timed(s, now, choices, compiles)
    ensures Inv(Watched(s, choices, compiles), later)
    decreases |choices|
  {
    if choices == [] || choices[0].Stopped? {
      later := now;
    } else {
      ChosenKeepsInv(s, now, choices[0], compiles);
      later := InvOverRuns(Chosen(s, choices[0], compiles), choices[0].at, choices[1..], compiles);
    }
  }

  /** Over every timed run: the log is the record of the events handled and the loads attempted; a load is attempted
      only after the quiet time since every event handled before; the timer is armed exactly when an event has been
      handled since the last attempt; and attempts never outnumber events. */
  lemma Debounced(config: Config, now: int, choices: seq<Choice>, compiles: Regexps)
    requires Timed(Watch(None, config, []), now, choices, compiles)
    ensures var e := Watched(Watch(None, config, []), choices, compiles);
            && e.log == Record(Seen(choices)) && Quiet(e.log) && (e.timer.Some? <==> Pending(e.log))
            && Count(e.log, true) <= Count(e.log, false)
  {
    var _ := InvOverRuns(Watch(None, config, []), now, choices, compiles);
    LogIsRecord(Watch(None, config, []), choices, compiles);
  }

  /** If anything was loaded, something was loaded last. */
  lemma {:induction false} LastOf(seen: seq<Choice>, compiles: Regexps) returns (k: nat)
    requires !NoLoad(seen, compiles)
    ensures LastLoad(seen, k, compiles)
  {
    k := |seen| - 1;
    if !Loads(seen[k], compiles) {
      k := LastOf(seen[..|seen| - 1], compiles);
    }
  }

  /** Over every run, timed or not: the stored configuration is what the file said when it was last found readable and
      valid, or the initial one as long as it never was; and if the initial one is valid, the stored one is. */
  lemma StoredIsValid(config: Config, choices: seq<Choice>, compiles: Regexps)
    ensures var e, seen := Watched(Watch(None, config, []), choices, compiles), Seen(choices);
            && StoredFrom(config, seen, e.config, compiles)
            && (Valid(config, compiles) ==> Valid(e.config, compiles))
  {
    StoredIsLastLoaded(Watch(None, config, []), choices, compiles);
    var e, seen := Watched(Watch(None, config, []), choices, compiles), Seen(choices);
    if !NoLoad(seen, compiles) {
      var last := LastOf(seen, compiles);
      DefaultsKeepValidity(seen[last].file.config, e.config, compiles);
    }
  }
}
