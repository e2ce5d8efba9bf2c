/** The values that travel between the components: what Docker discovery lists,
    what the configuration asks for and what the service publishes. */
module Model {
  datatype Option<+T> = None | Some(value: T)

  datatype Result<+T> = Ok(value: T) | Err(error: string)

  /** How one call ends. A call that fails may still have taken effect. */
  datatype Fate = Succeeds | FailsBefore(error: string) | FailsAfter(error: string)

  predicate Lands(f: Fate) {
    !f.FailsBefore?
  }

  function ErrorOf(f: Fate): Option<string> {
    match f
    case Succeeds => None
    case FailsBefore(e) => Some(e)
    case FailsAfter(e) => Some(e)
  }

  datatype SyncEntry = SyncEntry(mode: string, manager: string, container: string)

  /** `patterns` are the regular expressions of the rule's three matchers ("" when there is none), `t3` its
      optional override of the global T3 switch. */
  datatype Rule = Rule(name: string, patterns: seq<string>, t3: Option<bool>, syncs: seq<SyncEntry>)

  datatype Config = Config(
    syncEnabled: bool,
    t3Enabled: bool,
    t3Port: int,
    autoIssue: bool,
    rules: seq<Rule>)

  datatype T3Status = T3Status(
    enabled: bool,
    environmentId: string,
    status: string,
    error: string,
    backendUrl: string,
    backendToken: string)

  datatype SyncSummary = SyncSummary(enabled: bool, status: string, sessions: nat, error: string)

  datatype Container = Container(
    id: string,
    running: bool,
    user: string,
    ip: string,
    workspace: string,
    rule: Option<Rule>,
    t3: T3Status,
    sync: SyncSummary)

  datatype Session = Session(
    id: string,
    name: string,
    containerId: string,
    rule: string,
    syncIndex: nat,
    mode: string,
    alpha: string,
    beta: string,
    status: string,
    error: string)

  // The zero values that Go gives to fields nobody has set.
  const NO_T3 := T3Status(false, "", "", "", "", "")
  const NO_SYNC := SyncSummary(false, "", 0, "")
  const NO_CONTAINER := Container("", false, "", "", "", None, NO_T3, NO_SYNC)

  function FirstNonEmpty(a: string, b: string): string {
    if a != "" then a else b
  }

  /** The sync entries of a container; none when no rule matched it. */
  function Syncs(c: Container): seq<SyncEntry> {
    if c.rule.Some? then c.rule.value.syncs else []
  }

  ghost predicate DistinctIds(cs: seq<Container>) {
    forall i, j :: 0 <= i < j < |cs| ==> cs[i].id != cs[j].id
  }
}
