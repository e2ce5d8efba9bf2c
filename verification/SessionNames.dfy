/** Mutagen session names: `dcm-<short id>-<index>-<8 hex digits>`. */
module SessionNames {
  import opened Model

  /** The first eight hexadecimal digits of a digest. */
  type Hex8 = s: string | |s| == 8 witness "00000000"

  /** The hash function is a parameter: no property below depends on which one it is. */
  type Digest = string -> Hex8

  const PREFIX := "dcm-"

  function ShortId(id: string): string {
    if |id| <= 12 then id else id[..12]
  }

  function Decimal(n: nat): string {
    if n < 10 then ["0123456789"[n]] else Decimal(n / 10) + ["0123456789"[n % 10]]
  }

  function SessionName(containerId: string, rule: string, index: nat, entry: SyncEntry, digest: Digest): string {
    var sum := digest(containerId + "|" + rule + "|" + Decimal(index) + "|" + entry.manager + "|" + entry.container);
    PREFIX + ShortId(containerId) + "-" + Decimal(index) + "-" + sum
  }

  function DigitValue(c: char): nat
    requires '0' <= c <= '9'
  {
    (c - '0') as nat
  }

  ghost predicate AllDigits(s: string) {
    forall i :: 0 <= i < |s| ==> '0' <= s[i] <= '9'
  }

  function Parse(s: string): nat
    requires AllDigits(s)
  {
    if s == [] then 0 else 10 * Parse(s[..|s| - 1]) + DigitValue(s[|s| - 1])
  }

  /** Decimal rendering writes digits only, and reading them back gives the number. */
  lemma {:induction false} DecimalRoundTrip(n: nat)
    ensures AllDigits(Decimal(n)) && Parse(Decimal(n)) == n
  {
    if n < 10 {
      assert Decimal(n)[..0] == [];
    } else {
      DecimalRoundTrip(n / 10);
      var s := Decimal(n);
      assert s[..|s| - 1] == Decimal(n / 10);
    }
  }

  /** Two strings cut at their last dash agree on both halves. */
  lemma LastDash(a: string, d: string, b: string, e: string)
    requires AllDigits(d) && AllDigits(e)
    requires a + "-" + d == b + "-" + e
    ensures a == b && d == e
  {
    var s, t := a + "-" + d, b + "-" + e;
    // A dash at a different place in `t` would lie inside the digits of the other cut.
    assert s[|a|] == '-' && t[|b|] == '-';
    assert forall k :: |a| < k < |s| ==> s[k] == d[k - |a| - 1];
    assert forall k :: |b| < k < |t| ==> t[k] == e[k - |b| - 1];
    assert |a| == |b|;
    assert a == s[..|a|] == t[..|b|] == b;
    assert d == s[|a| + 1..] == t[|b| + 1..] == e;
  }

  /** A name determines the short ID and the index it was built from, whatever the
      rules, the paths, the digest and the length of the short IDs are. */
  lemma SessionNameInjective(
    c1: string, r1: string, i1: nat, e1: SyncEntry, c2: string, r2: string, i2: nat, e2: SyncEntry, digest: Digest)
    requires SessionName(c1, r1, i1, e1, digest) == SessionName(c2, r2, i2, e2, digest)
    ensures ShortId(c1) == ShortId(c2) && i1 == i2
  {
    var n1, n2 := SessionName(c1, r1, i1, e1, digest), SessionName(c2, r2, i2, e2, digest);
    var p1, p2 := PREFIX + ShortId(c1), PREFIX + ShortId(c2);
    assert n1[..|n1| - 9] == p1 + "-" + Decimal(i1);
    assert n2[..|n2| - 9] == p2 + "-" + Decimal(i2);
    DecimalRoundTrip(i1);
    DecimalRoundTrip(i2);
    LastDash(p1, Decimal(i1), p2, Decimal(i2));
    assert ShortId(c1) == p1[4..] && ShortId(c2) == p2[4..];
  }

  /** Two entries at one place have the same name exactly when the digests of everything that identifies them agree:
      container, rule, index and both paths. */
  lemma SameNameSameDigest(
    id: string, index: nat, r1: string, e1: SyncEntry, r2: string, e2: SyncEntry, digest: Digest)
    ensures SessionName(id, r1, index, e1, digest) == SessionName(id, r2, index, e2, digest) <==>
            digest(id + "|" + r1 + "|" + Decimal(index) + "|" + e1.manager + "|" + e1.container)
            == digest(id + "|" + r2 + "|" + Decimal(index) + "|" + e2.manager + "|" + e2.container)
  {
    var n1, n2 := SessionName(id, r1, index, e1, digest), SessionName(id, r2, index, e2, digest);
    assert n1[|n1| - 8..] == digest(id + "|" + r1 + "|" + Decimal(index) + "|" + e1.manager + "|" + e1.container);
    assert n2[|n2| - 8..] == digest(id + "|" + r2 + "|" + Decimal(index) + "|" + e2.manager + "|" + e2.container);
  }

  /** Every session name is recognisable by its prefix. */
  predicate Reserved(s: string) {
    PREFIX <= s
  }

  lemma SessionNameReserved(containerId: string, rule: string, index: nat, entry: SyncEntry, digest: Digest)
    ensures Reserved(SessionName(containerId, rule, index, entry, digest))
  {
    var n := SessionName(containerId, rule, index, entry, digest);
    assert n[..4] == PREFIX;
  }
}
