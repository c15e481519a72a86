/** Package versions and the increments the bump applies to them: the `patch`, `minor`, `major`
    and `prerelease` increments of the npm `semver` package, `performPatch`, and the scope
    dispatch of `bumpVersion`. Precedence follows item 11 of Semantic Versioning 2.0.0. */
module Versions {
  import opened Text
  import opened Types

  /** A dot-separated pre-release identifier: numeric or alphanumeric. */
  datatype Identifier = Num(n: nat) | Alnum(s: string)

  /** A version without build metadata: `major.minor.patch[-pre]`. */
  datatype Version = Version(major: nat, minor: nat, patch: nat, pre: seq<Identifier>)

  function IdentifierText(id: Identifier): string {
    match id
    case Num(n) => NatToString(n)
    case Alnum(s) => s
  }

  function IdentifiersText(ids: seq<Identifier>): (r: seq<string>)
    ensures |r| == |ids|
    ensures forall k :: 0 <= k < |ids| ==> r[k] == IdentifierText(ids[k])
  {
    if ids == [] then [] else [IdentifierText(ids[0])] + IdentifiersText(ids[1..])
  }

  /** The version string a manifest holds. */
  function Format(v: Version): string {
    NatToString(v.major) + "." + NatToString(v.minor) + "." + NatToString(v.patch)
    + (if v.pre == [] then "" else "-" + Join(IdentifiersText(v.pre), "."))
  }

  // ---------------------------------------------------------------------------------------
  // Precedence (item 11 of Semantic Versioning 2.0.0).

  /** ASCII order on alphanumeric identifiers; a proper prefix comes first. */
  predicate TextLess(a: string, b: string) {
    if a == [] then b != []
    else if b == [] then false
    else a[0] < b[0] || (a[0] == b[0] && TextLess(a[1..], b[1..]))
  }

  /** Numeric identifiers compare numerically and come before alphanumeric ones. */
  predicate IdentifierLess(a: Identifier, b: Identifier) {
    match (a, b)
    case (Num(x), Num(y)) => x < y
    case (Num(_), Alnum(_)) => true
    case (Alnum(_), Num(_)) => false
    case (Alnum(x), Alnum(y)) => TextLess(x, y)
  }

  /** Field-by-field comparison of pre-release lists; a proper prefix comes first. */
  predicate PreLess(a: seq<Identifier>, b: seq<Identifier>) {
    if a == [] then b != []
    else if b == [] then false
    else IdentifierLess(a[0], b[0]) || (a[0] == b[0] && PreLess(a[1..], b[1..]))
  }

  /** `v` has lower precedence than `w`. */
  predicate Less(v: Version, w: Version) {
    if v.major != w.major then v.major < w.major
    else if v.minor != w.minor then v.minor < w.minor
    else if v.patch != w.patch then v.patch < w.patch
    else if v.pre == [] then false
    else if w.pre == [] then true
    else PreLess(v.pre, w.pre)
  }

  // ---------------------------------------------------------------------------------------
  // Increments.

  /** `inc(v, 'patch')`: a release moves to the next patch; a pre-release becomes its release. */
  function IncPatch(v: Version): Version {
    if v.pre == [] then Version(v.major, v.minor, v.patch + 1, []) else Version(v.major, v.minor, v.patch, [])
  }

  /** `inc(v, 'minor')`: `x.y.0-pre` becomes `x.y.0`; anything else moves to `x.(y+1).0`. */
  function IncMinor(v: Version): (r: Version)
    ensures r.major == v.major && r.patch == 0 && r.pre == []
    ensures v.pre == [] ==> r.minor == v.minor + 1
  {
    Version(v.major, if v.patch != 0 || v.pre == [] then v.minor + 1 else v.minor, 0, [])
  }

  /** `inc(v, 'major')`: `x.0.0-pre` becomes `x.0.0`; anything else moves to `(x+1).0.0`. */
  function IncMajor(v: Version): (r: Version)
    ensures r.minor == 0 && r.patch == 0 && r.pre == []
    ensures v.pre == [] ==> r.major == v.major + 1
  {
    Version(if v.minor != 0 || v.patch != 0 || v.pre == [] then v.major + 1 else v.major, 0, 0, [])
  }

  /** The index of the last numeric identifier among `pre[..i]`, or -1. */
  function LastNumericBefore(pre: seq<Identifier>, i: nat): (k: int)
    requires i <= |pre|
    ensures -1 <= k < i
    ensures k >= 0 ==> pre[k].Num?
    ensures forall j :: k < j < i ==> pre[j].Alnum?
  {
    if i == 0 then -1 else if pre[i - 1].Num? then i - 1 else LastNumericBefore(pre, i - 1)
  }

  /** `inc(v, 'prerelease')`: a release moves to the next patch with pre-release `0`; otherwise the
      last numeric identifier is incremented, or `0` is appended when there is none. */
  function IncPrerelease(v: Version): Version {
    if v.pre == [] then Version(v.major, v.minor, v.patch + 1, [Num(0)])
    else
      var k := LastNumericBefore(v.pre, |v.pre|);
      if k < 0 then v.(pre := v.pre + [Num(0)])
      else v.(pre := v.pre[k := Num(v.pre[k].n + 1)])
  }

  /** `performPatch`: the pre-release increment when the version has a pre-release, else the
      patch increment. */
  function PerformPatch(v: Version): (r: Version)
    ensures v.pre == [] ==> r == Version(v.major, v.minor, v.patch + 1, [])
    ensures v.pre != [] ==> r.major == v.major && r.minor == v.minor && r.patch == v.patch
                            && |r.pre| >= |v.pre| && PreLess(v.pre, r.pre)
  {
    if v.pre != [] then
      PrereleaseIncreases(v);
      IncPrerelease(v)
    else IncPatch(v)
  }

  predicate IsBumpScope(scope: string) {
    scope == "patch" || scope == "minor" || scope == "major"
  }

  /** The scope dispatch of `bumpVersion`: the three bump scopes pick their increment, and any
      other scope (including `none`) raises the invalid-scope error. */
  function BumpVersion(v: Version, scope: string): (r: Result<Version>)
    ensures r.Ok? <==> IsBumpScope(scope)
    ensures r.Err? ==> r.error == InvalidBumpScope(scope)
    ensures scope == "patch" && v.pre == [] ==> r == Ok(Version(v.major, v.minor, v.patch + 1, []))
    ensures scope == "patch" && v.pre != [] ==>
              r.Ok? && r.value.major == v.major && r.value.minor == v.minor && r.value.patch == v.patch
              && PreLess(v.pre, r.value.pre)
    ensures scope == "minor" ==>
              r.Ok? && r.value.major == v.major && r.value.patch == 0 && r.value.pre == []
              && (v.pre == [] ==> r.value.minor == v.minor + 1)
    ensures scope == "major" ==>
              r.Ok? && r.value.minor == 0 && r.value.patch == 0 && r.value.pre == []
              && (v.pre == [] ==> r.value.major == v.major + 1)
  {
    if scope == "patch" then Ok(PerformPatch(v))
    else if scope == "minor" then Ok(IncMinor(v))
    else if scope == "major" then Ok(IncMajor(v))
    else Err(InvalidBumpScope(scope))
  }

  // ---------------------------------------------------------------------------------------
  // Every bump moves forward.

  /** Appending an identifier moves a pre-release list forward. */
  lemma {:induction false} PreLessExtend(a: seq<Identifier>, id: Identifier)
    ensures PreLess(a, a + [id])
  {
    if a != [] {
      assert (a + [id])[1..] == a[1..] + [id];
      PreLessExtend(a[1..], id);
    }
  }

  /** Incrementing a numeric identifier in place moves a pre-release list forward. */
  lemma {:induction false} PreLessIncrement(a: seq<Identifier>, k: nat)
    requires k < |a| && a[k].Num?
    ensures PreLess(a, a[k := Num(a[k].n + 1)])
  {
    var b := a[k := Num(a[k].n + 1)];
    if k > 0 {
      assert b[1..] == a[1..][k - 1 := Num(a[k].n + 1)];
      PreLessIncrement(a[1..], k - 1);
    }
  }

  lemma PrereleaseIncreases(v: Version)
    ensures Less(v, IncPrerelease(v))
  {
    if v.pre != [] {
      var k := LastNumericBefore(v.pre, |v.pre|);
      if k < 0 {
        PreLessExtend(v.pre, Num(0));
      } else {
        PreLessIncrement(v.pre, k);
      }
    }
  }

  /** Whatever the scope, a successful bump yields a version of strictly higher precedence. */
  lemma BumpIncreases(v: Version, scope: string)
    requires IsBumpScope(scope)
    ensures Less(v, BumpVersion(v, scope).value)
  {
    if scope == "patch" && v.pre != [] {
      PrereleaseIncreases(v);
    }
  }

  /** The release increments the package's own tests pin down. */
  lemma TestedReleaseIncrements()
    ensures Format(BumpVersion(Version(1, 2, 3, []), "patch").value) == "1.2.4"
    ensures Format(BumpVersion(Version(1, 2, 3, []), "minor").value) == "1.3.0"
    ensures Format(BumpVersion(Version(1, 2, 3, []), "major").value) == "2.0.0"
  {
    var v := Version(1, 2, 3, []);
    assert BumpVersion(v, "patch").value == Version(1, 2, 4, []);
    assert BumpVersion(v, "minor").value == Version(1, 3, 0, []);
    assert BumpVersion(v, "major").value == Version(2, 0, 0, []);
  }

  /** A patch bump of a pre-release increments its last number, as the package's tests expect. */
  lemma TestedPrereleaseIncrement()
    ensures Format(BumpVersion(Version(1, 2, 3, [Alnum("alpha"), Num(4)]), "patch").value) == "1.2.3-alpha.5"
  {
    AlphaFourPatch();
    AlphaFiveText();
  }

  lemma AlphaFourPatch()
    ensures BumpVersion(Version(1, 2, 3, [Alnum("alpha"), Num(4)]), "patch")
            == Ok(Version(1, 2, 3, [Alnum("alpha"), Num(5)]))
  {
    var w := Version(1, 2, 3, [Alnum("alpha"), Num(4)]);
    assert LastNumericBefore(w.pre, 2) == 1;
    assert IncPrerelease(w) == Version(1, 2, 3, [Alnum("alpha"), Num(5)]);
  }

  lemma AlphaFiveText()
    ensures Format(Version(1, 2, 3, [Alnum("alpha"), Num(5)])) == "1.2.3-alpha.5"
  {
    assert IdentifiersText([Alnum("alpha"), Num(5)]) == ["alpha", "5"];
  }
}
