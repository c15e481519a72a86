/** Locating the `## CHANGELOG` section of a pull-request description and extracting the text
    below it, with the emptiness and required-pattern checks. */
module Changelog {
  import opened Text
  import opened Types

  /** A line that opens the changelog section: after trimming and lower-casing it reads
      `##changelog` or `## changelog`. */
  predicate IsChangelogHeader(line: string) {
    var p := ToLower(Trim(line));
    p == "##changelog" || p == "## changelog"
  }

  /** Which lines are header lines. */
  function HeaderFlags(lines: seq<string>): (flags: seq<bool>)
    ensures |flags| == |lines|
  {
    if lines == [] then [] else [IsChangelogHeader(lines[0])] + HeaderFlags(lines[1..])
  }

  /** The flag of line `j` says whether it is a header line. */
  lemma {:induction false} HeaderFlagAt(lines: seq<string>, j: nat)
    requires j < |lines|
    ensures HeaderFlags(lines)[j] == IsChangelogHeader(lines[j])
  {
    if j > 0 {
      HeaderFlagAt(lines[1..], j - 1);
      assert lines[1..][j - 1] == lines[j];
    }
  }

  /** The positions of the set flags among the first `n`, in increasing order. */
  function SetBelow(flags: seq<bool>, n: nat): (hs: seq<nat>)
    requires n <= |flags|
    ensures |hs| <= n
  {
    if n == 0 then []
    else if flags[n - 1] then SetBelow(flags, n - 1) + [n - 1]
    else SetBelow(flags, n - 1)
  }

  /** Every listed position is below `n` and set. */
  lemma {:induction false} SetBelowSound(flags: seq<bool>, n: nat)
    requires n <= |flags|
    ensures forall k :: 0 <= k < |SetBelow(flags, n)| ==> SetBelow(flags, n)[k] < n && flags[SetBelow(flags, n)[k]]
  {
    if n > 0 {
      SetBelowSound(flags, n - 1);
    }
  }

  /** Every set position below `n` is listed. */
  lemma {:induction false} SetBelowComplete(flags: seq<bool>, n: nat)
    requires n <= |flags|
    ensures forall j :: 0 <= j < n && flags[j] ==> j in SetBelow(flags, n)
  {
    if n > 0 {
      SetBelowComplete(flags, n - 1);
    }
  }

  /** The positions are listed in increasing order. */
  lemma {:induction false} SetBelowSorted(flags: seq<bool>, n: nat)
    requires n <= |flags|
    ensures forall k, l :: 0 <= k < l < |SetBelow(flags, n)| ==> SetBelow(flags, n)[k] < SetBelow(flags, n)[l]
  {
    if n > 0 {
      SetBelowSorted(flags, n - 1);
      SetBelowSound(flags, n - 1);
    }
  }

  /** Scanning further only adds positions at the end. */
  lemma {:induction false} SetBelowGrow(flags: seq<bool>, n: nat, m: nat)
    requires n <= m <= |flags|
    ensures SetBelow(flags, n) <= SetBelow(flags, m)
    decreases m
  {
    if n < m {
      SetBelowGrow(flags, n, m - 1);
    }
  }

  /** The section index read off the positions of the set flags: -1 without one, the position
      with exactly one, and the multiple-sections error naming the first two (1-based) otherwise. */
  function FlagIndex(flags: seq<bool>): (r: Result<int>)
    ensures r.Ok? ==> -1 <= r.value < |flags|
    ensures r.Err? ==> r.error.MultipleChangelogSections?
  {
    var hs := SetBelow(flags, |flags|);
    SetBelowSound(flags, |flags|);
    if |hs| == 0 then Ok(-1)
    else if |hs| == 1 then Ok(hs[0])
    else Err(MultipleChangelogSections(hs[0] + 1, hs[1] + 1))
  }

  /** What `getChangelogSectionIndex` computes. */
  function SectionIndex(lines: seq<string>): (r: Result<int>)
    ensures r.Ok? ==> -1 <= r.value < |lines|
    ensures r.Err? ==> r.error.MultipleChangelogSections?
  {
    FlagIndex(HeaderFlags(lines))
  }

  /** No set flag exactly when the index is -1. */
  lemma NoFlagIndex(flags: seq<bool>)
    ensures FlagIndex(flags) == Ok(-1) <==> forall j :: 0 <= j < |flags| ==> !flags[j]
  {
    var hs := SetBelow(flags, |flags|);
    SetBelowSound(flags, |flags|);
    SetBelowComplete(flags, |flags|);
    if |hs| > 0 {
      assert flags[hs[0]];
    }
  }

  /** A non-negative index is the one and only set flag. */
  lemma SingleFlagIndex(flags: seq<bool>)
    requires FlagIndex(flags).Ok? && FlagIndex(flags).value != -1
    ensures flags[FlagIndex(flags).value]
    ensures forall j :: 0 <= j < |flags| && j != FlagIndex(flags).value ==> !flags[j]
  {
    var hs := SetBelow(flags, |flags|);
    SetBelowSound(flags, |flags|);
    SetBelowComplete(flags, |flags|);
    assert |hs| == 1;
  }

  /** A single set flag, at `h`, is the index. */
  lemma OnlyFlagIndex(flags: seq<bool>, h: nat)
    requires h < |flags| && flags[h]
    requires forall j :: 0 <= j < |flags| && j != h ==> !flags[j]
    ensures FlagIndex(flags) == Ok(h)
  {
    SetBelowOnly(flags, |flags|, h);
  }

  /** With `h` the only set flag, the scan lists `h` once it has passed it. */
  lemma {:induction false} SetBelowOnly(flags: seq<bool>, n: nat, h: nat)
    requires n <= |flags| && h < |flags| && flags[h]
    requires forall j :: 0 <= j < |flags| && j != h ==> !flags[j]
    ensures SetBelow(flags, n) == if n <= h then [] else [h]
  {
    if n > 0 {
      SetBelowOnly(flags, n - 1, h);
    }
  }

  /** The error names the first two set flags, 1-based. */
  lemma MultipleFlagIndex(flags: seq<bool>) returns (a: nat, b: nat)
    requires FlagIndex(flags).Err?
    ensures a < b < |flags| && flags[a] && flags[b]
    ensures forall j :: 0 <= j < b && j != a ==> !flags[j]
    ensures FlagIndex(flags).error == MultipleChangelogSections(a + 1, b + 1)
  {
    var hs := SetBelow(flags, |flags|);
    SetBelowSound(flags, |flags|);
    SetBelowComplete(flags, |flags|);
    SetBelowSorted(flags, |flags|);
    a, b := hs[0], hs[1];
  }

  /** The section index is -1 exactly when no line is a header. */
  lemma SectionIndexNone(lines: seq<string>)
    ensures SectionIndex(lines) == Ok(-1) <==> forall j :: 0 <= j < |lines| ==> !IsChangelogHeader(lines[j])
  {
    var flags := HeaderFlags(lines);
    NoFlagIndex(flags);
    if forall j :: 0 <= j < |lines| ==> !IsChangelogHeader(lines[j]) {
      forall j | 0 <= j < |lines| ensures !flags[j] {
        HeaderFlagAt(lines, j);
      }
    } else {
      var j :| 0 <= j < |lines| && IsChangelogHeader(lines[j]);
      HeaderFlagAt(lines, j);
    }
  }

  /** A non-negative section index is the one and only header line. */
  lemma SectionIndexSingle(lines: seq<string>)
    requires SectionIndex(lines).Ok? && SectionIndex(lines).value != -1
    ensures IsChangelogHeader(lines[SectionIndex(lines).value])
    ensures forall j :: 0 <= j < |lines| && j != SectionIndex(lines).value ==> !IsChangelogHeader(lines[j])
  {
    var flags := HeaderFlags(lines);
    SingleFlagIndex(flags);
    var h := FlagIndex(flags).value;
    HeaderFlagAt(lines, h);
    forall j | 0 <= j < |lines| && j != h ensures !IsChangelogHeader(lines[j]) {
      HeaderFlagAt(lines, j);
    }
  }

  /** The multiple-sections error names the first two header lines, 1-based. */
  lemma SectionIndexMultiple(lines: seq<string>)
    requires SectionIndex(lines).Err?
    ensures exists a, b :: 0 <= a < b < |lines| && IsChangelogHeader(lines[a]) && IsChangelogHeader(lines[b])
              && (forall j :: 0 <= j < b && j != a ==> !IsChangelogHeader(lines[j]))
              && SectionIndex(lines).error == MultipleChangelogSections(a + 1, b + 1)
  {
    var flags := HeaderFlags(lines);
    var a, b := MultipleFlagIndex(flags);
    HeaderFlagAt(lines, a);
    HeaderFlagAt(lines, b);
    forall j | 0 <= j < b && j != a ensures !IsChangelogHeader(lines[j]) {
      HeaderFlagAt(lines, j);
    }
  }

  /** Meeting a second set flag during the scan decides the index: the error naming both. */
  lemma SecondHeader(flags: seq<bool>, index: nat, i: nat)
    requires i < |flags| && flags[i]
    requires SetBelow(flags, i) == [index]
    ensures FlagIndex(flags) == Err(MultipleChangelogSections(index + 1, i + 1))
  {
    assert SetBelow(flags, i + 1) == [index, i];
    SetBelowGrow(flags, i + 1, |flags|);
    var hs := SetBelow(flags, |flags|);
    assert hs[0] == index && hs[1] == i;
  }

  /** The scan of `getChangelogSectionIndex`: remember the header index, and throw at the second. */
  method ChangelogSectionIndex(lines: seq<string>) returns (r: Result<int>)
    ensures r == SectionIndex(lines)
  {
    ghost var flags := HeaderFlags(lines);
    var index := -1;
    var i := 0;
    while i < |lines|
      invariant i <= |lines|
      invariant SetBelow(flags, i) == if index == -1 then [] else [index]
    {
      HeaderFlagAt(lines, i);
      if IsChangelogHeader(lines[i]) {
        if index != -1 {
          SecondHeader(flags, index, i);
          return Err(MultipleChangelogSections(index + 1, i + 1));
        }
        index := i;
      }
      i := i + 1;
    }
    return Ok(index);
  }

  /** The required-pattern checks, in order: the first pattern the changelog fails raises the
      mismatch error quoting that pattern. */
  function CheckRequired(changelog: string, required: seq<Pattern>): (r: Result<string>)
    ensures r.Ok? <==> forall k :: 0 <= k < |required| ==> required[k].test(changelog)
    ensures r.Ok? ==> r.value == changelog
    ensures r.Err? ==>
              exists k :: 0 <= k < |required| && !required[k].test(changelog)
                && (forall l :: 0 <= l < k ==> required[l].test(changelog))
                && r.error == PatternMismatch(required[k].source)
  {
    if required == [] then Ok(changelog)
    else if !required[0].test(changelog) then Err(PatternMismatch(required[0].source))
    else
      var rest := CheckRequired(changelog, required[1..]);
      if rest.Err? then
        var k :| 0 <= k < |required| - 1 && !required[1..][k].test(changelog)
                 && (forall l :: 0 <= l < k ==> required[1..][l].test(changelog))
                 && rest.error == PatternMismatch(required[1..][k].source);
        assert forall l :: 0 <= l < k + 1 ==> required[l].test(changelog) by {
          forall l | 0 <= l < k + 1 ensures required[l].test(changelog) {
            if l > 0 { assert required[l] == required[1..][l - 1]; }
          }
        }
        rest
      else
        assert forall k :: 0 <= k < |required| ==> required[k].test(changelog) by {
          forall k | 0 <= k < |required| ensures required[k].test(changelog) {
            if k > 0 { assert required[k] == required[1..][k - 1]; }
          }
        }
        rest
  }

  const SecurityHeading := "### Security\n- [Dependabot] "

  /** The changelog a Dependabot pull request gets when its description has no changelog section. */
  function DependabotChangelog(pr: PullRequest): string {
    SecurityHeading + Show(pr.name)
  }

  /** The changelog text before the checks: the lines after the header joined with newlines, or,
      without a header, the Dependabot default or the empty string. */
  function SectionText(pr: PullRequest): (r: Result<string>)
    ensures r.Err? <==> SectionIndex(Split(pr.description, '\n')).Err?
  {
    var lines := Split(pr.description, '\n');
    match SectionIndex(lines)
    case Err(e) => Err(e)
    case Ok(index) =>
      if index >= 0 then Ok(Join(lines[index + 1..], "\n"))
      else if Contains(pr.description, DependabotMarker) then Ok(DependabotChangelog(pr))
      else Ok("")
  }

  /** `getChangelogForPr`. */
  function ChangelogForPr(pr: PullRequest, required: seq<Pattern>): (r: Result<string>)
    ensures SectionText(pr).Err? ==> r == SectionText(pr)
    ensures SectionText(pr).Ok? && AllSpace(SectionText(pr).value) ==> r == Err(NoChangelogContent)
    ensures SectionText(pr).Ok? && !AllSpace(SectionText(pr).value) ==>
              r == CheckRequired(SectionText(pr).value, required)
    ensures r.Ok? ==> r == SectionText(pr) && !AllSpace(r.value)
                      && forall k :: 0 <= k < |required| ==> required[k].test(r.value)
  {
    match SectionText(pr)
    case Err(e) => Err(e)
    case Ok(changelog) =>
      TrimEmptyIffAllSpace(changelog);
      if Trim(changelog) == [] then Err(NoChangelogContent)
      else CheckRequired(changelog, required)
  }

  /** The lines of `pre`, a one-line `header` and `body`, joined with newlines, split back into the
      lines of `pre`, the header and the lines of `body`. */
  lemma LinesAroundHeader(pre: string, header: string, body: string)
    requires '\n' !in header
    ensures Split(pre + "\n" + header + "\n" + body, '\n')
            == Split(pre, '\n') + [header] + Split(body, '\n')
  {
    assert pre + "\n" + header + "\n" + body == pre + ['\n'] + (header + ['\n'] + body);
    SplitConcat(pre, '\n', header + ['\n'] + body);
    SplitAppend(header, '\n', body);
  }

  /** With exactly one header line, at position `h`, the section index is `h`. */
  lemma SingleHeaderIndex(lines: seq<string>, h: nat)
    requires h < |lines| && IsChangelogHeader(lines[h])
    requires forall j :: 0 <= j < |lines| && j != h ==> !IsChangelogHeader(lines[j])
    ensures SectionIndex(lines) == Ok(h)
  {
    var flags := HeaderFlags(lines);
    HeaderFlagAt(lines, h);
    forall j | 0 <= j < |lines| && j != h ensures !flags[j] {
      HeaderFlagAt(lines, j);
    }
    OnlyFlagIndex(flags, h);
  }

  /** A description made of free text, a header line (such as `## CHANGELOG`) and a body yields
      exactly that body, when neither side holds another header line, the body is not blank and
      nothing is required. */
  lemma SectionBodyRoundTrip(pr: PullRequest, pre: string, header: string, body: string)
    requires IsChangelogHeader(header) && '\n' !in header
    requires pr.description == pre + "\n" + header + "\n" + body
    requires forall l :: l in Split(pre, '\n') + Split(body, '\n') ==> !IsChangelogHeader(l)
    requires !AllSpace(body)
    ensures ChangelogForPr(pr, []) == Ok(body)
  {
    LinesAroundHeader(pre, header, body);
    var lines := Split(pr.description, '\n');
    var p := Split(pre, '\n');
    var h := |p|;
    forall j | 0 <= j < |lines| && j != h ensures !IsChangelogHeader(lines[j]) {
      assert lines[j] in p + Split(body, '\n');
    }
    SingleHeaderIndex(lines, h);
    assert lines[h + 1..] == Split(body, '\n');
    JoinSplit(body, '\n');
    TrimEmptyIffAllSpace(body);
  }

  /** Lines none of which is a header have section index -1. */
  lemma NoHeaderNoSection(lines: seq<string>)
    requires forall l :: l in lines ==> !IsChangelogHeader(l)
    ensures SectionIndex(lines) == Ok(-1)
  {
    forall j | 0 <= j < |lines| ensures !HeaderFlags(lines)[j] {
      HeaderFlagAt(lines, j);
      assert lines[j] in lines;
    }
    NoFlagIndex(HeaderFlags(lines));
  }

  /** A Dependabot description without a changelog section yields the security default naming
      the pull request, when nothing is required. */
  lemma DependabotDefault(pr: PullRequest)
    requires Contains(pr.description, DependabotMarker)
    requires forall l :: l in Split(pr.description, '\n') ==> !IsChangelogHeader(l)
    ensures ChangelogForPr(pr, []) == Ok(DependabotChangelog(pr))
  {
    var lines := Split(pr.description, '\n');
    NoHeaderNoSection(lines);
    assert DependabotChangelog(pr)[0] == '#';
  }

  /** Without a changelog section and outside Dependabot descriptions, extraction always fails
      with the no-content error. */
  lemma NoSectionNoContent(pr: PullRequest, required: seq<Pattern>)
    requires !Contains(pr.description, DependabotMarker)
    requires forall l :: l in Split(pr.description, '\n') ==> !IsChangelogHeader(l)
    ensures ChangelogForPr(pr, required) == Err(NoChangelogContent)
  {
    var lines := Split(pr.description, '\n');
    NoHeaderNoSection(lines);
  }
}
