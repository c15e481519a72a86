/** Extracting the release scope (none, patch, minor, major) from a pull-request description,
    and checking it against the weight order and an optional ceiling. */
module Scopes {
  import opened Text
  import opened Types

  predicate IsScopeName(s: string) {
    s == "none" || s == "patch" || s == "minor" || s == "major"
  }

  /** The weight table: none(1) < patch(2) < minor(3) < major(4), and 0 for any other string. */
  function Weight(s: string): (w: nat)
    ensures w <= 4
    ensures w > 0 <==> IsScopeName(s)
  {
    if s == "none" then 1
    else if s == "patch" then 2
    else if s == "minor" then 3
    else if s == "major" then 4
    else 0
  }

  /** A ceiling that names no scope restricts nothing: the source compares against `undefined`. */
  predicate WithinCeiling(scope: string, maxScope: string) {
    !IsScopeName(maxScope) || Weight(scope) <= Weight(maxScope)
  }

  /** `getValidatedScope`: the scope itself when it is a known name whose weight does not exceed
      the ceiling's; otherwise the invalid-scope or above-maximum error. */
  function ValidatedScope(scope: string, maxScope: string, prNumber: int, prUrl: string): (r: Result<string>)
    ensures r.Ok? <==> IsScopeName(scope) && WithinCeiling(scope, maxScope)
    ensures r.Ok? ==> r.value == scope
    ensures !IsScopeName(scope) ==> r == Err(InvalidScope(scope, prNumber, prUrl))
    ensures IsScopeName(scope) && !WithinCeiling(scope, maxScope) ==>
              r == Err(ScopeAboveMaximum(scope, maxScope, prNumber, prUrl))
  {
    if Weight(scope) == 0 then Err(InvalidScope(scope, prNumber, prUrl))
    else if IsScopeName(maxScope) && Weight(scope) > Weight(maxScope) then
      Err(ScopeAboveMaximum(scope, maxScope, prNumber, prUrl))
    else Ok(scope)
  }

  // ---------------------------------------------------------------------------------------
  // The weight lookup as the source writes it: an index into a plain object literal, which
  // also finds the properties every object inherits from Object.prototype.

  const InheritedKeys: set<string> := {
    "constructor", "__proto__", "__defineGetter__", "__defineSetter__", "__lookupGetter__",
    "__lookupSetter__", "hasOwnProperty", "isPrototypeOf", "propertyIsEnumerable",
    "toString", "valueOf", "toLocaleString"
  }

  /** What `scopeWeights[key]` yields: an own numeric entry, an inherited (truthy, non-numeric)
      property, or `undefined`. */
  datatype WeightEntry = Own(weight: nat) | Inherited | Missing

  function WeightLookup(key: string): WeightEntry {
    if IsScopeName(key) then Own(Weight(key))
    else if key in InheritedKeys then Inherited
    else Missing
  }

  /** `scopeWeight > scopeWeights[maxScope]`: any comparison involving `undefined` or an
      inherited function or object is NaN-valued and so false. */
  predicate AboveAsWritten(scope: WeightEntry, ceiling: WeightEntry) {
    scope.Own? && ceiling.Own? && scope.weight > ceiling.weight
  }

  function ValidatedScopeAsWritten(scope: string, maxScope: string, prNumber: int, prUrl: string): (r: Result<string>)
    ensures r.Ok? ==> r.value == scope
    ensures r.Err? ==> !IsScopeName(scope) || !WithinCeiling(scope, maxScope)
  {
    var w := WeightLookup(scope);
    if w.Missing? then Err(InvalidScope(scope, prNumber, prUrl))
    else if AboveAsWritten(w, WeightLookup(maxScope)) then
      Err(ScopeAboveMaximum(scope, maxScope, prNumber, prUrl))
    else Ok(scope)
  }

  /** The as-written validation accepts "constructor", a name that is no scope at all, where the
      corrected one rejects it; a description holding `#constructor#` reaches it lower-cased. */
  lemma InheritedNameAcceptedAsWritten(maxScope: string, prNumber: int, prUrl: string)
    ensures ValidatedScopeAsWritten("constructor", maxScope, prNumber, prUrl) == Ok("constructor")
    ensures ValidatedScope("constructor", maxScope, prNumber, prUrl) == Err(InvalidScope("constructor", prNumber, prUrl))
  {
    assert "constructor" in InheritedKeys;
  }

  /** Away from the inherited names the two validations agree. */
  lemma AsWrittenAgreesOffInheritedNames(scope: string, maxScope: string, prNumber: int, prUrl: string)
    requires scope !in InheritedKeys
    ensures ValidatedScopeAsWritten(scope, maxScope, prNumber, prUrl) == ValidatedScope(scope, maxScope, prNumber, prUrl)
  {
  }

  // ---------------------------------------------------------------------------------------
  // Scanning for `#word#` tokens.

  /** A token of the form `#` letters `#`. */
  predicate IsScopeToken(t: string) {
    |t| >= 3 && t[0] == '#' && t[|t| - 1] == '#' && forall k :: 0 < k < |t| - 1 ==> IsAsciiLetter(t[k])
  }

  /** The pattern `#[A-Za-z]+#` tried at index `i`: where the match ends, if there is one. A
      `#letters#` starting at `i` is always matched, and matched whole. */
  function ScopeTokenAt(s: string, i: nat): (e: Option<nat>)
    ensures e.Some? ==> i + 3 <= e.value <= |s| && IsScopeToken(s[i..e.value])
    ensures forall end :: i < end <= |s| && IsScopeToken(s[i..end]) ==> e == Some(end)
  {
    if i < |s| && s[i] == '#' then
      var j := RunEnd(s, i + 1, IsAsciiLetter);
      if j > i + 1 && j < |s| && s[j] == '#' then Some(j + 1) else None
    else None
  }

  function ScopeTokensFrom(s: string, i: nat): (ts: seq<string>)
    requires i <= |s|
    ensures forall k :: 0 <= k < |ts| ==> IsScopeToken(ts[k])
    decreases |s| - i
  {
    if i == |s| then []
    else
      match ScopeTokenAt(s, i)
      case Some(e) => [s[i..e]] + ScopeTokensFrom(s, e)
      case None => ScopeTokensFrom(s, i + 1)
  }

  /** All matches of the global pattern `/#[A-Za-z]+#/g`, left to right, without overlap. */
  function ScopeTokens(s: string): seq<string> {
    ScopeTokensFrom(s, 0)
  }

  /** The scan finds nothing exactly when no substring is a `#letters#` token: a token anywhere is
      never skipped by the scan, even though a match can swallow the opening `#` of the next one. */
  lemma {:induction false} NoTokensIffNoneAnywhere(s: string, i: nat)
    requires i <= |s|
    ensures ScopeTokensFrom(s, i) == [] <==> forall j, e :: i <= j < e <= |s| ==> !IsScopeToken(s[j..e])
    decreases |s| - i
  {
    if i < |s| {
      NoTokensIffNoneAnywhere(s, i + 1);
      if ScopeTokenAt(s, i).Some? {
        assert IsScopeToken(s[i..ScopeTokenAt(s, i).value]);
      }
    }
  }

  /** The letters between the hashes of a token. */
  function TokenWord(t: string): string
    requires IsScopeToken(t)
  {
    t[1..|t| - 1]
  }

  // ---------------------------------------------------------------------------------------
  // Scanning for Markdown task-list items: `(-|\*)\s+\[x\].*?#(\w+)#` (checked, case-insensitive)
  // and `(-|\*)\s+\[\s\].*?#(\w+)#` (unchecked).

  /** The list marker, the spaces and the box, tried at `i`: where the box ends. */
  function CheckboxAt(s: string, i: nat, checked: bool): (k: Option<nat>)
    ensures k.Some? ==> i < k.value <= |s|
  {
    if i < |s| && (s[i] == '-' || s[i] == '*') then
      var j := RunEnd(s, i + 1, IsSpace);
      if j > i + 1 && j + 2 < |s| && s[j] == '[' && s[j + 2] == ']'
         && (if checked then s[j + 1] == 'x' || s[j + 1] == 'X' else IsSpace(s[j + 1]))
      then Some(j + 3)
      else None
    else None
  }

  /** `#(\w+)#` tried at `r`: where the match ends. */
  function WordTokenAt(s: string, r: nat): (e: Option<nat>)
    ensures e.Some? ==> r + 3 <= e.value <= |s| && s[r] == '#' && s[e.value - 1] == '#'
                        && forall q :: r < q < e.value - 1 ==> IsWordChar(s[q])
  {
    if r < |s| && s[r] == '#' then
      var j := RunEnd(s, r + 1, IsWordChar);
      if j > r + 1 && j < |s| && s[j] == '#' then Some(j + 1) else None
    else None
  }

  /** `.*?#(\w+)#` from `k`: the first `#word#` reached without crossing a line terminator,
      as the index of its opening `#` and the end of the match. */
  function LazyWordTokenFrom(s: string, k: nat): (m: Option<(nat, nat)>)
    requires k <= |s|
    ensures m.Some? ==> k <= m.value.0 && WordTokenAt(s, m.value.0) == Some(m.value.1)
    ensures m.Some? ==> forall q :: k <= q < m.value.0 ==> !IsLineTerminator(s[q]) && WordTokenAt(s, q).None?
    decreases |s| - k
  {
    if k == |s| then None
    else if WordTokenAt(s, k).Some? then Some((k, WordTokenAt(s, k).value))
    else if IsLineTerminator(s[k]) then None
    else LazyWordTokenFrom(s, k + 1)
  }

  /** A match of a checkbox pattern: the captured word and the index just after the match. */
  datatype BoxMatch = BoxMatch(word: string, end: nat)

  function CheckboxMatchAt(s: string, i: nat, checked: bool): (m: Option<BoxMatch>)
    ensures m.Some? ==> i < m.value.end <= |s| && |m.value.word| >= 1
  {
    match CheckboxAt(s, i, checked)
    case None => None
    case Some(k) =>
      match LazyWordTokenFrom(s, k)
      case None => None
      case Some((r, e)) => Some(BoxMatch(s[r + 1..e - 1], e))
  }

  /** The box character: `x` in either case for a checked box, white space for an unchecked one. */
  predicate BoxMark(c: char, checked: bool) {
    if checked then c == 'x' || c == 'X' else IsSpace(c)
  }

  /** `s[i..end]` has the shape of a checkbox match: a list marker, white space, a box, then
      characters that do not end the line, then the `#word#` that closes the match. */
  predicate IsCheckboxMatch(s: string, i: nat, end: nat, word: string, checked: bool) {
    && i < end <= |s| && |word| >= 1 && i + |word| + 6 <= end
    && (s[i] == '-' || s[i] == '*')
    && s[end - |word| - 2] == '#' && s[end - 1] == '#' && s[end - |word| - 1..end - 1] == word
    && (forall k :: 0 <= k < |word| ==> IsWordChar(word[k]))
    && exists j :: i + 1 < j && j + 3 <= end - |word| - 2 && BoxAt(s, i, j, checked)
                   && (forall q :: j + 3 <= q < end - |word| - 2 ==> !IsLineTerminator(s[q]))
  }

  /** White space from `i + 1` to `j`, then the box `[` mark `]` at `j`. */
  predicate BoxAt(s: string, i: nat, j: nat, checked: bool) {
    i < j && j + 2 < |s| && (forall q :: i < q < j ==> IsSpace(s[q]))
    && s[j] == '[' && s[j + 2] == ']' && BoxMark(s[j + 1], checked)
  }

  /** Every match of a checkbox pattern has the shape the pattern describes: a list marker, white
      space, the box, characters that do not end the line, then the `#word#` that closes it. */
  lemma CheckboxMatchShape(s: string, i: nat, checked: bool)
    requires CheckboxMatchAt(s, i, checked).Some?
    ensures var m := CheckboxMatchAt(s, i, checked).value;
            IsCheckboxMatch(s, i, m.end, m.word, checked)
  {
    var m := CheckboxMatchAt(s, i, checked).value;
    var k := CheckboxAt(s, i, checked).value;
    var j := k - 3;
    var (r, e) := LazyWordTokenFrom(s, k).value;
    assert BoxAt(s, i, j, checked);
    assert r == e - |m.word| - 2;
    forall q | 0 <= q < |m.word| ensures IsWordChar(m.word[q]) {
      assert m.word[q] == s[r + 1 + q];
    }
  }

  function CheckboxWordsFrom(s: string, i: nat, checked: bool): seq<string>
    requires i <= |s|
    decreases |s| - i
  {
    if i == |s| then []
    else
      match CheckboxMatchAt(s, i, checked)
      case Some(m) => [m.word] + CheckboxWordsFrom(s, m.end, checked)
      case None => CheckboxWordsFrom(s, i + 1, checked)
  }

  /** One step of the global match: a match at `i` contributes its word and resumes at its end;
      otherwise the search resumes one character further on. */
  lemma CheckboxWordsStep(s: string, i: nat, checked: bool, m: Option<BoxMatch>)
    requires i < |s| && m == CheckboxMatchAt(s, i, checked)
    ensures m.Some? ==> CheckboxWordsFrom(s, i, checked) == [m.value.word] + CheckboxWordsFrom(s, m.value.end, checked)
    ensures m.None? ==> CheckboxWordsFrom(s, i, checked) == CheckboxWordsFrom(s, i + 1, checked)
  {
  }

  /** The words of the checked task-list items, in order (the global checked pattern's group 2). */
  function CheckedScopes(s: string): seq<string> {
    CheckboxWordsFrom(s, 0, true)
  }

  /** How many matches the global unchecked pattern has. */
  function UncheckedCount(s: string): nat {
    |CheckboxWordsFrom(s, 0, false)|
  }

  /** The `exec` loop over the global checked pattern that collects `selectedScopes`. */
  method CollectCheckedScopes(s: string) returns (selected: seq<string>)
    ensures selected == CheckedScopes(s)
  {
    selected := [];
    var pos := 0;
    while pos < |s|
      invariant pos <= |s|
      invariant selected + CheckboxWordsFrom(s, pos, true) == CheckedScopes(s)
      decreases |s| - pos
    {
      var m := CheckboxMatchAt(s, pos, true);
      CheckboxWordsStep(s, pos, true, m);
      if m.Some? {
        assert selected + CheckboxWordsFrom(s, pos, true)
               == (selected + [m.value.word]) + CheckboxWordsFrom(s, m.value.end, true);
        selected := selected + [m.value.word];
        pos := m.value.end;
      } else {
        pos := pos + 1;
      }
    }
  }

  // ---------------------------------------------------------------------------------------

  /** `throwIfInvalidScope`: with no checked box, a checklist whose unchecked boxes account for
      every token means nothing was ticked; any count of checked boxes other than one is too many. */
  function ThrowIfInvalidScope(tokenCount: nat, uncheckedCount: nat, selected: seq<string>,
                               prNumber: int, prUrl: string): (r: Result<()>)
    ensures r.Ok? <==> |selected| == 1
    ensures |selected| == 0 && 0 < uncheckedCount == tokenCount ==> r == Err(NoScopeFound(prNumber, prUrl, false))
    ensures |selected| != 1 && !(|selected| == 0 && 0 < uncheckedCount == tokenCount) ==>
              r == Err(TooManyScopes(prNumber, prUrl))
  {
    if |selected| == 0 && uncheckedCount > 0 && uncheckedCount == tokenCount then
      Err(NoScopeFound(prNumber, prUrl, false))
    else if |selected| != 1 then Err(TooManyScopes(prNumber, prUrl))
    else Ok(())
  }

  /** `getScopeForPr`. */
  function ScopeForPr(pr: PullRequest, maxScope: string): (r: Result<string>)
    ensures Contains(pr.description, DependabotMarker) ==> r == ValidatedScope("patch", maxScope, pr.number, pr.url)
    ensures r.Ok? ==> IsScopeName(r.value) && WithinCeiling(r.value, maxScope)
    ensures !Contains(pr.description, DependabotMarker) && ScopeTokens(pr.description) == [] ==>
              r == Err(NoScopeFound(pr.number, pr.url, true))
    ensures !Contains(pr.description, DependabotMarker) && |ScopeTokens(pr.description)| == 1 ==>
              r == ValidatedScope(ToLower(TokenWord(ScopeTokens(pr.description)[0])), maxScope, pr.number, pr.url)
    ensures !Contains(pr.description, DependabotMarker) && |ScopeTokens(pr.description)| > 1 ==>
              (r.Ok? ==> |CheckedScopes(pr.description)| == 1 && r.value == ToLower(CheckedScopes(pr.description)[0]))
    ensures !Contains(pr.description, DependabotMarker) && |ScopeTokens(pr.description)| > 1
            && |CheckedScopes(pr.description)| == 1 ==>
              r == ValidatedScope(ToLower(CheckedScopes(pr.description)[0]), maxScope, pr.number, pr.url)
    ensures !Contains(pr.description, DependabotMarker) && |ScopeTokens(pr.description)| > 1
            && |CheckedScopes(pr.description)| != 1 ==>
              r == if |CheckedScopes(pr.description)| == 0
                      && UncheckedCount(pr.description) == |ScopeTokens(pr.description)|
                   then Err(NoScopeFound(pr.number, pr.url, false))
                   else Err(TooManyScopes(pr.number, pr.url))
  {
    var d := pr.description;
    if Contains(d, DependabotMarker) then ValidatedScope("patch", maxScope, pr.number, pr.url)
    else
      var tokens := ScopeTokens(d);
      if |tokens| == 0 then Err(NoScopeFound(pr.number, pr.url, true))
      else if |tokens| > 1 then
        var selected := CheckedScopes(d);
        match ThrowIfInvalidScope(|tokens|, UncheckedCount(d), selected, pr.number, pr.url)
        case Err(e) => Err(e)
        case Ok(_) => ValidatedScope(ToLower(selected[0]), maxScope, pr.number, pr.url)
      else ValidatedScope(ToLower(TokenWord(tokens[0])), maxScope, pr.number, pr.url)
  }

  /** A pattern cannot occur in a string that lacks the pattern's first character. */
  lemma NotContainedWithoutFirstChar(s: string, pat: string)
    requires |pat| > 0 && pat[0] !in s
    ensures !Contains(s, pat)
  {
    forall j | 0 <= j <= |s| ensures !OccursAt(s, pat, j) {
      if j + |pat| <= |s| {
        assert s[j..j + |pat|][0] == s[j];
      }
    }
  }

  /** Outside Dependabot descriptions, a description in which no position starts a `#letters#`
      token always fails with the no-scope error that carries the example and the link,
      whatever checklist syntax it holds. */
  lemma NoHashTokenNoScope(pr: PullRequest, maxScope: string)
    requires !Contains(pr.description, DependabotMarker)
    requires forall j, e :: 0 <= j < e <= |pr.description| ==> !IsScopeToken(pr.description[j..e])
    ensures ScopeForPr(pr, maxScope) == Err(NoScopeFound(pr.number, pr.url, true))
  {
    NoTokensIffNoneAnywhere(pr.description, 0);
  }

  /** A stretch without `#` holds no token start: the scan passes over it. */
  lemma {:induction false} TokensSkipNoHash(s: string, i: nat, j: nat)
    requires i <= j <= |s|
    requires forall q :: i <= q < j ==> s[q] != '#'
    ensures ScopeTokensFrom(s, i) == ScopeTokensFrom(s, j)
    decreases j - i
  {
    if i < j {
      TokensSkipNoHash(s, i + 1, j);
    }
  }

  /** A stretch without a list marker holds no checkbox match: the scan passes over it. */
  lemma BoxesSkipNoMarker(s: string, i: nat, j: nat, checked: bool)
    requires i <= j <= |s|
    requires forall q :: i <= q < j ==> s[q] != '-' && s[q] != '*'
    ensures CheckboxWordsFrom(s, i, checked) == CheckboxWordsFrom(s, j, checked)
  {
    NoMarkerFromAll(s, i, j);
    BoxesSkipMarkerFree(s, i, j, checked);
  }

  /** `s[i..j]` holds no list marker, one position at a time. */
  predicate NoMarkerFrom(s: string, i: nat, j: nat)
    requires i <= j <= |s|
    decreases j - i
  {
    i == j || (s[i] != '-' && s[i] != '*' && NoMarkerFrom(s, i + 1, j))
  }

  lemma {:induction false} NoMarkerFromAll(s: string, i: nat, j: nat)
    requires i <= j <= |s|
    requires forall q :: i <= q < j ==> s[q] != '-' && s[q] != '*'
    ensures NoMarkerFrom(s, i, j)
    decreases j - i
  {
    if i < j {
      NoMarkerFromAll(s, i + 1, j);
    }
  }

  lemma {:induction false} BoxesSkipMarkerFree(s: string, i: nat, j: nat, checked: bool)
    requires i <= j <= |s| && NoMarkerFrom(s, i, j)
    ensures CheckboxWordsFrom(s, i, checked) == CheckboxWordsFrom(s, j, checked)
    decreases j - i
  {
    if i < j {
      NoMarkerNoBox(s, i, checked);
      BoxesSkipMarkerFree(s, i + 1, j, checked);
    }
  }

  /** No box is found at a character other than a list marker. */
  lemma NoMarkerNoBox(s: string, i: nat, checked: bool)
    requires i < |s| && s[i] != '-' && s[i] != '*'
    ensures CheckboxAt(s, i, checked).None?
  {
  }

  /** A character absent from a slice is absent at each of its positions. */
  lemma CharNotIn(s: string, i: nat, j: nat, c: char)
    requires i <= j <= |s| && c !in s[i..j]
    ensures forall q :: i <= q < j ==> s[q] != c
  {
    forall q | i <= q < j ensures s[q] != c {
      assert s[q] == s[i..j][q - i];
    }
  }

  /** `#word#` at `r` is matched by `#(\w+)#` whole, and its group is the word. */
  lemma WordTokenAtIs(s: string, r: nat, w: string)
    requires |w| >= 1 && forall k :: 0 <= k < |w| ==> IsWordChar(w[k])
    requires r + |w| + 2 <= |s| && s[r..r + |w| + 2] == "#" + w + "#"
    ensures WordTokenAt(s, r) == Some(r + |w| + 2) && s[r + 1..r + |w| + 1] == w
  {
    var t := s[r..r + |w| + 2];
    assert s[r] == t[0];
    assert s[r + |w| + 1] == t[|w| + 1];
    forall q | r + 1 <= q < r + |w| + 1 ensures s[q] == w[q - r - 1] {
      assert s[q] == t[q - r];
    }
    assert RunEnd(s, r + 1, IsWordChar) == r + |w| + 1;
    assert s[r + 1..r + |w| + 1] == t[1..|w| + 1];
  }

  /** A list marker, one space and a box at `i`: the box of its own kind is matched, the other
      kind is not. */
  lemma CheckboxAtIs(s: string, i: nat, checked: bool)
    requires i + 5 <= |s| && s[i..i + 5] == (if checked then "- [x]" else "- [ ]")
    ensures CheckboxAt(s, i, checked) == Some(i + 5)
    ensures CheckboxAt(s, i, !checked).None?
  {
    var t := s[i..i + 5];
    assert s[i] == t[0] && s[i + 1] == t[1] && s[i + 2] == t[2] && s[i + 3] == t[3] && s[i + 4] == t[4];
    assert RunEnd(s, i + 1, IsSpace) == i + 2;
  }

  /** `.*?` stops at the first `#word#` when the characters before it neither end the line nor
      are `#`. */
  lemma {:induction false} LazyFindsNext(s: string, k: nat, r: nat, e: nat)
    requires k <= r <= |s| && WordTokenAt(s, r) == Some(e)
    requires forall q :: k <= q < r ==> !IsLineTerminator(s[q]) && s[q] != '#'
    ensures LazyWordTokenFrom(s, k) == Some((r, e))
    decreases r - k
  {
    if k < r {
      LazyFindsNext(s, k + 1, r, e);
    }
  }

  /** A run that stops at a character outside the class ends there. */
  lemma {:induction false} RunEndIs(s: string, i: nat, j: nat, p: char -> bool)
    requires i <= j < |s| && !p(s[j])
    requires forall q :: i <= q < j ==> p(s[q])
    ensures RunEnd(s, i, p) == j
    decreases j - i
  {
    if i < j {
      RunEndIs(s, i + 1, j, p);
    }
  }

  /** `.*?` reaches a `#word#` ahead on the same line, or an earlier one. */
  lemma {:induction false} LazyFindsSome(s: string, k: nat, r: nat)
    requires k <= r <= |s| && WordTokenAt(s, r).Some?
    requires forall q :: k <= q < r ==> !IsLineTerminator(s[q])
    ensures LazyWordTokenFrom(s, k).Some? && LazyWordTokenFrom(s, k).value.1 <= WordTokenAt(s, r).value
    decreases r - k
  {
    if k < r && WordTokenAt(s, k).None? {
      LazyFindsSome(s, k + 1, r);
    }
  }

  /** Conversely, text with the shape of a checkbox match at `i` is matched there, so the global
      scan cannot pass over it; the match found ends no later than the given one. */
  lemma CheckboxShapeMatched(s: string, i: nat, end: nat, word: string, checked: bool)
    requires IsCheckboxMatch(s, i, end, word, checked)
    ensures CheckboxMatchAt(s, i, checked).Some? && CheckboxMatchAt(s, i, checked).value.end <= end
  {
    var r := end - |word| - 2;
    var j :| i + 1 < j && j + 3 <= r && BoxAt(s, i, j, checked)
             && (forall q :: j + 3 <= q < r ==> !IsLineTerminator(s[q]));
    BoxFound(s, i, j, checked);
    ShapeTokenFound(s, end, word);
    PartsMatched(s, i, j + 3, r, end, checked);
  }

  /** A found box followed on the same line by a found `#word#` makes a match. */
  lemma PartsMatched(s: string, i: nat, k: nat, r: nat, end: nat, checked: bool)
    requires CheckboxAt(s, i, checked) == Some(k) && k <= r <= |s| && WordTokenAt(s, r) == Some(end)
    requires forall q :: k <= q < r ==> !IsLineTerminator(s[q])
    ensures CheckboxMatchAt(s, i, checked).Some? && CheckboxMatchAt(s, i, checked).value.end <= end
  {
    LazyFindsSome(s, k, r);
  }

  /** A box after white space is found by the box part of the pattern. */
  lemma BoxFound(s: string, i: nat, j: nat, checked: bool)
    requires BoxAt(s, i, j, checked) && (s[i] == '-' || s[i] == '*') && i + 1 < j
    ensures CheckboxAt(s, i, checked) == Some(j + 3)
  {
    RunEndIs(s, i + 1, j, IsSpace);
  }

  /** A `#word#` ending at `end` is a token match that ends there. */
  lemma ShapeTokenFound(s: string, end: nat, word: string)
    requires |word| >= 1 && |word| + 2 <= end <= |s|
    requires s[end - |word| - 2] == '#' && s[end - 1] == '#' && s[end - |word| - 1..end - 1] == word
    requires forall k :: 0 <= k < |word| ==> IsWordChar(word[k])
    ensures WordTokenAt(s, end - |word| - 2) == Some(end)
  {
    var r := end - |word| - 2;
    forall q | r < q < end - 1 ensures IsWordChar(s[q]) {
      assert s[q] == s[r + 1..end - 1][q - r - 1];
    }
    RunEndIs(s, r + 1, end - 1, IsWordChar);
  }

  /** The layout of a two-item checklist whose first item, `#minor#`, is ticked and whose second,
      `#major#`, is not. */
  predicate TwoItemLayout(d: string) {
    && |d| == 27
    && d[..6] == "- [x] " && d[6..13] == "#minor#" && d[13..20] == "\n- [ ] " && d[20..] == "#major#"
  }

  lemma TwoItemChecklistLayout(d: string)
    requires d == "- [x] #minor#\n- [ ] #major#"
    ensures TwoItemLayout(d) && '<' !in d
  {
    var a, b, c, e := "- [x] ", "#minor#", "\n- [ ] ", "#major#";
    assert d == a + b + c + e;
    assert d[..6] == a && d[6..13] == b && d[13..20] == c && d[20..] == e;
    NoAngleInLayout(d);
  }

  lemma NoAngleInLayout(d: string)
    requires TwoItemLayout(d)
    ensures '<' !in d
  {
    assert d == d[..6] + d[6..13] + d[13..20] + d[20..];
  }

  lemma TwoItemTokens(d: string)
    requires TwoItemLayout(d)
    ensures ScopeTokens(d) == ["#minor#", "#major#"]
  {
    assert d[20..27] == "#major#";
    assert ScopeTokensFrom(d, 20) == ["#major#"];
    CharNotIn(d, 13, 20, '#');
    TokensSkipNoHash(d, 13, 20);
    assert ScopeTokensFrom(d, 6) == ["#minor#", "#major#"];
    assert d[0..6] == d[..6];
    CharNotIn(d, 0, 6, '#');
    TokensSkipNoHash(d, 0, 6);
  }

  lemma TwoItemFirstBox(d: string)
    requires TwoItemLayout(d)
    ensures CheckboxMatchAt(d, 0, true) == Some(BoxMatch("minor", 13))
    ensures CheckboxAt(d, 0, false).None?
  {
    assert d[0..5] == d[..6][..5];
    CheckboxAtIs(d, 0, true);
    WordTokenAtIs(d, 6, "minor");
    assert d[5] == d[..6][5];
    LazyFindsNext(d, 5, 6, 13);
  }

  lemma TwoItemSecondBox(d: string)
    requires TwoItemLayout(d)
    ensures CheckboxMatchAt(d, 14, false) == Some(BoxMatch("major", 27))
    ensures CheckboxAt(d, 14, true).None?
  {
    assert d[14..19] == d[13..20][1..6];
    CheckboxAtIs(d, 14, false);
    assert d[20..27] == d[20..];
    WordTokenAtIs(d, 20, "major");
    assert d[19] == d[13..20][6];
    LazyFindsNext(d, 19, 20, 27);
  }

  /** No list marker after the second item's `-`. */
  lemma TwoItemTail(d: string)
    requires TwoItemLayout(d)
    ensures forall q :: 15 <= q < 27 ==> d[q] != '-' && d[q] != '*'
  {
    assert d[15..20] == d[13..20][2..];
    CharNotIn(d, 15, 20, '-');
    CharNotIn(d, 15, 20, '*');
    assert d[20..27] == d[20..];
    CharNotIn(d, 20, 27, '-');
    CharNotIn(d, 20, 27, '*');
  }

  /** No list marker between the first item's `-` and the second's. */
  lemma TwoItemMiddle(d: string)
    requires TwoItemLayout(d)
    ensures forall q :: 1 <= q < 14 ==> d[q] != '-' && d[q] != '*'
  {
    assert d[1..6] == d[..6][1..];
    CharNotIn(d, 1, 6, '-');
    CharNotIn(d, 1, 6, '*');
    CharNotIn(d, 6, 13, '-');
    CharNotIn(d, 6, 13, '*');
    assert d[13] == d[13..20][0];
  }

  lemma TwoItemChecked(d: string)
    requires TwoItemLayout(d)
    ensures CheckedScopes(d) == ["minor"]
  {
    TwoItemFirstBox(d);
    TwoItemSecondBox(d);
    TwoItemMiddle(d);
    TwoItemTail(d);
    BoxesSkipNoMarker(d, 15, 27, true);
    assert CheckboxWordsFrom(d, 14, true) == CheckboxWordsFrom(d, 15, true) == [];
    BoxesSkipNoMarker(d, 13, 14, true);
    assert CheckboxWordsFrom(d, 0, true) == ["minor"] + CheckboxWordsFrom(d, 13, true);
  }

  lemma TwoItemUnchecked(d: string)
    requires TwoItemLayout(d)
    ensures CheckboxWordsFrom(d, 0, false) == ["major"]
  {
    TwoItemFirstBox(d);
    TwoItemSecondBox(d);
    TwoItemMiddle(d);
    assert CheckboxWordsFrom(d, 27, false) == [];
    assert CheckboxWordsFrom(d, 14, false) == ["major"];
    BoxesSkipNoMarker(d, 1, 14, false);
    assert CheckboxWordsFrom(d, 0, false) == CheckboxWordsFrom(d, 1, false);
  }

  /** A description with two tokens and the single checked item `minor`, outside Dependabot
      pull requests, has scope `minor` under the default ceiling. */
  lemma SingleCheckedMinor(pr: PullRequest)
    requires !Contains(pr.description, DependabotMarker)
    requires |ScopeTokens(pr.description)| == 2 && CheckedScopes(pr.description) == ["minor"]
    ensures ScopeForPr(pr, "major") == Ok("minor")
  {
    var d := pr.description;
    assert ToLower(CheckedScopes(d)[0]) == "minor" by {
      assert ToLower("minor") == "minor";
    }
    assert ValidatedScope("minor", "major", pr.number, pr.url) == Ok("minor");
  }

  /** A two-item checklist with only the first box ticked: two tokens, one checked item, one
      unchecked item, and the ticked item's scope is the pull request's. */
  lemma TickedChecklistExample(pr: PullRequest)
    requires pr.description == "- [x] #minor#\n- [ ] #major#"
    ensures |ScopeTokens(pr.description)| == 2
    ensures CheckedScopes(pr.description) == ["minor"]
    ensures UncheckedCount(pr.description) == 1
    ensures ScopeForPr(pr, "major") == Ok("minor")
  {
    var d := pr.description;
    TwoItemChecklistLayout(d);
    TwoItemTokens(d);
    TwoItemChecked(d);
    TwoItemUnchecked(d);
    NotContainedWithoutFirstChar(d, DependabotMarker);
    SingleCheckedMinor(pr);
  }
}
