/** Template expansion for tag names and release texts: the Markdown links found in a changelog
    (the global pattern `\[([^[]+)\](\([^)]*\))`), the nine `{key}` placeholders and their values,
    and the replacement of the first occurrence of each placeholder, key by key. */
module Expand {
  import opened Text
  import opened Types
  import opened Info

  predicate NotOpenBracket(c: char) { c != '[' }

  predicate NotCloseParen(c: char) { c != ')' }

  /** `\([^)]*\)` tried at `p`: the end of the match. */
  function ParenGroupAt(s: string, p: nat): (e: Option<nat>)
    ensures e.Some? ==> p < e.value <= |s| && s[e.value - 1] == ')'
  {
    if p < |s| && s[p] == '(' then
      var q := RunEnd(s, p + 1, NotCloseParen);
      if q < |s| then Some(q + 1) else None
    else None
  }

  /** The bracketed text ending just before `j` can close at `j`: `\]` then the parenthesised group. */
  predicate ClosesAt(s: string, j: nat) {
    j < |s| && s[j] == ']' && ParenGroupAt(s, j + 1).Some?
  }

  /** Backtracking over the greedy `[^[]+`: the largest `j` in `[lo, hi)` at which the link
      closes, as the end of the whole match. */
  function CloseBefore(s: string, lo: nat, hi: nat): (e: Option<nat>)
    requires hi <= |s|
    ensures e.Some? ==> lo + 2 <= e.value <= |s| && s[e.value - 1] == ')'
    decreases hi
  {
    if hi <= lo then None
    else if ClosesAt(s, hi - 1) then ParenGroupAt(s, hi)
    else CloseBefore(s, lo, hi - 1)
  }

  /** The backtracking finds a closing place exactly when there is one. */
  lemma {:induction false} CloseBeforeFinds(s: string, lo: nat, hi: nat)
    requires hi <= |s|
    ensures CloseBefore(s, lo, hi).Some? <==> exists j :: lo <= j < hi && ClosesAt(s, j)
    decreases hi
  {
    if lo < hi && !ClosesAt(s, hi - 1) {
      CloseBeforeFinds(s, lo, hi - 1);
      assert (exists j :: lo <= j < hi && ClosesAt(s, j)) <==> (exists j :: lo <= j < hi - 1 && ClosesAt(s, j)) by {
        if j :| lo <= j < hi && ClosesAt(s, j) {
          assert j < hi - 1;
        }
      }
    }
  }

  /** What the backtracking finds is the last closing place. */
  lemma {:induction false} CloseBeforeLast(s: string, lo: nat, hi: nat)
    requires hi <= |s|
    requires CloseBefore(s, lo, hi).Some?
    ensures exists j :: lo <= j < hi && ClosesAt(s, j) && CloseBefore(s, lo, hi) == ParenGroupAt(s, j + 1)
              && forall j2 :: j < j2 < hi ==> !ClosesAt(s, j2)
    decreases hi
  {
    if ClosesAt(s, hi - 1) {
      var j := hi - 1;
      assert lo <= j < hi && ClosesAt(s, j) && CloseBefore(s, lo, hi) == ParenGroupAt(s, j + 1);
    } else {
      CloseBeforeLast(s, lo, hi - 1);
      var j :| lo <= j < hi - 1 && ClosesAt(s, j) && CloseBefore(s, lo, hi - 1) == ParenGroupAt(s, j + 1)
               && forall j2 :: j < j2 < hi - 1 ==> !ClosesAt(s, j2);
      assert forall j2 :: j < j2 < hi ==> !ClosesAt(s, j2);
    }
  }

  /** The link pattern tried at `i`: where the match ends. The text between the brackets is at
      least one character and holds no `[`. */
  function LinkAt(s: string, i: nat): (e: Option<nat>)
    ensures e.Some? ==> i + 4 <= e.value <= |s| && s[i] == '[' && s[e.value - 1] == ')'
  {
    if i < |s| && s[i] == '[' then CloseBefore(s, i + 2, RunEnd(s, i + 1, NotOpenBracket))
    else None
  }

  /** A text the link pattern can match: bracketed, then parenthesised. */
  predicate IsLinkText(t: string) {
    |t| >= 4 && t[0] == '[' && t[|t| - 1] == ')'
  }

  function LinksFrom(s: string, i: nat): (links: seq<string>)
    requires i <= |s|
    ensures forall k :: 0 <= k < |links| ==> IsLinkText(links[k])
    decreases |s| - i
  {
    if i == |s| then []
    else
      match LinkAt(s, i)
      case Some(e) =>
        var link := s[i..e];
        assert IsLinkText(link) by {
          assert link[0] == s[i] && link[|link| - 1] == s[e - 1];
        }
        [link] + LinksFrom(s, e)
      case None => LinksFrom(s, i + 1)
  }

  /** `changelog.match(regexMdLinks)`: all links, left to right, without overlap. */
  function MarkdownLinks(s: string): seq<string> {
    LinksFrom(s, 0)
  }

  /** A changelog without `[` has no links. */
  lemma {:induction false} NoBracketNoLinks(s: string, i: nat)
    requires i <= |s|
    requires '[' !in s
    ensures LinksFrom(s, i) == []
    decreases |s| - i
  {
    if i < |s| {
      NoBracketNoLinks(s, i + 1);
    }
  }

  /** Where the parts of `[text](target)` sit. */
  lemma LinkLayout(text: string, target: string, s: string)
    requires s == "[" + text + "](" + target + ")"
    ensures |s| == |text| + |target| + 4
    ensures s[0] == '[' && s[|text| + 1] == ']' && s[|text| + 2] == '(' && s[|s| - 1] == ')'
    ensures forall k :: 1 <= k <= |text| ==> s[k] == text[k - 1]
    ensures forall k :: |text| + 3 <= k < |s| - 1 ==> s[k] == target[k - |text| - 3]
  {
  }

  /** In `[text](target)`, a link closing at or after the `]` that ends `text` takes in
      everything up to the final `)`. */
  lemma CloseInsideTarget(text: string, target: string, s: string, j: nat)
    requires s == "[" + text + "](" + target + ")" && ')' !in target
    requires |text| + 1 <= j && (j == |text| + 1 || ClosesAt(s, j))
    ensures ClosesAt(s, j)
    ensures ParenGroupAt(s, j + 1) == Some(|s|)
  {
    LinkLayout(text, target, s);
  }

  /** The link pattern tried at the start of `[text](target)` matches all of it. */
  lemma MatchesWholeLink(text: string, target: string, s: string)
    requires s == "[" + text + "](" + target + ")"
    requires text != [] && '[' !in text && ')' !in target
    ensures LinkAt(s, 0) == Some(|s|)
  {
    LinkLayout(text, target, s);
    var j := |text| + 1;
    CloseInsideTarget(text, target, s, j);
    var r := RunEnd(s, 1, NotOpenBracket);
    assert j < r;
    CloseBeforeFinds(s, 2, r);
    CloseBeforeLast(s, 2, r);
    var j' :| 2 <= j' < r && ClosesAt(s, j') && LinkAt(s, 0) == ParenGroupAt(s, j' + 1)
              && forall j2 :: j' < j2 < r ==> !ClosesAt(s, j2);
    CloseInsideTarget(text, target, s, j');
  }

  /** A changelog that is exactly one link, `[text](target)` with no `[` in the text and no `)`
      in the target, yields that link. */
  lemma WholeLink(text: string, target: string)
    requires text != [] && '[' !in text && ')' !in target
    ensures MarkdownLinks("[" + text + "](" + target + ")") == ["[" + text + "](" + target + ")"]
  {
    var s := "[" + text + "](" + target + ")";
    MatchesWholeLink(text, target, s);
    assert s[0..|s|] == s;
    assert LinksFrom(s, |s|) == [];
    assert LinksFrom(s, 0) == [s[0..|s|]] + LinksFrom(s, |s|);
  }

  /** The `{links}` value: the links joined with `, `, or the empty string when there are none. */
  function LinksValue(changelog: string): string {
    Join(MarkdownLinks(changelog), ", ")
  }

  /** The placeholders and their values, in the order `expandVariables` applies them. */
  function Replacements(info: PrInfo, date: string): (r: seq<(string, string)>)
    ensures |r| == 9
  {
    [("{changelog}", info.changelog),
     ("{date}", date),
     ("{links}", LinksValue(info.changelog)),
     ("{pr.number}", IntToString(info.number)),
     ("{pr.url}", info.url),
     ("{pr.user.login}", Show(info.author)),
     ("{pr.user.url}", Show(info.authorUrl)),
     ("{scope}", info.scope),
     ("{version}", Show(info.version))]
  }

  /** Applying the replacements in order, each to the first occurrence of its placeholder in the
      text produced so far. */
  function ExpandAll(src: string, pairs: seq<(string, string)>): string
    decreases |pairs|
  {
    if pairs == [] then src
    else ExpandAll(ReplaceFirst(src, pairs[0].0, pairs[0].1), pairs[1..])
  }

  /** Expanding a prefix of the replacements and then one more is expanding the longer prefix. */
  lemma {:induction false} ExpandAllSnoc(src: string, pairs: seq<(string, string)>, k: nat)
    requires k < |pairs|
    ensures ExpandAll(src, pairs[..k + 1]) == ReplaceFirst(ExpandAll(src, pairs[..k]), pairs[k].0, pairs[k].1)
    decreases k
  {
    if k > 0 {
      var next := ReplaceFirst(src, pairs[0].0, pairs[0].1);
      assert pairs[..k + 1][1..] == pairs[1..][..k];
      assert pairs[..k][1..] == pairs[1..][..k - 1];
      ExpandAllSnoc(next, pairs[1..], k - 1);
    }
  }

  /** A text without `{` holds no placeholder: expansion leaves it as it is. */
  lemma {:induction false} ExpandWithoutBraces(src: string, pairs: seq<(string, string)>)
    requires '{' !in src
    requires forall k :: 0 <= k < |pairs| ==> |pairs[k].0| > 0 && pairs[k].0[0] == '{'
    ensures ExpandAll(src, pairs) == src
    decreases |pairs|
  {
    if pairs != [] {
      var key := pairs[0].0;
      forall j | 0 <= j <= |src| ensures !OccursAt(src, key, j) {
        if j + |key| <= |src| {
          assert src[j..j + |key|][0] == src[j];
        }
      }
      ExpandWithoutBraces(src, pairs[1..]);
    }
  }

  /** A placeholder-free template comes out of expansion unchanged. */
  lemma PlainTemplateUnchanged(src: string, info: PrInfo, date: string)
    requires '{' !in src
    ensures ExpandAll(src, Replacements(info, date)) == src
  {
    ExpandWithoutBraces(src, Replacements(info, date));
  }

  /** A text whose only `{` is at `n`, followed by a character other than the placeholder's
      second one, holds no occurrence of that placeholder. */
  lemma KeyAbsent(src: string, key: string, n: nat)
    requires |key| >= 2 && key[0] == '{'
    requires n + 1 < |src| && src[n + 1] != key[1]
    requires forall j :: 0 <= j < |src| && src[j] == '{' ==> j == n
    ensures !Contains(src, key)
  {
    forall j | 0 <= j <= |src| ensures !OccursAt(src, key, j) {
      if j + |key| <= |src| {
        assert src[j..j + |key|][0] == src[j];
        assert src[j..j + |key|][1] == src[j + 1];
      }
    }
  }

  /** Replacements whose placeholders do not occur leave the text as it is. */
  lemma {:induction false} ExpandAbsent(src: string, pairs: seq<(string, string)>)
    requires forall k :: 0 <= k < |pairs| ==> !Contains(src, pairs[k].0)
    ensures ExpandAll(src, pairs) == src
    decreases |pairs|
  {
    if pairs != [] {
      assert ReplaceFirst(src, pairs[0].0, pairs[0].1) == src;
      ExpandAbsent(src, pairs[1..]);
    }
  }

  /** In `a + "{version}" + b` with no `{` in `a` or `b`, the only `{` is the placeholder's, and
      that placeholder is the first occurrence of `{version}`. */
  lemma SingleBrace(a: string, b: string)
    requires '{' !in a && '{' !in b
    ensures forall j :: 0 <= j < |a + "{version}" + b| && (a + "{version}" + b)[j] == '{' ==> j == |a|
    ensures IndexOf(a + "{version}" + b, "{version}") == |a|
  {
    var src := a + "{version}" + b;
    var n := |a|;
    forall j | 0 <= j < |src| ensures src[j] == '{' ==> j == n {
      if j < n {
        assert src[j] == a[j];
      } else if j >= n + 9 {
        assert src[j] == b[j - n - 9];
      }
    }
    assert src[n..n + 9] == "{version}";
    forall j | 0 <= j < n ensures !OccursAt(src, "{version}", j) {
      assert src[j] == a[j];
      if j + 9 <= |src| {
        assert src[j..j + 9][0] == src[j];
      }
    }
    IndexOfIs(src, "{version}", n);
  }

  /** A template whose only placeholder is one `{version}` gets the version in its place, and
      the text around it is kept. */
  lemma VersionOnlyTemplate(a: string, b: string, info: PrInfo, date: string)
    requires '{' !in a && '{' !in b
    ensures ExpandAll(a + "{version}" + b, Replacements(info, date)) == a + Show(info.version) + b
  {
    var src := a + "{version}" + b;
    var pairs := Replacements(info, date);
    var n := |a|;
    SingleBrace(a, b);
    assert src[n + 1] == 'v';
    forall k | 0 <= k < 8 ensures !Contains(src, pairs[..8][k].0) {
      KeyAbsent(src, pairs[k].0, n);
    }
    ExpandAbsent(src, pairs[..8]);
    ExpandAllSnoc(src, pairs, 8);
    assert pairs[..9] == pairs;
    assert src[..n] == a && src[n + 9..] == b;
  }
}
