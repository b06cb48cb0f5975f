/** The pieces of Python's `str` methods and of its `re` module that the
    program relies on, written out as concrete searches over character
    sequences: `in`, `startswith`, `strip`, `split`, `replace`, and the
    search and removal of the fixed patterns `<open>.*<close>`.
    Titles are assumed to hold no newline, so `.` matches every character. */
module Text {
  import opened Wrappers

  /** `pat` occurs in `s` at index `i`. */
  predicate OccursAt(s: string, pat: string, i: nat) {
    i + |pat| <= |s| && s[i..i + |pat|] == pat
  }

  /** Python's `pat in s`. */
  predicate Contains(s: string, pat: string) {
    exists i: nat :: i <= |s| && OccursAt(s, pat, i)
  }

  /** Python's `s.startswith(p)`. */
  predicate StartsWith(s: string, p: string) {
    |p| <= |s| && s[..|p|] == p
  }

  /** The first index at or after `from` where `pat` occurs. */
  function IndexFrom(s: string, pat: string, from: nat): (r: Option<nat>)
    decreases |s| - from
    ensures r.Some? ==> from <= r.value && OccursAt(s, pat, r.value)
    ensures r.Some? ==> forall k: nat :: from <= k < r.value ==> !OccursAt(s, pat, k)
    ensures r.None? ==> forall k: nat :: from <= k ==> !OccursAt(s, pat, k)
  {
    if |s| < from + |pat| then None
    else if OccursAt(s, pat, from) then Some(from)
    else IndexFrom(s, pat, from + 1)
  }

  /** Python's `s.find(pat)`, with `None` for -1. */
  function FirstIndexOf(s: string, pat: string): Option<nat> {
    IndexFrom(s, pat, 0)
  }

  /** The last index `k` with `from <= k < end` where `pat` occurs. */
  function LastBefore(s: string, pat: string, from: nat, end: nat): (r: Option<nat>)
    decreases end
    ensures r.Some? ==> from <= r.value < end && OccursAt(s, pat, r.value)
    ensures r.Some? ==> forall k: nat :: r.value < k < end ==> !OccursAt(s, pat, k)
    ensures r.None? ==> forall k: nat :: from <= k < end ==> !OccursAt(s, pat, k)
  {
    if end <= from then None
    else if OccursAt(s, pat, end - 1) then Some(end - 1)
    else LastBefore(s, pat, from, end - 1)
  }

  /** The last index at or after `from` where `pat` occurs. */
  function LastIndexFrom(s: string, pat: string, from: nat): (r: Option<nat>)
    ensures r.Some? ==> from <= r.value && OccursAt(s, pat, r.value)
    ensures r.Some? ==> forall k: nat :: r.value < k ==> !OccursAt(s, pat, k)
    ensures r.None? ==> forall k: nat :: from <= k ==> !OccursAt(s, pat, k)
  {
    LastBefore(s, pat, from, |s| + 1)
  }

  lemma ContainsIffFound(s: string, pat: string)
    ensures Contains(s, pat) <==> FirstIndexOf(s, pat).Some?
  {
    if FirstIndexOf(s, pat).Some? {
      var i := FirstIndexOf(s, pat).value;
      assert i <= |s| && OccursAt(s, pat, i);
    }
  }

  // ---------------------------------------------------------------------
  // Regular-expression search `<open>.*<close>`

  /** The half-open index range `[start, end)` of a match. */
  datatype Span = Span(start: nat, end: nat)

  /** `open` occurs at `i` and `close` occurs at `k`, after the end of `open`:
      the pattern `<open>.*<close>` matches `s[i..k + |close|]`. */
  predicate MatchAt(s: string, open: string, close: string, i: nat, k: nat) {
    OccursAt(s, open, i) && i + |open| <= k && OccursAt(s, close, k)
  }

  /** Python's `re.search(open + ".*" + close, s)` for literal `open` and
      `close`: the leftmost start, and from there the greedy `.*` runs to the
      last `close`. The leftmost start is the first `open` overall, because an
      `open` with no `close` after it leaves none after any later `open`. */
  function GreedySearch(s: string, open: string, close: string): (r: Option<Span>)
    ensures r.Some? ==> r.value.start + |open| + |close| <= r.value.end <= |s|
  {
    match FirstIndexOf(s, open)
    case None => None
    case Some(i) =>
      match LastIndexFrom(s, close, i + |open|)
      case None => None
      case Some(k) => Some(Span(i, k + |close|))
  }

  /** The search finds a match exactly when the pattern matches somewhere,
      and the match it finds spans every other match: it runs from the first
      opener to the last closer. */
  lemma GreedySearchIsLeftmostLongest(s: string, open: string, close: string)
    ensures GreedySearch(s, open, close).Some? <==>
              exists i: nat, k: nat :: MatchAt(s, open, close, i, k)
    ensures GreedySearch(s, open, close).Some? ==>
              var sp := GreedySearch(s, open, close).value;
              MatchAt(s, open, close, sp.start, sp.end - |close|) &&
              forall i: nat, k: nat :: MatchAt(s, open, close, i, k) ==>
                sp.start <= i && k + |close| <= sp.end
  {
    match FirstIndexOf(s, open)
    case None =>
    case Some(i) =>
      match LastIndexFrom(s, close, i + |open|)
      case None =>
      case Some(k) =>
        assert MatchAt(s, open, close, i, k);
  }

  /** Python's `re.sub(open + ".*" + close, "", s)`. A greedy match leaves no
      `close` behind it, so at most one match is removed (see
      `SubstitutionRemovesOneMatch`). */
  function RemoveMatch(s: string, open: string, close: string): string {
    match GreedySearch(s, open, close)
    case None => s
    case Some(sp) => s[..sp.start] + s[sp.end..]
  }

  /** After the greedy match, the rest of the text matches no more. */
  lemma SubstitutionRemovesOneMatch(s: string, open: string, close: string)
    requires |close| > 0
    requires GreedySearch(s, open, close).Some?
    ensures GreedySearch(s[GreedySearch(s, open, close).value.end..], open, close).None?
  {
    var sp := GreedySearch(s, open, close).value;
    var rest := s[sp.end..];
    GreedySearchIsLeftmostLongest(s, open, close);
    GreedySearchIsLeftmostLongest(rest, open, close);
    forall i: nat, k: nat ensures !MatchAt(rest, open, close, i, k) {
      OccursInSuffix(s, close, sp.end, k);
    }
  }

  /** An occurrence in a suffix is one in the whole text, shifted. */
  lemma OccursInSuffix(s: string, pat: string, e: nat, k: nat)
    requires e <= |s|
    ensures OccursAt(s[e..], pat, k) ==> OccursAt(s, pat, e + k)
  {
    if OccursAt(s[e..], pat, k) {
      assert s[e + k..e + k + |pat|] == s[e..][k..k + |pat|];
    }
  }

  /** An occurrence in a prefix is one in the whole text. */
  lemma OccursInPrefix(s: string, pat: string, n: nat, k: nat)
    requires n <= |s|
    ensures OccursAt(s[..n], pat, k) ==> OccursAt(s, pat, k)
  {
    if OccursAt(s[..n], pat, k) {
      assert s[k..k + |pat|] == s[..n][k..k + |pat|];
    }
  }

  // ---------------------------------------------------------------------
  // strip

  /** The characters for which Python's `str.isspace()` holds. */
  const Whitespace: set<char> := {
    '\t', '\n', '\U{000B}', '\U{000C}', '\r', '\U{001C}', '\U{001D}', '\U{001E}',
    '\U{001F}', ' ', '\U{0085}', '\U{00A0}', '\U{1680}', '\U{2000}', '\U{2001}',
    '\U{2002}', '\U{2003}', '\U{2004}', '\U{2005}', '\U{2006}', '\U{2007}',
    '\U{2008}', '\U{2009}', '\U{200A}', '\U{2028}', '\U{2029}', '\U{202F}',
    '\U{205F}', '\U{3000}'
  }

  /** `s` without its longest prefix of characters from `cs`. */
  function TrimStart(s: string, cs: set<char>): (r: string)
    ensures |r| <= |s| && r == s[|s| - |r|..]
    ensures r == [] || r[0] !in cs
    ensures forall i :: 0 <= i < |s| - |r| ==> s[i] in cs
  {
    if s != [] && s[0] in cs then TrimStart(s[1..], cs) else s
  }

  /** `s` without its longest suffix of characters from `cs`. */
  function TrimEnd(s: string, cs: set<char>): (r: string)
    ensures |r| <= |s| && r == s[..|r|]
    ensures r == [] || r[|r| - 1] !in cs
    ensures forall i :: |r| <= i < |s| ==> s[i] in cs
  {
    if s != [] && s[|s| - 1] in cs then TrimEnd(s[..|s| - 1], cs) else s
  }

  /** Python's `s.strip(chars)`: `chars` is a set of characters, not a prefix. */
  function StripChars(s: string, cs: set<char>): string {
    TrimEnd(TrimStart(s, cs), cs)
  }

  /** The result of `strip` is a contiguous part of `s` that neither starts
      nor ends with a stripped character, and only such characters were cut. */
  lemma StripCharsMeaning(s: string, cs: set<char>)
    ensures var r := StripChars(s, cs);
            exists a: nat, b: nat :: a <= b <= |s| && r == s[a..b] &&
              (forall i :: 0 <= i < a ==> s[i] in cs) &&
              (forall i :: b <= i < |s| ==> s[i] in cs) &&
              (r == [] || (r[0] !in cs && r[|r| - 1] !in cs))
  {
    var a := |s| - |TrimStart(s, cs)|;
    StripCharsAt(s, cs);
    assert a <= a + |StripChars(s, cs)| <= |s|;
  }

  /** Where the result of `strip` lies in `s`: after the characters
      `TrimStart` cuts. */
  lemma StripCharsAt(s: string, cs: set<char>)
    ensures var a, r := |s| - |TrimStart(s, cs)|, StripChars(s, cs);
            a + |r| <= |s| && r == s[a..a + |r|] &&
            (forall i :: 0 <= i < a ==> s[i] in cs) &&
            (forall i :: a + |r| <= i < |s| ==> s[i] in cs) &&
            (r == [] || (r[0] !in cs && r[|r| - 1] !in cs))
  {
    var t := TrimStart(s, cs);
    var r := TrimEnd(t, cs);
    var a := |s| - |t|;
    assert r == s[a..a + |r|];
    forall i | a + |r| <= i < |s| ensures s[i] in cs {
      assert s[i] == t[i - a];
    }
  }

  /** Python's `s.strip()`. */
  function Strip(s: string): string {
    StripChars(s, Whitespace)
  }

  // ---------------------------------------------------------------------
  // split, join, replace

  /** Python's `s.split(sep)` for a non-empty separator. */
  function Split(s: string, sep: string): (r: seq<string>)
    requires |sep| > 0
    decreases |s|
    ensures |r| >= 1
  {
    match FirstIndexOf(s, sep)
    case None => [s]
    case Some(i) => [s[..i]] + Split(s[i + |sep|..], sep)
  }

  /** Python's `sep.join(parts)`. */
  function Join(parts: seq<string>, sep: string): string {
    if |parts| == 0 then ""
    else if |parts| == 1 then parts[0]
    else parts[0] + sep + Join(parts[1..], sep)
  }

  /** Python's `s.replace(pat, rep)` for a non-empty `pat`: occurrences are
      replaced left to right without overlapping. */
  function ReplaceAll(s: string, pat: string, rep: string): string
    requires |pat| > 0
    decreases |s|
  {
    match FirstIndexOf(s, pat)
    case None => s
    case Some(i) => s[..i] + rep + ReplaceAll(s[i + |pat|..], pat, rep)
  }

  /** Joining the pieces of a split with the separator gives back the text. */
  lemma {:induction false} JoinSplit(s: string, sep: string)
    requires |sep| > 0
    decreases |s|
    ensures Join(Split(s, sep), sep) == s
  {
    match FirstIndexOf(s, sep)
    case None =>
    case Some(i) =>
      var rest := s[i + |sep|..];
      JoinSplit(rest, sep);
      OccurrenceSplits(s, sep, i);
  }

  /** `replace` is `join` of `split`: `s.replace(p, r) == r.join(s.split(p))`. */
  lemma {:induction false} ReplaceAllIsJoinOfSplit(s: string, pat: string, rep: string)
    requires |pat| > 0
    decreases |s|
    ensures ReplaceAll(s, pat, rep) == Join(Split(s, pat), rep)
  {
    match FirstIndexOf(s, pat)
    case None =>
    case Some(i) =>
      ReplaceAllIsJoinOfSplit(s[i + |pat|..], pat, rep);
  }

  /** A text without the separator splits into itself alone. */
  lemma SplitWithoutSeparator(s: string, sep: string)
    requires |sep| > 0 && !Contains(s, sep)
    ensures Split(s, sep) == [s]
  {
    ContainsIffFound(s, sep);
  }

  /** A text without the pattern is left as it is by `replace`. */
  lemma ReplaceAllWithoutPattern(s: string, pat: string, rep: string)
    requires |pat| > 0 && !Contains(s, pat)
    ensures ReplaceAll(s, pat, rep) == s
  {
    ContainsIffFound(s, pat);
  }

  /** No piece of a split contains the separator. */
  lemma {:induction false} SplitPiecesLackSeparator(s: string, sep: string)
    requires |sep| > 0
    decreases |s|
    ensures forall p :: p in Split(s, sep) ==> !Contains(p, sep)
  {
    match FirstIndexOf(s, sep)
    case None =>
      ContainsIffFound(s, sep);
    case Some(i) =>
      SplitPiecesLackSeparator(s[i + |sep|..], sep);
      var head := s[..i];
      forall k: nat | k <= |head| ensures !OccursAt(head, sep, k) {
        OccursInPrefix(s, sep, i, k);
      }
  }

  /** The first piece of a split by a one-character separator lacks it. */
  lemma FirstPieceLacksChar(s: string, c: char)
    ensures c !in Split(s, [c])[0]
  {
    SplitPiecesLackSeparator(s, [c]);
    var p := Split(s, [c])[0];
    assert p in Split(s, [c]);
    if c in p {
      var i :| 0 <= i < |p| && p[i] == c;
      assert p[i..i + 1] == [c];
      assert OccursAt(p, [c], i);
    }
  }
  // ---------------------------------------------------------------------
  // Evaluation aids: the results of the searches on texts of known shape

  lemma FirstIndexIs(s: string, pat: string, i: nat)
    requires OccursAt(s, pat, i)
    requires forall k: nat :: k < i ==> !OccursAt(s, pat, k)
    ensures FirstIndexOf(s, pat) == Some(i) && Contains(s, pat)
  {
    assert i <= |s|;
  }

  lemma LastIndexIs(s: string, pat: string, from: nat, k: nat)
    requires from <= k && OccursAt(s, pat, k)
    requires forall j: nat :: k < j ==> !OccursAt(s, pat, j)
    ensures LastIndexFrom(s, pat, from) == Some(k)
  {
  }

  /** In `pre + pat + rest`, the first `pat` is the one after `pre` when
      some character `pat[j]` occurs neither in `pre` nor in `pat` before
      index `j`: no earlier start could line it up. */
  lemma FirstIndexAfter(pre: string, pat: string, rest: string, j: nat)
    requires j < |pat| && pat[j] !in pre && pat[j] !in pat[..j]
    ensures FirstIndexOf(pre + pat + rest, pat) == Some(|pre|)
  {
    var s := pre + pat + rest;
    SliceParts(pre, pat, rest);
    forall k: nat | k < |pre| ensures !OccursAt(s, pat, k) {
      if k + |pat| <= |s| {
        assert s[k..k + |pat|][j] == s[k + j];
        if k + j < |pre| {
          assert s[k + j] == pre[k + j];
        } else {
          assert s[k + j] == pat[..j][k + j - |pre|];
        }
      }
    }
    FirstIndexIs(s, pat, |pre|);
  }

  /** In `pre + pat + post`, the last `pat` is the one after `pre` when the
      last character of `pat` does not occur in `post`. */
  lemma LastIndexBefore(pre: string, pat: string, post: string, from: nat)
    requires from <= |pre| && |pat| > 0 && pat[|pat| - 1] !in post
    ensures LastIndexFrom(pre + pat + post, pat, from) == Some(|pre|)
  {
    var s := pre + pat + post;
    SliceParts(pre, pat, post);
    forall k: nat | |pre| < k ensures !OccursAt(s, pat, k) {
      if k + |pat| <= |s| {
        assert s[k..k + |pat|][|pat| - 1] == s[k + |pat| - 1];
        assert s[k + |pat| - 1] == post[k + |pat| - 1 - |pre| - |pat|];
      }
    }
    LastIndexIs(s, pat, from, |pre|);
  }

  /** A text lacking one of the pattern's characters does not contain it. */
  lemma AbsentPattern(s: string, pat: string, j: nat)
    requires j < |pat| && pat[j] !in s
    ensures forall k: nat :: !OccursAt(s, pat, k)
    ensures FirstIndexOf(s, pat).None? && !Contains(s, pat)
  {
    forall k: nat ensures !OccursAt(s, pat, k) {
      if k + |pat| <= |s| {
        assert s[k..k + |pat|][j] == s[k + j];
      }
    }
  }

  /** The greedy search over `pre + open + mid + close`, when `open` first
      occurs right after `pre`, runs from there to the end of the text. */
  lemma GreedySearchAround(pre: string, open: string, mid: string, close: string, j: nat)
    requires j < |open| && open[j] !in pre && open[j] !in open[..j] && |close| > 0
    ensures GreedySearch(pre + open + mid + close, open, close) ==
            Some(Span(|pre|, |pre| + |open| + |mid| + |close|))
  {
    var s := pre + open + mid + close;
    var u := pre + open + mid;
    assert s == pre + open + (mid + close);
    FirstIndexAfter(pre, open, mid + close, j);
    assert FirstIndexOf(s, open) == Some(|pre|);
    assert s == u + close + "";
    LastIndexBefore(u, close, "", |pre| + |open|);
    assert LastIndexFrom(s, close, |pre| + |open|) == Some(|u|);
  }

  lemma OccurrenceSplits(s: string, pat: string, i: nat)
    requires OccursAt(s, pat, i)
    ensures s == s[..i] + pat + s[i + |pat|..]
  {
    assert s == s[..i] + s[i..i + |pat|] + s[i + |pat|..];
  }

  /** The three parts of a concatenation, recovered by slicing. */
  lemma SliceParts(a: string, b: string, c: string)
    ensures var s := a + b + c;
            s[..|a|] == a && s[|a|..|a| + |b|] == b && s[|a| + |b|..] == c
  {
  }

  /** Splitting where the first occurrence of the separator follows `a`, as
      `FirstIndexAfter` locates it. */
  lemma SplitAfter(a: string, sep: string, b: string, j: nat)
    requires j < |sep| && sep[j] !in a && sep[j] !in sep[..j]
    ensures Split(a + sep + b, sep) == [a] + Split(b, sep)
  {
    FirstIndexAfter(a, sep, b, j);
    SliceParts(a, sep, b);
  }

  /** Replacing where the first occurrence of the pattern follows `a`, as
      `FirstIndexAfter` locates it. */
  lemma ReplaceAllAfter(a: string, pat: string, b: string, rep: string, j: nat)
    requires j < |pat| && pat[j] !in a && pat[j] !in pat[..j]
    ensures ReplaceAll(a + pat + b, pat, rep) == a + rep + ReplaceAll(b, pat, rep)
  {
    FirstIndexAfter(a, pat, b, j);
    SliceParts(a, pat, b);
  }

  /** Removing a pattern from a text that is the pattern followed by a rest
      without one of the pattern's characters leaves the rest. */
  lemma RemoveLeadingPattern(pat: string, rest: string, j: nat)
    requires j < |pat| && pat[j] !in pat[..j] && pat[j] !in rest
    ensures ReplaceAll(pat + rest, pat, "") == rest
  {
    ReplaceAllAfter("", pat, rest, "", j);
    assert "" + pat + rest == pat + rest;
    AbsentPattern(rest, pat, j);
    ReplaceAllWithoutPattern(rest, pat, "");
  }

  /** A text that neither starts nor ends with a stripped character is kept. */
  lemma StripCharsKeeps(s: string, cs: set<char>)
    requires s == [] || (s[0] !in cs && s[|s| - 1] !in cs)
    ensures StripChars(s, cs) == s
  {
  }

  /** A text with stripped characters after a kept part strips to that part. */
  lemma StripCharsTrailing(s: string, post: string, cs: set<char>)
    requires forall c :: c in post ==> c in cs
    requires s != [] && s[0] !in cs && s[|s| - 1] !in cs
    ensures StripChars(s + post, cs) == s
  {
    TrimEndSuffix(s, post, cs);
  }

  /** A text with stripped characters before a kept part strips to that part. */
  lemma StripCharsLeading(pre: string, s: string, cs: set<char>)
    requires forall c :: c in pre ==> c in cs
    requires s != [] && s[0] !in cs && s[|s| - 1] !in cs
    ensures StripChars(pre + s, cs) == s
  {
    TrimStartPrefix(pre, s, cs);
  }

  /** Stripping a text made of stripped characters around a kept middle. */
  lemma StripCharsAround(pre: string, mid: string, post: string, cs: set<char>)
    requires forall c :: c in pre ==> c in cs
    requires forall c :: c in post ==> c in cs
    requires mid != [] && mid[0] !in cs && mid[|mid| - 1] !in cs
    ensures StripChars(pre + mid + post, cs) == mid
  {
    TrimStartPrefix(pre, mid + post, cs);
    assert pre + mid + post == pre + (mid + post);
    TrimEndSuffix(mid, post, cs);
  }

  lemma {:induction false} TrimStartPrefix(pre: string, rest: string, cs: set<char>)
    requires forall c :: c in pre ==> c in cs
    requires rest != [] && rest[0] !in cs
    ensures TrimStart(pre + rest, cs) == rest
  {
    if pre == [] {
      assert pre + rest == rest;
    } else {
      assert (pre + rest)[1..] == pre[1..] + rest;
      assert pre[0] in pre;
      TrimStartPrefix(pre[1..], rest, cs);
    }
  }

  lemma {:induction false} TrimEndSuffix(rest: string, post: string, cs: set<char>)
    requires forall c :: c in post ==> c in cs
    requires rest != [] && rest[|rest| - 1] !in cs
    ensures TrimEnd(rest + post, cs) == rest
  {
    if post == [] {
      assert rest + post == rest;
    } else {
      var init := post[..|post| - 1];
      assert (rest + post)[..|rest + post| - 1] == rest + init;
      assert post[|post| - 1] in post;
      TrimEndSuffix(rest, init, cs);
    }
  }
}
