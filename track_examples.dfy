/** Title shapes whose normalization is worked out in full, and the two
    worked examples of `__post_init__`. */
module TrackExamples {
  import opened Wrappers
  import opened Text
  import opened Tracks

  /** A song name with no annotation and no surrounding whitespace. */
  predicate PlainSong(s: string) {
    s != [] && s[0] !in Whitespace && s[|s| - 1] !in Whitespace &&
    '(' !in s && '[' !in s && '-' !in s
  }

  /** The text inside a `(feat. …)` clause that `__post_init__` passes on
      whole: no bracket, no second `feat.`, and nothing strippable at its
      ends. */
  predicate FeaturedText(n: string) {
    n != [] && n[0] !in Whitespace + {'(', ')'} && n[|n| - 1] !in Whitespace + {'(', ')'} &&
    '(' !in n && ')' !in n && '[' !in n && '.' !in n
  }

  /** The text before ` Remix` in a dash remix clause that is passed on whole. */
  predicate RemixText(n: string) {
    n != [] && n[0] !in {' ', '-'} && '(' !in n && '[' !in n && 'x' !in n
  }

  /** A single artist name: no separator of the splitting passes. */
  predicate PlainName(n: string) {
    n != [] && n[0] !in Whitespace && n[|n| - 1] !in Whitespace &&
    ',' !in n && '&' !in n && 'x' !in n
  }

  // ---------------------------------------------------------------------
  // "<song> (feat. <text>)"

  lemma FeaturingBounds(song: string, text: string)
    requires PlainSong(song)
    ensures var t := song + " (feat. " + text + ")";
            GreedySearch(t, SearchOpen(FeatParen), FeatParen.close) == Some(Span(|song|, |t|)) &&
            t[|song|..|t|] == " (" + ("feat. " + text) + ")"
  {
    FeatLiterals();
    Regrouped(song, " (feat", ". ", text, ")");
    GreedySearchAround(song, " (feat", ". " + text, ")", 1);
    Regrouped(song, " (", "feat. ", text, ")");
  }

  lemma FeaturingBody(text: string)
    requires FeaturedText(text)
    ensures ReplaceAll(StripChars(" (" + ("feat. " + text) + ")", FeatParen.trim), Marker(FeatParen), "") == text
  {
    FeatBodyLiterals();
    var mid := "feat. " + text;
    assert mid[|mid| - 1] == text[|text| - 1];
    StripCharsAround(" (", mid, ")", FeatParen.trim);
    RemoveLeadingPattern("feat. ", text, 4);
  }

  lemma FeaturingExtracted(song: string, text: string)
    requires PlainSong(song) && FeaturedText(text)
    ensures Extracted(FeatParen, song + " (feat. " + text + ")") == Some(text)
  {
    FeaturingBounds(song, text);
    FeaturingBody(text);
  }

  lemma FeaturingCutBounds(song: string, text: string)
    requires PlainSong(song)
    ensures var t := song + " (feat. " + text + ")";
            MatchAt(t, "(feat", ")", |song| + 1, |t| - 1) &&
            (forall j: nat :: j < |song| + 1 ==> !OccursAt(t, "(feat", j)) &&
            (forall j: nat :: |t| - 1 < j ==> !OccursAt(t, ")", j)) &&
            t[..|song| + 1] + t[|t|..] == song + " "
  {
    var t := song + " (feat. " + text + ")";
    assert " (feat. " == " " + "(feat" + ". ";
    assert t == (song + " ") + "(feat" + (". " + text + ")");
    FirstIndexAfter(song + " ", "(feat", ". " + text + ")", 0);
    assert t == (song + " (feat. " + text) + ")" + "";
    LastIndexBefore(song + " (feat. " + text, ")", "", |song| + 6);
  }

  lemma FeaturingCut(song: string, text: string, artists: seq<string>)
    requires PlainSong(song) && FeaturedText(text)
    ensures ClauseStep(FeatParen, Draft(song + " (feat. " + text + ")", artists)).title == song
  {
    var t := song + " (feat. " + text + ")";
    FeaturingCutBounds(song, text);
    FeaturingStepCutsClause(FeatParen, Draft(t, artists), |song| + 1, |t| - 1);
    StripCharsTrailing(song, " ", Whitespace);
  }

  /** `"<song> (feat. <text>)"` becomes `"<song>"`, and the names in `<text>`
      join the artists. */
  lemma FeaturingClauseMovesArtists(song: string, text: string, artists: seq<string>)
    requires PlainSong(song) && FeaturedText(text)
    ensures Rewrite(song + " (feat. " + text + ")", artists) ==
            Draft(song, AddExtraArtists(artists, text))
  {
    var d0 := Draft(song + " (feat. " + text + ")", artists);
    FeaturingExtracted(song, text);
    FeaturingCut(song, text, artists);
    var d1 := ClauseStep(FeatParen, d0);
    assert d1 == Draft(song, AddExtraArtists(artists, text));
    PlainTitleIsKept(Clauses[1..], d1);
  }

  // ---------------------------------------------------------------------
  // "<song> - <text> Remix"

  lemma RemixBounds(song: string, text: string)
    requires PlainSong(song)
    ensures var t := song + " - " + text + " Remix";
            GreedySearch(t, SearchOpen(RemixDash), RemixDash.close) == Some(Span(|song|, |t|)) &&
            t[|song|..|t|] == " - " + (text + " Remix")
  {
    RemixLiterals();
    GreedySearchAround(song, " - ", text, " Remix", 1);
    TailAfterFirst(song, " - ", text, " Remix");
  }

  lemma RemixBody(text: string)
    requires RemixText(text)
    ensures ReplaceAll(StripChars(" - " + (text + " Remix"), RemixDash.trim), Marker(RemixDash), "") == text
  {
    RemixBodyLiterals();
    StripCharsLeading(" - ", text + " Remix", RemixDash.trim);
    assert text + " Remix" == text + " Remix" + "";
    ReplaceAllAfter(text, " Remix", "", "", 5);
    assert text + "" + "" == text;
  }

  lemma RemixExtracted(song: string, text: string)
    requires PlainSong(song) && RemixText(text)
    ensures Extracted(RemixDash, song + " - " + text + " Remix") == Some(text)
  {
    RemixBounds(song, text);
    RemixBody(text);
  }

  /** The dash remix step on `"<song> - <text> Remix"` adds the names in `<text>`. */
  lemma RemixDashStep(song: string, text: string, artists: seq<string>)
    requires PlainSong(song) && RemixText(text)
    ensures var t := song + " - " + text + " Remix";
            ClauseStep(RemixDash, Draft(t, artists)) == Draft(t, AddExtraArtists(artists, text))
  {
    RemixExtracted(song, text);
  }

  /** The rewriting of a title without brackets, when the dash remix step
      keeps the title: only that step changes anything. */
  lemma BracketFreeDashRemix(d: Draft, d3: Draft)
    requires '(' !in d.title && '[' !in d.title
    requires ClauseStep(RemixDash, d) == d3 && d3.title == d.title
    ensures Rewrite(d.title, d.artists) == d3
  {
    BracketFreeStep(FeatParen, d);
    BracketFreeStep(FeatBracket, d);
    RewriteInTwoStages(d);
    BracketFreeStep(RemixParen, d3);
    BracketFreeStep(RemixBracket, d3);
    assert ApplyClauses([RemixBracket], d3) == d3;
    assert ApplyClauses([RemixParen, RemixBracket], d3) == d3;
    assert [RemixDash, RemixParen, RemixBracket][1..] == [RemixParen, RemixBracket];
  }

  /** `"<song> - <text> Remix"` keeps its title, and the names in `<text>`
      join the artists. */
  lemma RemixClauseAddsArtists(song: string, text: string, artists: seq<string>)
    requires PlainSong(song) && RemixText(text)
    ensures Rewrite(song + " - " + text + " Remix", artists) ==
            Draft(song + " - " + text + " Remix", AddExtraArtists(artists, text))
  {
    var t := song + " - " + text + " Remix";
    RemixTitleBracketFree(song, text);
    RemixDashStep(song, text, artists);
    BracketFreeDashRemix(Draft(t, artists), Draft(t, AddExtraArtists(artists, text)));
  }

  // ---------------------------------------------------------------------
  // Artist texts

  /** A single name is one artist. */
  lemma PlainNameIsOneArtist(n: string)
    requires PlainName(n)
    ensures ExtraArtistNames(n) == [n]
  {
    StripCharsKeeps(n, Whitespace);
    assert Split(n, ", ") == [n] by {
      AbsentPattern(n, ", ", 0);
      SplitWithoutSeparator(n, ", ");
    }
    assert SplitPass([n], " & ") == [n] by {
      AbsentPattern(n, " & ", 1);
      SplitPassOfFreeTokens([n], " & ");
    }
    assert SplitPass([n], " x ") == [n] by {
      AbsentPattern(n, " x ", 1);
      SplitPassOfFreeTokens([n], " x ");
    }
  }

  lemma AmpersandPairSplits(a: string, b: string)
    requires PlainName(a) && PlainName(b)
    ensures Strip(a + " & " + b) == a + " & " + b
    ensures Split(a + " & " + b, ", ") == [a + " & " + b]
    ensures Split(a + " & " + b, " & ") == [a, b]
  {
    var n := a + " & " + b;
    AbsentPattern(n, ", ", 0);
    SplitWithoutSeparator(n, ", ");
    SplitAfter(a, " & ", b, 1);
    AbsentPattern(b, " & ", 1);
    SplitWithoutSeparator(b, " & ");
    StripCharsKeeps(n, Whitespace);
  }

  lemma PairLacksCross(a: string, b: string)
    requires PlainName(a) && PlainName(b)
    ensures SplitPass([a, b], " x ") == [a, b]
  {
    AbsentPattern(a, " x ", 1);
    AbsentPattern(b, " x ", 1);
    SplitPassOfFreeTokens([a, b], " x ");
  }

  /** `"<a> & <b>"` is the two artists `a` and `b`. */
  lemma AmpersandPairIsTwoArtists(a: string, b: string)
    requires PlainName(a) && PlainName(b)
    ensures ExtraArtistNames(a + " & " + b) == [a, b]
  {
    var n := a + " & " + b;
    AmpersandPairSplits(a, b);
    SplitPassOfOne(n, " & ");
    PairLacksCross(a, b);
    ExtraArtistNamesByStages(n, [n], [a, b], [a, b]);
  }

  // ---------------------------------------------------------------------
  // The two worked examples

  /** `"Without Me (feat. A & B)"` by `["Halsey"]` becomes `"Without Me"` by
      `["Halsey", "A", "B"]`. */
  lemma WithoutMeExample(song: string, a: string, b: string)
    requires song == "Without Me" && a == "A" && b == "B"
    ensures Rewrite(song + " (feat. " + (a + " & " + b) + ")", ["Halsey"]) == Draft(song, ["Halsey", a, b])
  {
    WithoutMeParts(song, a, b);
    AmpersandPairIsTwoArtists(a, b);
    FeaturingClauseMovesArtists(song, a + " & " + b, ["Halsey"]);
  }

  /** `"Levitating - Dua Lipa Remix"` by `["Dua Lipa"]` is left as it is. */
  lemma LevitatingExample(song: string, name: string)
    requires song == "Levitating" && name == "Dua Lipa"
    ensures Rewrite(song + " - " + name + " Remix", [name]) == Draft(song + " - " + name + " Remix", [name])
  {
    LevitatingParts(song, name);
    PlainNameIsOneArtist(name);
    assert AddNew([name], [name]) == [name];
    RemixClauseAddsArtists(song, name, [name]);
  }

  // ---------------------------------------------------------------------
  // Normalizing twice

  /** The pieces `p = "(fe"` and `q = "at)"` around `"[feat]"`. */
  predicate NestedPieces(p: string, q: string) {
    p == "(fe" && q == "at)"
  }

  lemma NestedTitleHasNoParenClause(p: string, q: string)
    requires NestedPieces(p, q)
    ensures !Contains(p + "[feat]" + q, "(feat")
  {
    NestedTitleText(p, q);
    NestedTextLacksParenClause(p + "[feat]" + q);
  }

  lemma NestedTitleBracketBounds(p: string, q: string)
    requires NestedPieces(p, q)
    ensures var t := p + "[feat]" + q;
            MatchAt(t, "[feat", "]", |p|, |p| + 5) &&
            (forall j: nat :: j < |p| ==> !OccursAt(t, "[feat", j)) &&
            (forall j: nat :: |p| + 5 < j ==> !OccursAt(t, "]", j)) &&
            t[..|p|] + t[|p| + 6..] == p + q && ' ' !in t
  {
    var t := p + "[feat]" + q;
    assert t == p + "[feat" + ("]" + q);
    FirstIndexAfter(p, "[feat", "]" + q, 0);
    assert t == (p + "[feat") + "]" + q;
    LastIndexBefore(p + "[feat", "]", q, |p| + 5);
    SliceParts(p, "[feat]", q);
  }

  lemma NestedTitleRemainder(p: string, q: string)
    requires NestedPieces(p, q)
    ensures Strip(p + q) == p + q && ' ' !in p + q
  {
    var u := p + q;
    assert |u| == 6 && u[0] == '(' && u[5] == ')';
    assert ' ' !in u by {
      assert ' ' !in p && ' ' !in q;
    }
    StripCharsKeeps(u, Whitespace);
  }

  /** The facts about `"(fe[feat]at)"` in the terms of the clauses. */
  lemma NestedTitleOpenFacts(p: string, q: string)
    requires NestedPieces(p, q)
    ensures var t := p + "[feat]" + q;
            ' ' !in t && !Contains(t, FeatParen.open)
  {
    NestedTitleHasNoParenClause(p, q);
    NestedTitleBracketBounds(p, q);
  }

  lemma NestedTitleSpanFacts(p: string, q: string)
    requires NestedPieces(p, q)
    ensures var t := p + "[feat]" + q;
            MatchAt(t, FeatBracket.open, FeatBracket.close, |p|, |p| + 5) &&
            (forall j: nat :: j < |p| ==> !OccursAt(t, FeatBracket.open, j)) &&
            (forall j: nat :: |p| + 5 < j ==> !OccursAt(t, FeatBracket.close, j))
  {
    NestedTitleBracketBounds(p, q);
  }

  lemma NestedTitleRestFacts(p: string, q: string)
    requires NestedPieces(p, q)
    ensures var t := p + "[feat]" + q;
            Strip(t[..|p|] + t[|p| + 5 + |FeatBracket.close|..]) == p + q && ' ' !in p + q
  {
    NestedTitleBracketBounds(p, q);
    NestedTitleRemainder(p, q);
  }

  /** `"(fe[feat]at)"`: no `(feat` yet; the bracket clause is cut out, which
      leaves `"(feat)"`. */
  lemma NestedClauseFirstPass(p: string, q: string, artists: seq<string>)
    requires NestedPieces(p, q)
    ensures Rewrite(p + "[feat]" + q, artists) == Draft(p + q, artists)
  {
    NestedTitleOpenFacts(p, q);
    NestedTitleSpanFacts(p, q);
    NestedTitleRestFacts(p, q);
    SpaceFreeBracketClauseIsCut(FeatParen, FeatBracket, Draft(p + "[feat]" + q, artists), |p|, |p| + 5);
  }

  /** `"(feat)"` is a whole featuring clause and is cut out entirely. */
  lemma BareClauseIsCut(u: string, artists: seq<string>)
    requires u == "(feat)"
    ensures Rewrite(u, artists).title == ""
  {
    var d0 := Draft(u, artists);
    assert OccursAt(u, "(feat", 0) && OccursAt(u, ")", 5);
    FeaturingStepCutsClause(FeatParen, d0, 0, 5);
    assert u[..0] + u[6..] == "";
    var d1 := ClauseStep(FeatParen, d0);
    AbsentPattern(d1.title, "[feat", 0);
    RewriteTitleIsFeaturingTitle(u, artists);
  }

  /** Normalization is not idempotent: the title it produces from
      `"(fe[feat]at)"` is `"(feat)"`, which is rejected when normalized
      again. */
  lemma NormalizeIsNotIdempotent(p: string, q: string, artists: seq<string>, album: string)
    requires NestedPieces(p, q) && artists != [] && album != ""
    ensures Normalize(p + "[feat]" + q, artists, album) == Ok(Track(p + q, artists, album))
    ensures Normalize(p + q, artists, album) == Err(EmptyTitle)
  {
    NestedClauseFirstPass(p, q, artists);
    assert p + q == "(feat)";
    BareClauseIsCut(p + q, artists);
  }

  // ---------------------------------------------------------------------
  // Literal facts
  //
  // Facts about the literal pieces of the examples above: character
  // memberships, regroupings of concatenations, and the example strings
  // meeting the shape predicates. Each is stated on its own so that every
  // proof obligation that mentions a literal stays small for the solver.

  /** Two ways of grouping the pieces of a title. */
  lemma Regrouped(a: string, x: string, y: string, b: string, c: string)
    ensures a + (x + y) + b + c == a + x + (y + b) + c
    ensures (a + (x + y) + b + c)[|a|..] == x + (y + b) + c
  {
    assert a + (x + y) + b + c == a + (x + (y + b) + c);
  }

  lemma FeatLiterals()
    ensures " (feat. " == " (feat" + ". " && " (feat. " == " (" + "feat. "
    ensures SearchOpen(FeatParen) == " (feat" && FeatParen.close == ")"
    ensures " (feat"[1] == '(' && '(' !in " (feat"[..1]
  {
  }

  lemma FeatBodyLiterals()
    ensures Marker(FeatParen) == "feat. " && FeatParen.trim == {' ', '(', ')'}
    ensures "feat. "[4] == '.' && '.' !in "feat. "[..4] && "feat. "[0] == 'f'
    ensures (forall c :: c in " (" ==> c in FeatParen.trim) && (forall c :: c in ")" ==> c in FeatParen.trim)
  {
  }

  lemma RemixLiterals()
    ensures SearchOpen(RemixDash) == " - " && RemixDash.close == " Remix"
    ensures " - "[1] == '-' && '-' !in " - "[..1]
  {
  }

  /** What follows the first piece of a title. */
  lemma TailAfterFirst(a: string, x: string, b: string, c: string)
    ensures (a + x + b + c)[|a|..] == x + (b + c)
  {
    assert a + x + b + c == a + (x + (b + c));
  }

  lemma RemixBodyLiterals()
    ensures Marker(RemixDash) == " Remix" && RemixDash.trim == {' ', '-'}
    ensures " Remix"[5] == 'x' && 'x' !in " Remix"[..5]
    ensures forall c :: c in " - " ==> c in RemixDash.trim
  {
  }

  /** A remix title built from plain pieces has no bracket. */
  lemma RemixTitleBracketFree(song: string, text: string)
    requires PlainSong(song) && RemixText(text)
    ensures var t := song + " - " + text + " Remix";
            '(' !in t && '[' !in t
  {
  }

  lemma WithoutMeIsPlainSong(song: string)
    requires song == "Without Me"
    ensures PlainSong(song)
  {
  }

  lemma PairIsFeaturedText(a: string, b: string)
    requires a == "A" && b == "B"
    ensures FeaturedText(a + " & " + b)
  {
    PairText(a, b);
    PairTextIsFeaturedText(a + " & " + b);
  }

  lemma PairText(a: string, b: string)
    requires a == "A" && b == "B"
    ensures a + " & " + b == "A & B"
  {
  }

  lemma PairTextIsFeaturedText(n: string)
    requires n == "A & B"
    ensures FeaturedText(n)
  {
  }

  lemma LettersArePlainNames(a: string, b: string)
    requires a == "A" && b == "B"
    ensures PlainName(a) && PlainName(b)
  {
  }

  lemma PairJoinsHalsey(h: string, a: string, b: string)
    requires h == "Halsey" && a == "A" && b == "B"
    ensures AddNew([h], [a, b]) == [h, a, b]
  {
    assert h != a && h != b && a != b;
    assert [a, b][..1] == [a];
    assert AddNew([h], [a]) == [h, a];
  }

  lemma WithoutMeParts(song: string, a: string, b: string)
    requires song == "Without Me" && a == "A" && b == "B"
    ensures PlainSong(song) && FeaturedText(a + " & " + b) && PlainName(a) && PlainName(b)
    ensures AddNew(["Halsey"], [a, b]) == ["Halsey", a, b]
  {
    WithoutMeIsPlainSong(song);
    PairIsFeaturedText(a, b);
    LettersArePlainNames(a, b);
    PairJoinsHalsey("Halsey", a, b);
  }

  lemma LevitatingIsPlainSong(song: string)
    requires song == "Levitating"
    ensures PlainSong(song)
  {
  }

  lemma DuaLipaIsRemixText(name: string)
    requires name == "Dua Lipa"
    ensures RemixText(name)
  {
  }

  lemma DuaLipaIsPlainName(name: string)
    requires name == "Dua Lipa"
    ensures PlainName(name)
  {
  }

  lemma LevitatingParts(song: string, name: string)
    requires song == "Levitating" && name == "Dua Lipa"
    ensures PlainSong(song) && RemixText(name) && PlainName(name)
  {
    LevitatingIsPlainSong(song);
    DuaLipaIsRemixText(name);
    DuaLipaIsPlainName(name);
  }

  lemma NestedTitleText(p: string, q: string)
    requires NestedPieces(p, q)
    ensures p + "[feat]" + q == "(fe[feat]at)"
  {
  }

  lemma NestedTextLacksParenClause(t: string)
    requires t == "(fe[feat]at)"
    ensures !Contains(t, "(feat")
  {
    var rest := t[1..];
    assert '(' !in rest;
    assert t[3] == '[' && "(feat"[3] == 'a';
    forall k: nat ensures !OccursAt(t, "(feat", k) {
      if 0 < k < |t| {
        assert t[k] == rest[k - 1];
      }
    }
  }
}
