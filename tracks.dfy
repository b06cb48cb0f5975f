/** Track normalization and validation (track.py): the rewriting of a title
    by `BaseTrack.__post_init__`, which folds featured and remix artists
    from the title into the artist list, the artist splitting of
    `_split_and_add_extra_artists`, and the two `from_response` constructors. */
module Tracks {
  import opened Wrappers
  import opened Text

  /** A track record: a source track, or the track part of a search result. */
  datatype Track = Track(title: string, artists: seq<string>, album: string)

  /** The `ValueError`s raised at the end of `__post_init__`. */
  datatype ValidationError = EmptyTitle | EmptyAlbum | EmptyArtists

  /** The title and artist list while `__post_init__` rewrites them. */
  datatype Draft = Draft(title: string, artists: seq<string>)

  /** One of the title annotations `__post_init__` looks for, in the form
      `<open>.*<close>`. A featuring clause is searched with a space before
      `open`, its text after `strip(trim)` loses every `"feat. "`, and the
      clause (searched without the space) is cut out of the title. A remix
      clause is searched as it is, loses every `" Remix"`, and stays. */
  datatype Clause =
    | Featuring(open: string, close: string, trim: set<char>)
    | Remix(open: string, close: string, trim: set<char>)

  const FeatParen: Clause := Featuring("(feat", ")", {' ', '(', ')'})
  const FeatBracket: Clause := Featuring("[feat", "]", {' ', '[', ']'})
  const RemixDash: Clause := Remix(" - ", " Remix", {' ', '-'})
  const RemixParen: Clause := Remix(" (", " Remix)", {' ', '(', ')'})
  const RemixBracket: Clause := Remix(" [", " Remix]", {' ', '[', ']'})

  /** The order in which `__post_init__` handles the annotations. */
  const Clauses: seq<Clause> := [FeatParen, FeatBracket, RemixDash, RemixParen, RemixBracket]

  /** The literal that the extraction pattern starts with. */
  function SearchOpen(c: Clause): string {
    if c.Featuring? then " " + c.open else c.open
  }

  /** The word removed from the extracted text. */
  function Marker(c: Clause): string {
    if c.Featuring? then "feat. " else " Remix"
  }

  predicate NoDuplicates(xs: seq<string>) {
    forall i, j :: 0 <= i < j < |xs| ==> xs[i] != xs[j]
  }

  /** A name added at the end keeps the names distinct exactly when it is new. */
  lemma NoDuplicatesSnoc(xs: seq<string>, x: string)
    ensures NoDuplicates(xs + [x]) <==> NoDuplicates(xs) && x !in xs
  {
    var ys := xs + [x];
    if NoDuplicates(ys) {
      forall i | 0 <= i < |xs| ensures xs[i] != x {
        assert ys[i] == xs[i] && ys[|xs|] == x;
      }
      forall i, j | 0 <= i < j < |xs| ensures xs[i] != xs[j] {
        assert ys[i] == xs[i] && ys[j] == xs[j];
      }
    }
  }

  // ---------------------------------------------------------------------
  // _split_and_add_extra_artists

  /** The first piece of each token when split on `sep`. */
  function Heads(xs: seq<string>, sep: string): (r: seq<string>)
    requires |sep| > 0
    ensures |r| == |xs|
  {
    if xs == [] then [] else Heads(xs[..|xs| - 1], sep) + [Split(xs[|xs| - 1], sep)[0]]
  }

  /** The remaining pieces of each token when split on `sep`, token by token. */
  function Tails(xs: seq<string>, sep: string): seq<string>
    requires |sep| > 0
  {
    if xs == [] then [] else Tails(xs[..|xs| - 1], sep) + Split(xs[|xs| - 1], sep)[1..]
  }

  /** One splitting pass: every token keeps its first piece in place and its
      other pieces go to the end of the list. */
  function SplitPass(xs: seq<string>, sep: string): seq<string>
    requires |sep| > 0
  {
    Heads(xs, sep) + Tails(xs, sep)
  }

  /** The names `_split_and_add_extra_artists` takes from an extracted text:
      split on `", "`, then a pass on `" & "`, then a pass on `" x "`. */
  function ExtraArtistNames(extra: string): seq<string> {
    SplitPass(SplitPass(Split(Strip(extra), ", "), " & "), " x ")
  }

  /** The names of a text, from the results of its three splitting stages. */
  lemma ExtraArtistNamesByStages(extra: string, s1: seq<string>, s2: seq<string>, s3: seq<string>)
    requires Split(Strip(extra), ", ") == s1
    requires SplitPass(s1, " & ") == s2 && SplitPass(s2, " x ") == s3
    ensures ExtraArtistNames(extra) == s3
  {
  }

  /** `artists` after appending, in order, each name not yet in it. */
  function AddNew(artists: seq<string>, names: seq<string>): seq<string> {
    if names == [] then artists
    else
      var acc := AddNew(artists, names[..|names| - 1]);
      var x := names[|names| - 1];
      if x in acc then acc else acc + [x]
  }

  /** Appending the names up to `k` is appending those before `k`, then
      `names[k]` if it is new. */
  lemma AddNewStep(artists: seq<string>, names: seq<string>, k: nat)
    requires k < |names|
    ensures var acc := AddNew(artists, names[..k]);
            AddNew(artists, names[..k + 1]) == if names[k] in acc then acc else acc + [names[k]]
  {
    assert names[..k + 1][..k] == names[..k];
  }

  function AddExtraArtists(artists: seq<string>, extra: string): seq<string> {
    AddNew(artists, ExtraArtistNames(extra))
  }

  /** Appending only new names keeps the old list as a prefix, adds exactly
      the given names, and keeps a list without duplicates so. */
  lemma {:induction false} AddNewAppendsOnlyNewNames(artists: seq<string>, names: seq<string>)
    ensures artists <= AddNew(artists, names)
    ensures forall x :: x in AddNew(artists, names) <==> x in artists || x in names
    ensures NoDuplicates(artists) ==> NoDuplicates(AddNew(artists, names))
  {
    if names != [] {
      var init := names[..|names| - 1];
      AddNewAppendsOnlyNewNames(artists, init);
      assert names == init + [names[|names| - 1]];
    }
  }

  /** A pass over a single token is the split of that token. */
  lemma SplitPassOfOne(x: string, sep: string)
    requires |sep| > 0
    ensures SplitPass([x], sep) == Split(x, sep)
  {
    var pieces := Split(x, sep);
    assert [x][..0] == [];
    assert Heads([x], sep) == [pieces[0]];
    assert Tails([x], sep) == pieces[1..];
  }

  /** A list without the separator is left as it is by a pass. */
  lemma {:induction false} SplitPassOfFreeTokens(xs: seq<string>, sep: string)
    requires |sep| > 0
    requires forall x :: x in xs ==> !Contains(x, sep)
    ensures Heads(xs, sep) == xs && Tails(xs, sep) == []
  {
    if xs != [] {
      var init := xs[..|xs| - 1];
      SplitPassOfFreeTokens(init, sep);
      SplitWithoutSeparator(xs[|xs| - 1], sep);
      assert xs == init + [xs[|xs| - 1]];
    }
  }

  /** No token left by a pass contains the separator. */
  lemma {:induction false} SplitPassTokensAreFree(xs: seq<string>, sep: string)
    requires |sep| > 0
    ensures forall y :: y in SplitPass(xs, sep) ==> !Contains(y, sep)
  {
    if xs != [] {
      var init := xs[..|xs| - 1];
      var pieces := Split(xs[|xs| - 1], sep);
      SplitPassTokensAreFree(init, sep);
      SplitPiecesLackSeparator(xs[|xs| - 1], sep);
      assert pieces[0] in pieces;
      forall y | y in pieces[1..] ensures y in pieces { }
    }
  }

  /** Running a pass again changes nothing: the pieces a pass appends hold no
      separator, so leaving them out of that same pass loses nothing. */
  lemma SplitPassIsIdempotent(xs: seq<string>, sep: string)
    requires |sep| > 0
    ensures SplitPass(SplitPass(xs, sep), sep) == SplitPass(xs, sep)
  {
    SplitPassTokensAreFree(xs, sep);
    SplitPassOfFreeTokens(SplitPass(xs, sep), sep);
  }

  // ---------------------------------------------------------------------
  // __post_init__

  /** The text taken from the title for artist splitting, if the extraction
      pattern matches. */
  function Extracted(c: Clause, title: string): Option<string> {
    match GreedySearch(title, SearchOpen(c), c.close)
    case None => None
    case Some(sp) => Some(ReplaceAll(StripChars(title[sp.start..sp.end], c.trim), Marker(c), ""))
  }

  /** The artist list after the extraction of one annotation's block. */
  function StepArtists(c: Clause, title: string, artists: seq<string>): seq<string> {
    match Extracted(c, title)
    case None => artists
    case Some(e) => AddExtraArtists(artists, e)
  }

  /** The effect on title and artists of one annotation's block in
      `__post_init__`. */
  function ClauseStep(c: Clause, d: Draft): Draft {
    if c.Remix? then Draft(d.title, StepArtists(c, d.title, d.artists))
    else if Contains(d.title, c.open) then
      Draft(Strip(RemoveMatch(d.title, c.open, c.close)), StepArtists(c, d.title, d.artists))
    else d
  }

  function ApplyClauses(cs: seq<Clause>, d: Draft): Draft {
    if cs == [] then d else ApplyClauses(cs[1..], ClauseStep(cs[0], d))
  }

  /** Title and artists at the end of the rewriting steps of `__post_init__`. */
  function Rewrite(title: string, artists: seq<string>): Draft {
    ApplyClauses(Clauses, Draft(title, artists))
  }

  /** Construction of a track: rewriting, then the three emptiness checks. */
  function Normalize(title: string, artists: seq<string>, album: string): Result<Track, ValidationError> {
    var d := Rewrite(title, artists);
    if d.title == "" then Err(EmptyTitle)
    else if album == "" then Err(EmptyAlbum)
    else if |d.artists| == 0 then Err(EmptyArtists)
    else Ok(Track(d.title, d.artists, album))
  }

  /** Each annotation step keeps the artists it was given as a prefix and
      adds no duplicate. */
  lemma ClauseStepKeepsArtists(c: Clause, d: Draft)
    ensures d.artists <= ClauseStep(c, d).artists
    ensures NoDuplicates(d.artists) ==> NoDuplicates(ClauseStep(c, d).artists)
  {
    if c.Remix? || Contains(d.title, c.open) {
      assert ClauseStep(c, d).artists == StepArtists(c, d.title, d.artists);
      match Extracted(c, d.title)
      case None =>
      case Some(e) => AddNewAppendsOnlyNewNames(d.artists, ExtraArtistNames(e));
    }
  }

  lemma {:induction false} ApplyClausesKeepsArtists(cs: seq<Clause>, d: Draft)
    ensures d.artists <= ApplyClauses(cs, d).artists
    ensures NoDuplicates(d.artists) ==> NoDuplicates(ApplyClauses(cs, d).artists)
  {
    if cs != [] {
      ClauseStepKeepsArtists(cs[0], d);
      ApplyClausesKeepsArtists(cs[1..], ClauseStep(cs[0], d));
    }
  }

  /** Rewriting only appends: the caller's artists stay, in order, at the
      front, and an artist list without duplicates stays without them. */
  lemma RewriteKeepsArtists(title: string, artists: seq<string>)
    ensures artists <= Rewrite(title, artists).artists
    ensures NoDuplicates(artists) ==> NoDuplicates(Rewrite(title, artists).artists)
  {
    ApplyClausesKeepsArtists(Clauses, Draft(title, artists));
  }

  /** Remix steps never change the title. */
  lemma {:induction false} RemixClausesKeepTitle(cs: seq<Clause>, d: Draft)
    requires forall c :: c in cs ==> c.Remix?
    ensures ApplyClauses(cs, d).title == d.title
  {
    if cs != [] {
      assert cs[0] in cs;
      RemixClausesKeepTitle(cs[1..], ClauseStep(cs[0], d));
    }
  }

  /** The title at the end is the title after the two featuring steps. */
  lemma RewriteTitleIsFeaturingTitle(title: string, artists: seq<string>)
    ensures Rewrite(title, artists).title ==
            ClauseStep(FeatBracket, ClauseStep(FeatParen, Draft(title, artists))).title
  {
    var d1 := ClauseStep(FeatParen, Draft(title, artists));
    var d2 := ClauseStep(FeatBracket, d1);
    var remixes := [RemixDash, RemixParen, RemixBracket];
    assert Clauses[0] == FeatParen && Clauses[1..] == [FeatBracket] + remixes;
    assert Rewrite(title, artists) == ApplyClauses([FeatBracket] + remixes, d1);
    assert ([FeatBracket] + remixes)[1..] == remixes;
    assert Rewrite(title, artists) == ApplyClauses(remixes, d2);
    RemixClausesKeepTitle(remixes, d2);
  }

  /** A featuring step, when `open` occurs first at `i` and `close` occurs
      last at `k` after it, cuts the title from `i` to the end of that
      `close` and strips whitespace. */
  lemma FeaturingStepCutsClause(c: Clause, d: Draft, i: nat, k: nat)
    requires c.Featuring?
    requires MatchAt(d.title, c.open, c.close, i, k)
    requires forall j: nat :: j < i ==> !OccursAt(d.title, c.open, j)
    requires forall j: nat :: k < j ==> !OccursAt(d.title, c.close, j)
    ensures Contains(d.title, c.open)
    ensures ClauseStep(c, d).title == Strip(d.title[..i] + d.title[k + |c.close|..])
  {
    var t := d.title;
    var first := FirstIndexOf(t, c.open);
    assert first.Some? && first.value == i;
    var last := LastIndexFrom(t, c.close, i + |c.open|);
    assert last.Some? && last.value == k;
    assert GreedySearch(t, c.open, c.close) == Some(Span(i, k + |c.close|));
    assert RemoveMatch(t, c.open, c.close) == t[..i] + t[k + |c.close|..];
    assert Contains(t, c.open) by { assert i <= |t| && OccursAt(t, c.open, i); }
  }

  /** The same cut when the extraction pattern, which needs a space before
      `open`, finds nothing: the artists stay as they are. */
  lemma FeaturingStepCutsWithoutExtraction(c: Clause, d: Draft, i: nat, k: nat)
    requires c.Featuring? && Extracted(c, d.title).None?
    requires MatchAt(d.title, c.open, c.close, i, k)
    requires forall j: nat :: j < i ==> !OccursAt(d.title, c.open, j)
    requires forall j: nat :: k < j ==> !OccursAt(d.title, c.close, j)
    ensures ClauseStep(c, d) == Draft(Strip(d.title[..i] + d.title[k + |c.close|..]), d.artists)
  {
    FeaturingStepCutsClause(c, d, i, k);
  }

  /** A match of the spaced pattern holds a match of the plain one, one
      position later. */
  lemma SpacedMatchHoldsMatch(t: string, open: string, close: string, i: nat, k: nat)
    ensures MatchAt(t, " " + open, close, i, k) ==> MatchAt(t, open, close, i + 1, k)
  {
    if MatchAt(t, " " + open, close, i, k) {
      assert t[i + 1..i + 1 + |open|] == t[i..i + 1 + |open|][1..];
      assert (" " + open)[1..] == open;
    }
  }

  /** Without a match of `open` and `close`, the extraction pattern, which
      only adds a space in front of `open`, finds nothing either. */
  lemma FeaturingExtractsNothingWithoutMatch(c: Clause, t: string)
    requires c.Featuring?
    requires forall i: nat, k: nat :: !MatchAt(t, c.open, c.close, i, k)
    ensures Extracted(c, t).None?
  {
    GreedySearchIsLeftmostLongest(t, SearchOpen(c), c.close);
    forall i: nat, k: nat ensures !MatchAt(t, SearchOpen(c), c.close, i, k) {
      SpacedMatchHoldsMatch(t, c.open, c.close, i, k);
    }
  }

  /** A featuring step whose `open` has no `close` after it only strips the
      title and adds no artist. */
  lemma FeaturingStepWithoutClose(c: Clause, d: Draft)
    requires c.Featuring? && Contains(d.title, c.open)
    requires forall i: nat, k: nat :: !MatchAt(d.title, c.open, c.close, i, k)
    ensures ClauseStep(c, d) == Draft(Strip(d.title), d.artists)
  {
    GreedySearchIsLeftmostLongest(d.title, c.open, c.close);
    assert RemoveMatch(d.title, c.open, c.close) == d.title;
    FeaturingExtractsNothingWithoutMatch(c, d.title);
  }

  /** Every extraction pattern starts with a space, so a title without a
      space yields no extra artist. */
  lemma SpaceFreeTitleExtractsNothing(c: Clause, title: string)
    requires c in Clauses && ' ' !in title
    ensures Extracted(c, title).None?
  {
    assert SearchOpen(c)[0] == ' ';
    AbsentPattern(title, SearchOpen(c), 0);
  }

  /** The remix steps leave a title without a space, and its artists, alone. */
  lemma SpaceFreeTitleSkipsRemixes(d: Draft)
    requires ' ' !in d.title
    ensures ApplyClauses([RemixDash, RemixParen, RemixBracket], d) == d
  {
    SpaceFreeTitleExtractsNothing(RemixDash, d.title);
    SpaceFreeTitleExtractsNothing(RemixParen, d.title);
    SpaceFreeTitleExtractsNothing(RemixBracket, d.title);
    assert ApplyClauses([RemixBracket], d) == d;
    assert ApplyClauses([RemixParen, RemixBracket], d) == d;
  }

  /** A featuring step whose `open` does not occur changes nothing. */
  lemma FeaturingStepWithoutOpen(c: Clause, d: Draft)
    requires c.Featuring? && !Contains(d.title, c.open)
    ensures ClauseStep(c, d) == d
  {
  }

  /** The rewriting is the two featuring steps followed by the three remix steps. */
  lemma RewriteInTwoStages(d: Draft)
    ensures Rewrite(d.title, d.artists) ==
            ApplyClauses([RemixDash, RemixParen, RemixBracket], ClauseStep(FeatBracket, ClauseStep(FeatParen, d)))
  {
    var d1 := ClauseStep(FeatParen, d);
    assert ApplyClauses(Clauses, d) == ApplyClauses(Clauses[1..], d1);
    assert ApplyClauses(Clauses[1..], d1) == ApplyClauses(Clauses[2..], ClauseStep(FeatBracket, d1));
    assert Clauses[2..] == [RemixDash, RemixParen, RemixBracket];
  }

  /** A featuring step that finds nothing, then one that cuts a clause out
      without extracting artists from it. */
  lemma FeaturingStepsCutSecond(c1: Clause, c2: Clause, d: Draft, i: nat, k: nat)
    requires c1.Featuring? && !Contains(d.title, c1.open)
    requires c2.Featuring? && Extracted(c2, d.title).None?
    requires MatchAt(d.title, c2.open, c2.close, i, k)
    requires forall j: nat :: j < i ==> !OccursAt(d.title, c2.open, j)
    requires forall j: nat :: k < j ==> !OccursAt(d.title, c2.close, j)
    ensures ClauseStep(c2, ClauseStep(c1, d)) ==
            Draft(Strip(d.title[..i] + d.title[k + |c2.close|..]), d.artists)
  {
    FeaturingStepWithoutOpen(c1, d);
    FeaturingStepCutsWithoutExtraction(c2, d, i, k);
  }

  /** The featuring steps on a space-free title without `(feat` but with a
      bracketed featuring clause cut that clause out and extract no artist. */
  lemma SpaceFreeBracketClauseSteps(c1: Clause, c2: Clause, d: Draft, i: nat, k: nat)
    requires c1 == FeatParen && c2 == FeatBracket
    requires ' ' !in d.title && !Contains(d.title, c1.open)
    requires MatchAt(d.title, c2.open, c2.close, i, k)
    requires forall j: nat :: j < i ==> !OccursAt(d.title, c2.open, j)
    requires forall j: nat :: k < j ==> !OccursAt(d.title, c2.close, j)
    ensures ClauseStep(c2, ClauseStep(c1, d)) ==
            Draft(Strip(d.title[..i] + d.title[k + |c2.close|..]), d.artists)
  {
    SpaceFreeTitleExtractsNothing(c2, d.title);
    FeaturingStepsCutSecond(c1, c2, d, i, k);
  }

  /** When the featuring steps leave a title without a space, that title and
      those artists are the outcome of the whole rewriting. */
  lemma SpaceFreeAfterFeaturing(d: Draft, r: string)
    requires ClauseStep(FeatBracket, ClauseStep(FeatParen, d)) == Draft(r, d.artists)
    requires ' ' !in r
    ensures Rewrite(d.title, d.artists) == Draft(r, d.artists)
  {
    RewriteInTwoStages(d);
    SpaceFreeTitleSkipsRemixes(Draft(r, d.artists));
  }

  /** A space-free title without `(feat` but with a bracketed featuring
      clause loses that clause and nothing else, when what is left has no
      space for a remix step to act on. */
  lemma SpaceFreeBracketClauseIsCut(c1: Clause, c2: Clause, d: Draft, i: nat, k: nat)
    requires c1 == FeatParen && c2 == FeatBracket
    requires ' ' !in d.title && !Contains(d.title, c1.open)
    requires MatchAt(d.title, c2.open, c2.close, i, k)
    requires forall j: nat :: j < i ==> !OccursAt(d.title, c2.open, j)
    requires forall j: nat :: k < j ==> !OccursAt(d.title, c2.close, j)
    requires ' ' !in Strip(d.title[..i] + d.title[k + |c2.close|..])
    ensures Rewrite(d.title, d.artists) == Draft(Strip(d.title[..i] + d.title[k + |c2.close|..]), d.artists)
  {
    SpaceFreeBracketClauseSteps(c1, c2, d, i, k);
    SpaceFreeAfterFeaturing(d, Strip(d.title[..i] + d.title[k + |c2.close|..]));
  }

  /** A title with no `(` and no `[` holds no annotation except possibly
      the dash remix, and no other step changes it or its artists. */
  lemma BracketFreeStep(c: Clause, d: Draft)
    requires c in Clauses && c != RemixDash
    requires '(' !in d.title && '[' !in d.title
    ensures ClauseStep(c, d) == d
  {
    var t := d.title;
    if c == FeatParen {
      AbsentPattern(t, "(feat", 0);
    } else if c == FeatBracket {
      AbsentPattern(t, "[feat", 0);
    } else {
      assert SearchOpen(c) == c.open;
      if c == RemixParen {
        AbsentPattern(t, " (", 1);
      } else {
        AbsentPattern(t, " [", 1);
      }
      assert GreedySearch(t, SearchOpen(c), c.close).None?;
    }
  }

  /** A title with no `(`, `[` or `-` holds no annotation at all. */
  lemma PlainTitleStep(c: Clause, d: Draft)
    requires c in Clauses
    requires '(' !in d.title && '[' !in d.title && '-' !in d.title
    ensures ClauseStep(c, d) == d
  {
    if c == RemixDash {
      AbsentPattern(d.title, " - ", 1);
      assert GreedySearch(d.title, SearchOpen(c), c.close).None?;
    } else {
      BracketFreeStep(c, d);
    }
  }

  lemma {:induction false} PlainTitleIsKept(cs: seq<Clause>, d: Draft)
    requires forall c :: c in cs ==> c in Clauses
    requires '(' !in d.title && '[' !in d.title && '-' !in d.title
    ensures ApplyClauses(cs, d) == d
  {
    if cs != [] {
      assert cs[0] in cs;
      PlainTitleStep(cs[0], d);
      PlainTitleIsKept(cs[1..], d);
    }
  }

  /** A normalized track has a non-empty title, album and artist list, the
      album as given, and the caller's artists, in order, at the front. The
      checks run after extraction, so an empty artist error means the caller
      gave no artist. */
  lemma NormalizedTrackIsValid(title: string, artists: seq<string>, album: string)
    ensures Normalize(title, artists, album).Ok? ==>
              var t := Normalize(title, artists, album).value;
              t.title != "" && t.album == album && album != "" && |t.artists| > 0 &&
              artists <= t.artists &&
              (NoDuplicates(artists) ==> NoDuplicates(t.artists))
    ensures album == "" ==> Normalize(title, artists, album).Err?
    ensures Normalize(title, artists, album) == Err(EmptyArtists) ==> artists == []
  {
    RewriteKeepsArtists(title, artists);
  }

  // ---------------------------------------------------------------------
  // from_response

  /** An entry of a response's `artists` list. */
  datatype ArtistEntry = ArtistEntry(name: string)

  /** `[item["name"] for item in entries]` */
  function Names(entries: seq<ArtistEntry>): (r: seq<string>)
    ensures |r| == |entries| && forall i :: 0 <= i < |r| ==> r[i] == entries[i].name
  {
    seq(|entries|, i requires 0 <= i < |entries| => entries[i].name)
  }

  /** A Spotify track object: `name`, `artists` and `album.name`. */
  datatype SpotifyResponse = SpotifyResponse(name: string, artists: seq<ArtistEntry>, albumName: string)

  /** `SpotifyTrack.from_response`: the name, the artist names in order and
      the album name go to the constructor, which normalizes them. */
  function SpotifyTrackFromResponse(resp: SpotifyResponse): (r: Result<Track, ValidationError>)
    ensures r.Ok? ==> r.value.album == resp.albumName && Names(resp.artists) <= r.value.artists
    ensures resp.albumName == "" ==> r.Err?
  {
    NormalizedTrackIsValid(resp.name, Names(resp.artists), resp.albumName);
    Normalize(resp.name, Names(resp.artists), resp.albumName)
  }

  /** The `album` entry of a search result: the key may be missing, the value
      may be `None`, and the object may lack `name`. */
  datatype AlbumEntry = NoAlbumKey | NullAlbum | AlbumObject(name: Option<string>, id: string)

  /** A YouTube Music search result. */
  datatype YtResponse = YtResponse(title: string, artists: seq<ArtistEntry>, album: AlbumEntry, videoId: string)

  /** A response counts as a song when it is not `None` and has an album
      object with a `name`; anything else (a video, a podcast) does not. */
  predicate IsSong(resp: Option<YtResponse>) {
    resp.Some? && resp.value.album.AlbumObject? && resp.value.album.name.Some?
  }

  datatype YtMusicTrack = YtMusicTrack(track: Track, videoId: string)

  /** `YtMusicTrack.from_response`. `albumArtist` stands for the first album
      artist's name that the program fetches when the result lists no artist,
      `None` when it cannot fetch it; that name is split on `", "`. */
  function YtMusicTrackFromResponse(resp: Option<YtResponse>, albumArtist: Option<string>)
    : (r: Option<Result<YtMusicTrack, ValidationError>>)
    ensures r.None? <==> !IsSong(resp)
    ensures r.Some? && r.value.Ok? ==>
              r.value.value.videoId == resp.value.videoId &&
              r.value.value.track.album == resp.value.album.name.value &&
              (resp.value.artists != [] ==> Names(resp.value.artists) <= r.value.value.track.artists)
  {
    if !IsSong(resp) then None
    else
      var res := resp.value;
      var artists := if |res.artists| == 0 && albumArtist.Some? then Split(albumArtist.value, ", ")
                     else Names(res.artists);
      NormalizedTrackIsValid(res.title, artists, res.album.name.value);
      match Normalize(res.title, artists, res.album.name.value)
      case Ok(t) => Some(Ok(YtMusicTrack(t, res.videoId)))
      case Err(e) => Some(Err(e))
  }

  // ---------------------------------------------------------------------
  // BaseTrack, as the program mutates it

  class BaseTrack {
    var title: string
    var artists: seq<string>
    var album: string

    /** The dataclass `__init__`; `PostInit` follows it. */
    constructor (title: string, artists: seq<string>, album: string)
      ensures this.title == title && this.artists == artists && this.album == album
    {
      this.title := title;
      this.artists := artists;
      this.album := album;
    }

    /** `__post_init__`: the five annotation blocks in order, then the checks. */
    method PostInit() returns (outcome: Outcome<ValidationError>)
      modifies this
      ensures Draft(title, artists) == Rewrite(old(title), old(artists)) && album == old(album)
      ensures outcome.Pass? <==> Normalize(old(title), old(artists), old(album)) == Ok(Track(title, artists, album))
      ensures outcome.Fail? ==> Normalize(old(title), old(artists), old(album)) == Err(outcome.error)
    {
      ghost var d0 := Draft(title, artists);
      ApplyClause(FeatParen);
      ghost var d1 := Draft(title, artists);
      ApplyClause(FeatBracket);
      ghost var d2 := Draft(title, artists);
      ApplyClause(RemixDash);
      ghost var d3 := Draft(title, artists);
      ApplyClause(RemixParen);
      ghost var d4 := Draft(title, artists);
      ApplyClause(RemixBracket);
      assert Draft(title, artists) == ApplyClauses([], ClauseStep(RemixBracket, d4));
      assert Draft(title, artists) == ApplyClauses([RemixBracket], d4);
      assert Draft(title, artists) == ApplyClauses([RemixParen, RemixBracket], d3);
      assert Draft(title, artists) == ApplyClauses([RemixDash, RemixParen, RemixBracket], d2);
      assert Draft(title, artists) == ApplyClauses([FeatBracket, RemixDash, RemixParen, RemixBracket], d1);
      assert Draft(title, artists) == ApplyClauses(Clauses, d0);
      if title == "" {
        return Fail(EmptyTitle);
      }
      if album == "" {
        return Fail(EmptyAlbum);
      }
      if |artists| == 0 {
        return Fail(EmptyArtists);
      }
      return Pass;
    }

    /** One annotation block of `__post_init__`. */
    method ApplyClause(c: Clause)
      modifies this
      ensures Draft(title, artists) == ClauseStep(c, old(Draft(title, artists))) && album == old(album)
    {
      if c.Featuring? {
        if Contains(title, c.open) {
          var m := GreedySearch(title, SearchOpen(c), c.close);
          if m.Some? {
            var extra := ReplaceAll(StripChars(title[m.value.start..m.value.end], c.trim), Marker(c), "");
            SplitAndAddExtraArtists(extra);
          }
          title := Strip(RemoveMatch(title, c.open, c.close));
        }
      } else {
        var m := GreedySearch(title, SearchOpen(c), c.close);
        if m.Some? {
          var extra := ReplaceAll(StripChars(title[m.value.start..m.value.end], c.trim), Marker(c), "");
          SplitAndAddExtraArtists(extra);
        }
      }
    }

    /** `_split_and_add_extra_artists`: split the text into names and append
        each one not yet in `artists`. */
    method SplitAndAddExtraArtists(extra: string)
      modifies this
      ensures artists == AddExtraArtists(old(artists), extra)
      ensures title == old(title) && album == old(album)
    {
      var pieces := Split(Strip(extra), ", ");
      var spaced := SplitEach(pieces, " & ");
      var names := SplitEach(spaced, " x ");
      ExtraArtistNamesByStages(extra, pieces, spaced, names);
      artists := AppendNew(artists, names);
    }
  }

  /** The appending loop of `_split_and_add_extra_artists`: each name not yet
      in the list goes to its end. */
  method AppendNew(artists: seq<string>, names: seq<string>) returns (r: seq<string>)
    ensures r == AddNew(artists, names)
  {
    r := artists;
    for k := 0 to |names|
      invariant r == AddNew(artists, names[..k])
    {
      AddNewStep(artists, names, k);
      if names[k] !in r {
        r := r + [names[k]];
      }
    }
    assert names[..|names|] == names;
  }

  /** The state of a splitting loop after `i` of its tokens. */
  function SplitState(names: seq<string>, i: nat, sep: string): seq<string>
    requires |sep| > 0 && i <= |names|
  {
    Heads(names[..i], sep) + names[i..] + Tails(names[..i], sep)
  }

  /** One iteration of a splitting loop moves its state from `i` to `i + 1`. */
  lemma SplitStateStep(names: seq<string>, i: nat, sep: string)
    requires |sep| > 0 && i < |names|
    ensures var out := SplitState(names, i, sep);
            var pieces := Split(names[i], sep);
            i < |out| && out[i] == names[i] &&
            (Contains(names[i], sep) ==> out[i := pieces[0]] + pieces[1..] == SplitState(names, i + 1, sep)) &&
            (!Contains(names[i], sep) ==> out == SplitState(names, i + 1, sep))
  {
    var hs, rest, ts := Heads(names[..i], sep), names[i + 1..], Tails(names[..i], sep);
    var pieces := Split(names[i], sep);
    assert names[..i + 1][..i] == names[..i];
    assert names[i..] == [names[i]] + rest;
    assert SplitState(names, i, sep) == hs + [names[i]] + (rest + ts);
    assert (hs + [names[i]] + (rest + ts))[|hs| := pieces[0]] == hs + [pieces[0]] + (rest + ts);
    if !Contains(names[i], sep) {
      SplitWithoutSeparator(names[i], sep);
    }
  }

  /** One splitting loop of `_split_and_add_extra_artists`: over the tokens
      present when the loop starts, a token containing `sep` keeps its first
      piece in place and its other pieces are appended to the list. */
  method SplitEach(names: seq<string>, sep: string) returns (out: seq<string>)
    requires |sep| > 0
    ensures out == SplitPass(names, sep)
  {
    out := names;
    var n := |out|;
    for i := 0 to n
      invariant out == SplitState(names, i, sep)
    {
      SplitStateStep(names, i, sep);
      if Contains(out[i], sep) {
        var tmp := Split(out[i], sep);
        out := out[i := tmp[0]];
        out := out + tmp[1..];
      }
    }
    assert names[..n] == names;
  }
}
