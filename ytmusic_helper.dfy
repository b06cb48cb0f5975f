/** The matching half of `YTMusicHelper` (ytmusic_helper.py): scoring the
    search results for one source track, choosing the best one, building the
    list of video ids for a new playlist, and deciding between creating a
    playlist and merging into an existing one. The network calls are
    parameters: `results` is what the search returned, `search` is the search
    as a function of the track, `existing` the library playlists. */
module YTMusicHelper {
  import opened Wrappers
  import opened Levenshtein
  import opened Tracks

  /** The starting value of the running minimum over the source artists. */
  const NoSourceArtist: nat := 999

  /** Scores above this reject the best candidate. */
  const Threshold: nat := 50

  const Description: string := "Playlist synchronized from Spotify"
  const Privacy: string := "PRIVATE"

  // ---------------------------------------------------------------------
  // Scores

  /** The running minimum `curr_artist_lowest_dist` after comparing one
      result artist with the given source artists: the least distance to
      any of them, and 999 when there is none below 999. */
  function LowestDist(a: string, sources: seq<string>): (r: nat)
    ensures r <= NoSourceArtist
    ensures forall i :: 0 <= i < |sources| ==> r <= Distance(a, sources[i])
    ensures r == NoSourceArtist || exists i :: 0 <= i < |sources| && r == Distance(a, sources[i])
  {
    if sources == [] then NoSourceArtist
    else
      var m := LowestDist(a, sources[..|sources| - 1]);
      var d := Distance(a, sources[|sources| - 1]);
      if d < m then d else m
  }

  /** `artist_dist`: the lowest distances of the result's artists, summed. */
  function ArtistDist(names: seq<string>, sources: seq<string>): (r: nat)
    ensures r <= NoSourceArtist * |names|
  {
    if names == [] then 0
    else ArtistDist(names[..|names| - 1], sources) + LowestDist(names[|names| - 1], sources)
  }

  /** `total_dist` of a result with the given title, artist names and album
      name: title and artist distances count twice, the album once. */
  function Score(track: Track, title: string, names: seq<string>, album: string): nat {
    2 * Distance(title, track.title) + 2 * ArtistDist(names, track.artists) + Distance(album, track.album)
  }

  /** A result artist is at distance 0 from the source exactly when the
      source lists that name. */
  lemma LowestDistZeroIff(a: string, sources: seq<string>)
    ensures LowestDist(a, sources) == 0 <==> a in sources
  {
    if a in sources {
      var i :| 0 <= i < |sources| && sources[i] == a;
      DistanceToSelf(a);
    }
    if LowestDist(a, sources) == 0 {
      var i :| 0 <= i < |sources| && 0 == Distance(a, sources[i]);
      DistanceZeroIffEqual(a, sources[i]);
    }
  }

  /** With no source artist every result artist adds 999. */
  lemma {:induction false} ArtistDistWithoutSources(names: seq<string>)
    ensures ArtistDist(names, []) == NoSourceArtist * |names|
  {
    if names != [] {
      ArtistDistWithoutSources(names[..|names| - 1]);
    }
  }

  /** The artist distance is 0 exactly when every result artist is listed by
      the source. */
  lemma {:induction false} ArtistDistZeroIff(names: seq<string>, sources: seq<string>)
    ensures ArtistDist(names, sources) == 0 <==> forall a :: a in names ==> a in sources
  {
    if names != [] {
      var init, last := names[..|names| - 1], names[|names| - 1];
      ArtistDistZeroIff(init, sources);
      LowestDistZeroIff(last, sources);
      assert ArtistDist(names, sources) == ArtistDist(init, sources) + LowestDist(last, sources);
      AllInByLast(names, sources);
    }
  }

  /** Every name of a non-empty list is listed exactly when those before the
      last one and the last one are. */
  lemma AllInByLast(xs: seq<string>, ys: seq<string>)
    requires xs != []
    ensures (forall a :: a in xs ==> a in ys) <==>
            (forall a :: a in xs[..|xs| - 1] ==> a in ys) && xs[|xs| - 1] in ys
  {
    assert xs == xs[..|xs| - 1] + [xs[|xs| - 1]];
  }

  /** A score is 0 exactly when title and album are the source's and every
      artist of the result is one of the source's artists. */
  lemma ScoreZeroIff(track: Track, title: string, names: seq<string>, album: string)
    ensures Score(track, title, names, album) == 0 <==>
            title == track.title && album == track.album && forall a :: a in names ==> a in track.artists
  {
    DistanceZeroIffEqual(title, track.title);
    DistanceZeroIffEqual(album, track.album);
    ArtistDistZeroIff(names, track.artists);
  }

  // ---------------------------------------------------------------------
  // Candidates and the stable sort

  /** An entry of `results_with_dist`. */
  datatype Scored = Scored(score: nat, videoId: string)

  /** The scored entry of a result that counts as a song. */
  function ScoreResult(track: Track, resp: YtResponse): Scored
    requires resp.album.AlbumObject? && resp.album.name.Some?
  {
    Scored(Score(track, resp.title, Names(resp.artists), resp.album.name.value), resp.videoId)
  }

  /** `results_with_dist` after the loop: the results that count as songs,
      scored, in the order of `results`. */
  function Candidates(track: Track, results: seq<Option<YtResponse>>): seq<Scored> {
    if results == [] then []
    else
      var last := results[|results| - 1];
      Candidates(track, results[..|results| - 1]) +
      (if IsSong(last) then [ScoreResult(track, last.value)] else [])
  }

  /** Every candidate comes from a song among the results, with its score
      and its video id. */
  lemma {:induction false} CandidatesComeFromSongs(track: Track, results: seq<Option<YtResponse>>)
    ensures forall c :: c in Candidates(track, results) ==>
              exists i :: 0 <= i < |results| && IsSong(results[i]) && c == ScoreResult(track, results[i].value)
  {
    if results != [] {
      var init := results[..|results| - 1];
      CandidatesComeFromSongs(track, init);
      forall c | c in Candidates(track, results)
        ensures exists i :: 0 <= i < |results| && IsSong(results[i]) && c == ScoreResult(track, results[i].value)
      {
        if c in Candidates(track, init) {
          var i :| 0 <= i < |init| && IsSong(init[i]) && c == ScoreResult(track, init[i].value);
          assert results[i] == init[i];
        } else {
          assert IsSong(results[|results| - 1]);
        }
      }
    }
  }

  /** There are no candidates exactly when no result counts as a song (in
      particular when there are no results). */
  lemma {:induction false} CandidatesEmptyIff(track: Track, results: seq<Option<YtResponse>>)
    ensures Candidates(track, results) == [] <==> forall i :: 0 <= i < |results| ==> !IsSong(results[i])
  {
    if results != [] {
      var init := results[..|results| - 1];
      CandidatesEmptyIff(track, init);
      assert forall i :: 0 <= i < |init| ==> init[i] == results[i];
    }
  }

  /** `key=lambda x: x[0]`, in ascending order. */
  predicate SortedByScore(s: seq<Scored>) {
    forall i, j :: 0 <= i < j < |s| ==> s[i].score <= s[j].score
  }

  /** Inserts `x` before the first entry whose score is not below its own, so
      that it stays ahead of the entries with an equal score. */
  function Insert(x: Scored, ys: seq<Scored>): (r: seq<Scored>)
    ensures |r| == |ys| + 1
  {
    if ys == [] then [x]
    else if x.score <= ys[0].score then [x] + ys
    else [ys[0]] + Insert(x, ys[1..])
  }

  /** An insertion adds exactly the inserted entry. */
  lemma {:induction false} InsertAddsEntry(x: Scored, ys: seq<Scored>)
    ensures multiset(Insert(x, ys)) == multiset(ys) + multiset{x}
  {
    if ys != [] && x.score > ys[0].score {
      InsertAddsEntry(x, ys[1..]);
      assert ys == [ys[0]] + ys[1..];
    }
  }

  /** The stable sort of `results_with_dist` by score, as an insertion sort
      from the back: each entry goes ahead of the later entries with an equal
      score. */
  function SortByScore(s: seq<Scored>): (r: seq<Scored>)
    ensures |r| == |s|
  {
    if s == [] then [] else Insert(s[0], SortByScore(s[1..]))
  }

  lemma {:induction false} InsertKeepsSorted(x: Scored, ys: seq<Scored>)
    requires SortedByScore(ys)
    ensures SortedByScore(Insert(x, ys))
  {
    if ys != [] && x.score > ys[0].score {
      var tail := ys[1..];
      InsertKeepsSorted(x, tail);
      InsertMembers(x, tail);
      var r, rest := Insert(x, ys), Insert(x, tail);
      assert r == [ys[0]] + rest;
      forall k | 0 <= k < |rest| ensures ys[0].score <= rest[k].score {
        assert rest[k] in rest;
      }
      forall i, j | 0 <= i < j < |r| ensures r[i].score <= r[j].score {
        assert r[j] == rest[j - 1];
        if 0 < i {
          assert r[i] == rest[i - 1];
        }
      }
    }
  }

  /** Every entry after an insertion is the inserted one or an old one. */
  lemma {:induction false} InsertMembers(x: Scored, ys: seq<Scored>)
    ensures forall z :: z in Insert(x, ys) ==> z == x || z in ys
  {
    if ys != [] && x.score > ys[0].score {
      InsertMembers(x, ys[1..]);
      assert Insert(x, ys) == [ys[0]] + Insert(x, ys[1..]);
    }
  }

  /** The sort orders by score and loses or adds nothing. */
  lemma {:induction false} SortByScoreIsSortedPermutation(s: seq<Scored>)
    ensures SortedByScore(SortByScore(s)) && multiset(SortByScore(s)) == multiset(s)
  {
    if s != [] {
      SortByScoreIsSortedPermutation(s[1..]);
      InsertKeepsSorted(s[0], SortByScore(s[1..]));
      InsertAddsEntry(s[0], SortByScore(s[1..]));
      assert s == [s[0]] + s[1..];
    }
  }

  /** The position of the earliest entry with the least score. */
  function MinIndex(s: seq<Scored>): (i: nat)
    requires s != []
    ensures i < |s|
    ensures forall j :: 0 <= j < |s| ==> s[i].score <= s[j].score
    ensures forall j :: 0 <= j < i ==> s[i].score < s[j].score
  {
    if |s| == 1 then 0
    else
      var m := 1 + MinIndex(s[1..]);
      assert forall j :: 1 <= j < |s| ==> s[j] == s[1..][j - 1];
      if s[0].score <= s[m].score then 0 else m
  }

  /** The stable sort puts first the earliest entry with the least score. */
  lemma {:induction false} SortByScoreHead(s: seq<Scored>)
    requires s != []
    ensures SortByScore(s)[0] == s[MinIndex(s)]
  {
    if |s| > 1 {
      SortByScoreHead(s[1..]);
      assert s[1 + MinIndex(s[1..])] == s[1..][MinIndex(s[1..])];
    }
  }

  // ---------------------------------------------------------------------
  // Selection

  /** What `_find_track` returns for these search results. */
  function Select(track: Track, results: seq<Option<YtResponse>>): Option<string> {
    var cs := Candidates(track, results);
    if cs == [] then None
    else
      var best := SortByScore(cs)[0];
      if best.score > Threshold then None else Some(best.videoId)
  }

  /** The selection in terms of the candidates: nothing when there is none or
      when the least score is above the threshold; otherwise the video id of
      the earliest candidate with the least score. */
  lemma SelectIsEarliestMinimum(track: Track, results: seq<Option<YtResponse>>)
    ensures var cs := Candidates(track, results);
            Select(track, results) ==
              if cs == [] || cs[MinIndex(cs)].score > Threshold then None
              else Some(cs[MinIndex(cs)].videoId)
  {
    var cs := Candidates(track, results);
    if cs != [] {
      SortByScoreHead(cs);
    }
  }

  /** No id is returned exactly when no result is a song or every song scores
      above the threshold; a least score of exactly 50 is accepted. */
  lemma SelectNoneIff(track: Track, results: seq<Option<YtResponse>>)
    ensures Select(track, results).None? <==>
            forall c :: c in Candidates(track, results) ==> c.score > Threshold
  {
    var cs := Candidates(track, results);
    SelectIsEarliestMinimum(track, results);
    if cs != [] && cs[MinIndex(cs)].score <= Threshold {
      assert cs[MinIndex(cs)] in cs;
    }
  }

  /** A returned id belongs to a song among the results whose score is at
      most the threshold and no larger than the score of any other song. */
  lemma SelectedIsBestSong(track: Track, results: seq<Option<YtResponse>>)
    requires Select(track, results).Some?
    ensures exists i :: 0 <= i < |results| && IsSong(results[i]) &&
              results[i].value.videoId == Select(track, results).value &&
              ScoreResult(track, results[i].value).score <= Threshold &&
              forall c :: c in Candidates(track, results) ==> ScoreResult(track, results[i].value).score <= c.score
  {
    var cs := Candidates(track, results);
    SelectIsEarliestMinimum(track, results);
    CandidatesComeFromSongs(track, results);
    var best := cs[MinIndex(cs)];
    assert best in cs;
    var i :| 0 <= i < |results| && IsSong(results[i]) && best == ScoreResult(track, results[i].value);
    forall c | c in cs ensures best.score <= c.score {
      var j :| 0 <= j < |cs| && cs[j] == c;
    }
  }

  /** A result that is not a song is never returned: if the selected id is
      the id of no song, nothing was selected. */
  lemma NonSongIsNeverSelected(track: Track, results: seq<Option<YtResponse>>, id: string)
    requires forall i :: 0 <= i < |results| && IsSong(results[i]) ==> results[i].value.videoId != id
    ensures Select(track, results) != Some(id)
  {
    if Select(track, results) == Some(id) {
      SelectedIsBestSong(track, results);
    }
  }

  /** A result with the source's title and album whose artists are all the
      source's scores 0, so some id with score 0 is returned. */
  lemma PerfectResultIsAccepted(track: Track, results: seq<Option<YtResponse>>, i: nat)
    requires i < |results| && IsSong(results[i])
    requires results[i].value.title == track.title && results[i].value.album.name.value == track.album
    requires forall a :: a in Names(results[i].value.artists) ==> a in track.artists
    ensures ScoreResult(track, results[i].value).score == 0
    ensures Select(track, results).Some?
  {
    var resp := results[i].value;
    ScoreZeroIff(track, resp.title, Names(resp.artists), resp.album.name.value);
    CandidatesHoldSongs(track, results, i);
    SelectNoneIff(track, results);
  }

  /** Every song among the results has its scored entry among the candidates. */
  lemma {:induction false} CandidatesHoldSongs(track: Track, results: seq<Option<YtResponse>>, i: nat)
    requires i < |results| && IsSong(results[i])
    ensures ScoreResult(track, results[i].value) in Candidates(track, results)
  {
    var init := results[..|results| - 1];
    if i < |results| - 1 {
      assert init[i] == results[i];
      CandidatesHoldSongs(track, init, i);
    }
  }

  /** The innermost loop of `_find_track`: the running minimum of the
      distances from one result artist to the source artists. */
  method LowestArtistDist(ytArtist: string, sources: seq<string>) returns (lowest: nat)
    ensures lowest == LowestDist(ytArtist, sources)
  {
    lowest := NoSourceArtist;
    var k := 0;
    while k < |sources|
      invariant 0 <= k <= |sources|
      invariant lowest == LowestDist(ytArtist, sources[..k])
    {
      var dist := Distance(ytArtist, sources[k]);
      if dist < lowest {
        lowest := dist;
      }
      assert sources[..k + 1][..k] == sources[..k];
      k := k + 1;
    }
    assert sources[..k] == sources;
  }

  /** The middle loop of `_find_track`: `artist_dist` of one result. */
  method ArtistDistance(names: seq<string>, sources: seq<string>) returns (artistDist: nat)
    ensures artistDist == ArtistDist(names, sources)
  {
    artistDist := 0;
    var j := 0;
    while j < |names|
      invariant 0 <= j <= |names|
      invariant artistDist == ArtistDist(names[..j], sources)
    {
      var lowest := LowestArtistDist(names[j], sources);
      artistDist := artistDist + lowest;
      assert names[..j + 1][..j] == names[..j];
      j := j + 1;
    }
    assert names[..j] == names;
  }

  /** `_find_track` on the given search results. */
  method FindTrack(track: Track, results: seq<Option<YtResponse>>) returns (id: Option<string>)
    ensures id == Select(track, results)
  {
    var withDist: seq<Scored> := [];
    var n := 0;
    while n < |results|
      invariant 0 <= n <= |results|
      invariant withDist == Candidates(track, results[..n])
    {
      var res := results[n];
      assert results[..n + 1][..n] == results[..n];
      if IsSong(res) {
        var titleDist := Distance(res.value.title, track.title);
        var albumDist := Distance(res.value.album.name.value, track.album);
        var artistDist := ArtistDistance(Names(res.value.artists), track.artists);
        var totalDist := titleDist * 2 + artistDist * 2 + albumDist;
        withDist := withDist + [Scored(totalDist, res.value.videoId)];
      }
      n := n + 1;
    }
    assert results[..n] == results;
    if |withDist| == 0 {
      return None;
    }
    withDist := SortByScore(withDist);
    if withDist[0].score > Threshold {
      return None;
    }
    return Some(withDist[0].videoId);
  }

  // ---------------------------------------------------------------------
  // Playlists

  /** The playlist call `add_playlist` ends in: a merge into an existing
      playlist (which does nothing), or the creation of a new one. */
  datatype PlaylistCall =
    | Merge(playlistId: string)
    | Create(title: string, description: string, privacy: string, videoIds: seq<string>)

  /** A library playlist as `get_library_playlists` lists it. */
  datatype LibraryPlaylist = LibraryPlaylist(title: string, playlistId: string)

  function Reverse(s: seq<string>): (r: seq<string>)
    ensures |r| == |s| && forall i :: 0 <= i < |s| ==> r[i] == s[|s| - 1 - i]
  {
    if s == [] then [] else [s[|s| - 1]] + Reverse(s[..|s| - 1])
  }

  lemma ReverseReverse(s: seq<string>)
    ensures Reverse(Reverse(s)) == s
  {
  }

  /** The ids found for the tracks, in track order; tracks without a match
      contribute nothing. */
  function Matches(tracks: seq<Track>, search: Track -> seq<Option<YtResponse>>): seq<string> {
    if tracks == [] then []
    else
      var t := tracks[|tracks| - 1];
      Matches(tracks[..|tracks| - 1], search) +
      (match Select(t, search(t)) case None => [] case Some(id) => [id])
  }

  /** One more track adds its selection, if any, to the found ids. */
  lemma MatchesStep(tracks: seq<Track>, search: Track -> seq<Option<YtResponse>>, n: nat)
    requires n < |tracks|
    ensures Matches(tracks[..n + 1], search) ==
            Matches(tracks[..n], search) +
            (match Select(tracks[n], search(tracks[n])) case None => [] case Some(id) => [id])
  {
    assert tracks[..n + 1][..n] == tracks[..n];
  }

  /** Each found id is the selection for some track, and at most one id is
      found per track. */
  lemma {:induction false} MatchesAreSelections(tracks: seq<Track>, search: Track -> seq<Option<YtResponse>>)
    ensures |Matches(tracks, search)| <= |tracks|
    ensures forall id :: id in Matches(tracks, search) ==>
              exists i :: 0 <= i < |tracks| && Select(tracks[i], search(tracks[i])) == Some(id)
  {
    if tracks != [] {
      var init := tracks[..|tracks| - 1];
      MatchesAreSelections(init, search);
      forall id | id in Matches(tracks, search)
        ensures exists i :: 0 <= i < |tracks| && Select(tracks[i], search(tracks[i])) == Some(id)
      {
        if id in Matches(init, search) {
          var i :| 0 <= i < |init| && Select(init[i], search(init[i])) == Some(id);
          assert tracks[i] == init[i];
        } else {
          assert Select(tracks[|tracks| - 1], search(tracks[|tracks| - 1])) == Some(id);
        }
      }
    }
  }

  /** `_create_playlist`: the ids found for the tracks, newest first, and the
      count `c` of tracks with a match. */
  method CreatePlaylist(name: string, tracks: seq<Track>, search: Track -> seq<Option<YtResponse>>)
    returns (call: PlaylistCall, c: nat)
    ensures call == Create(name, Description, Privacy, Reverse(Matches(tracks, search)))
    ensures c == |Matches(tracks, search)|
  {
    var trackIds: seq<string> := [];
    c := 0;
    var n := 0;
    while n < |tracks|
      invariant 0 <= n <= |tracks|
      invariant trackIds == Matches(tracks[..n], search)
      invariant c == |trackIds|
    {
      var track := tracks[n];
      MatchesStep(tracks, search, n);
      var trackId := FindTrack(track, search(track));
      if trackId.Some? {
        trackIds := trackIds + [trackId.value];
        c := c + 1;
      }
      n := n + 1;
    }
    assert tracks[..n] == tracks;
    trackIds := Reverse(trackIds);
    call := Create(name, Description, Privacy, trackIds);
  }

  /** The id of the first library playlist with the given title. */
  function FirstWithTitle(existing: seq<LibraryPlaylist>, name: string): (r: Option<string>)
    ensures r.None? <==> forall i :: 0 <= i < |existing| ==> existing[i].title != name
    ensures r.Some? ==> exists i :: 0 <= i < |existing| && existing[i].title == name &&
                          existing[i].playlistId == r.value &&
                          forall j :: 0 <= j < i ==> existing[j].title != name
  {
    if existing == [] then None
    else if existing[0].title == name then Some(existing[0].playlistId)
    else
      var r := FirstWithTitle(existing[1..], name);
      assert forall i :: 1 <= i < |existing| ==> existing[i] == existing[1..][i - 1];
      r
  }

  /** Playlists whose titles differ from `name`, listed before or after the
      library, do not change the lookup. */
  lemma {:induction false} FirstWithTitleIgnoresOthers(existing: seq<LibraryPlaylist>, extra: seq<LibraryPlaylist>,
                                                       name: string)
    requires forall i :: 0 <= i < |extra| ==> extra[i].title != name
    ensures FirstWithTitle(existing + extra, name) == FirstWithTitle(existing, name)
    ensures FirstWithTitle(extra + existing, name) == FirstWithTitle(existing, name)
  {
    AppendedOthers(existing, extra, name);
    PrependedOthers(existing, extra, name);
  }

  lemma {:induction false} AppendedOthers(existing: seq<LibraryPlaylist>, extra: seq<LibraryPlaylist>, name: string)
    requires forall i :: 0 <= i < |extra| ==> extra[i].title != name
    ensures FirstWithTitle(existing + extra, name) == FirstWithTitle(existing, name)
  {
    if existing == [] {
      assert existing + extra == extra;
    } else if existing[0].title != name {
      assert (existing + extra)[1..] == existing[1..] + extra;
      AppendedOthers(existing[1..], extra, name);
    }
  }

  lemma {:induction false} PrependedOthers(existing: seq<LibraryPlaylist>, extra: seq<LibraryPlaylist>, name: string)
    requires forall i :: 0 <= i < |extra| ==> extra[i].title != name
    ensures FirstWithTitle(extra + existing, name) == FirstWithTitle(existing, name)
  {
    if extra == [] {
      assert extra + existing == existing;
    } else {
      assert (extra + existing)[0] == extra[0];
      assert (extra + existing)[1..] == extra[1..] + existing;
      PrependedOthers(existing, extra[1..], name);
    }
  }

  /** The call `add_playlist` ends in: a merge exactly when some library
      playlist has the title `name`, into the first of them; otherwise a new
      private playlist holding the found ids, newest first. */
  function PlannedCall(name: string, tracks: seq<Track>, existing: seq<LibraryPlaylist>,
                       search: Track -> seq<Option<YtResponse>>): PlaylistCall
  {
    match FirstWithTitle(existing, name)
    case Some(id) => Merge(id)
    case None => Create(name, Description, Privacy, Reverse(Matches(tracks, search)))
  }

  /** What the planned call is, in terms of the library and the tracks. */
  lemma PlannedCallMeaning(name: string, tracks: seq<Track>, existing: seq<LibraryPlaylist>,
                           search: Track -> seq<Option<YtResponse>>)
    ensures var r := PlannedCall(name, tracks, existing, search);
            (r.Merge? <==> exists i :: 0 <= i < |existing| && existing[i].title == name) &&
            (r.Merge? ==> exists i :: 0 <= i < |existing| && existing[i].title == name &&
                            existing[i].playlistId == r.playlistId &&
                            forall j :: 0 <= j < i ==> existing[j].title != name) &&
            (r.Create? ==> r == Create(name, Description, Privacy, Reverse(Matches(tracks, search))))
  {
  }

  /** `add_playlist`: looks for the first library playlist titled `name`. */
  method AddPlaylist(name: string, tracks: seq<Track>, existing: seq<LibraryPlaylist>,
                     search: Track -> seq<Option<YtResponse>>)
    returns (call: PlaylistCall)
    ensures call == PlannedCall(name, tracks, existing, search)
  {
    var n := 0;
    while n < |existing|
      invariant 0 <= n <= |existing|
      invariant forall j :: 0 <= j < n ==> existing[j].title != name
    {
      if existing[n].title == name {
        call := Merge(existing[n].playlistId);
        return;
      }
      n := n + 1;
    }
    var c;
    call, c := CreatePlaylist(name, tracks, search);
  }
}
