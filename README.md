# Spotify to YouTube Music playlist sync, modelled in Dafny

This project models the core of a small tool that copies Spotify playlists
into a YouTube Music library. Three parts of the program are modelled.

- **Track normalization** (`track.py`). When a track is built, its title is
  rewritten. Featured artists in `(feat. …)` and `[feat. …]` clauses move
  into the artist list and the clause is cut from the title. Remix artists
  in ` - … Remix`, ` (… Remix)` and ` [… Remix]` clauses are added to the
  artist list and the clause stays. Extracted names are split on `", "`,
  then `" & "`, then `" x "`, and added when not already listed. Empty
  titles, albums and artist lists are rejected.
- **Matching** (`ytmusic_helper.py`). Each search result that is a song gets
  the score `2 * title distance + 2 * artist distance + album distance`,
  using Levenshtein distance. The lowest score wins; ties go to the earlier
  result, because the sort is stable. A best score above 50 means no match.
  A new playlist holds the found video ids, newest first. A library playlist
  with the same name is merged into instead, and the merge does nothing.
- **Configuration and entry point** (`main.py`). Sections named
  `playlist…`, but not `playlist` itself, are the playlists. Their
  `spotify_url` is cleaned to a bare playlist id, and that cleaned value is
  written back into the configuration. The run stops when there is no
  playlist section, or when two Spotify playlists have the same name.

Modules:

- `Wrappers`: `Option`, `Result`, `Outcome`.
- `Text`: the Python string and regular-expression operations the program
  uses, as explicit searches. These are `in`, `re.search` and `re.sub` with
  a greedy `X.*Y` pattern, `strip`, `split` and `replace`.
- `Levenshtein`: edit distance with unit weights. `Distance` models
  `Levenshtein.distance`.
- `Tracks`: `track.py`. `BaseTrack` is a class whose methods change its
  fields.
  - `Rewrite` models the title and artist rewriting of `__post_init__`, and
    `Normalize` models it with the final emptiness checks.
  - `ExtraArtistNames` and `AddNew` model `_split_and_add_extra_artists`.
  - `SpotifyTrackFromResponse` and `YtMusicTrackFromResponse` model the two
    `from_response` methods.
- `TrackExamples`: worked titles, plus the counterexample to idempotent
  normalization.
- `YTMusicHelper`: `ytmusic_helper.py`.
  - `Score` and `Select` model `_find_track`.
  - `Matches` and `Reverse` model the id list of `_create_playlist`.
  - `PlannedCall` models `add_playlist`.
- `PlaylistConfig`: `main.py`. `Config` is a class that `ParsePlaylists`
  updates in place.
  - `ParsedPlaylists` models the result of `parse_playlists`, and
    `RewriteSections` models its write-back.
  - `SyncOutcome` models the `__main__` block after the configuration is
    read.

Every method with a loop is proved equal to a specification function. The
properties are proved as lemmas about those functions. Network results are
parameters:

- `results` is what one search returned;
- `search` is the search as a function of the track;
- `existing` is the list of library playlists;
- `fetch` is the Spotify playlist lookup;
- `albumArtist` is the album artist fetched when a result lists no artist.

## Model

| member | source | states |
|---|---|---|
| Text.ContainsIffFound | track.py:16 | a substring test succeeds exactly when a first occurrence exists |
| Text.GreedySearchIsLeftmostLongest | track.py:17 | the search for `open.*close` succeeds iff some match exists; the match found starts leftmost and ends at the last `close` |
| Text.SubstitutionRemovesOneMatch | track.py:22 | after the greedy match there is no further match, so the substitution removes exactly one clause |
| Text.StripCharsMeaning | track.py:19 | stripping a character set removes a prefix and suffix made only of those characters and leaves an end that is not one |
| Text.JoinSplit | track.py:58 | joining the pieces of a split with the separator gives back the string |
| Text.ReplaceAllIsJoinOfSplit | track.py:19 | replacing every occurrence equals splitting on the pattern and joining with the replacement |
| Text.SplitPiecesLackSeparator | track.py:58 | no piece of a split contains the separator |
| Text.TrimStart | track.py:22 | leading whitespace removal drops only trimmed characters and stops at a kept one |
| Text.TrimEnd | track.py:22 | trailing whitespace removal drops only trimmed characters and stops at a kept one |
| Text.IndexFrom | track.py:17 | a forward search returns the first occurrence at or after the start, or reports none |
| Text.LastIndexFrom | track.py:17 | a backward search returns the last occurrence at or after the start, or reports none |
| Levenshtein.DistanceToSelf | ytmusic_helper.py:63 | a string is at distance 0 from itself |
| Levenshtein.DistanceZeroIffEqual | ytmusic_helper.py:63-64 | distance is 0 exactly when the strings are equal |
| Levenshtein.DistanceSymmetric | ytmusic_helper.py:70 | distance does not depend on argument order |
| Levenshtein.DistanceAtMostLonger | ytmusic_helper.py:63-64 | distance is at most the longer length |
| Levenshtein.DistanceAtLeastLengthGap | ytmusic_helper.py:63-64 | distance is at least the difference of lengths |
| Tracks.BaseTrack.constructor | track.py:9-13 | the dataclass fields hold the given title, artists and album |
| Tracks.BaseTrack.PostInit | track.py:15-55 | the new title and artists are the rewritten ones, the album is unchanged, and the outcome passes exactly when normalization yields that track, or fails with normalization's error |
| Tracks.BaseTrack.ApplyClause | track.py:16-48 | one annotation branch changes title and artists as the clause step says and keeps the album |
| Tracks.BaseTrack.SplitAndAddExtraArtists | track.py:57-73 | the artists become the old artists plus the split extra names not yet present; title and album are unchanged |
| Tracks.SplitEach | track.py:60-69 | one in-place splitting loop computes the splitting pass on that separator |
| Tracks.AppendNew | track.py:71-73 | the append loop adds each name not already in the list, in order |
| Tracks.AddNewAppendsOnlyNewNames | track.py:71-73 | the old artists stay a prefix, the result holds exactly the old and the new names, and a duplicate-free list stays duplicate-free |
| Tracks.SplitPassTokensAreFree | track.py:60-69 | after a splitting pass no name contains that separator |
| Tracks.SplitPassIsIdempotent | track.py:60-69 | a second pass on the same separator changes nothing |
| Tracks.ClauseStepKeepsArtists | track.py:16-48 | one branch only adds artists and keeps them duplicate-free |
| Tracks.RewriteKeepsArtists | track.py:15-48 | rewriting keeps the original artists as a prefix and introduces no duplicate |
| Tracks.RemixClausesKeepTitle | track.py:32-48 | the remix branches never change the title |
| Tracks.RewriteTitleIsFeaturingTitle | track.py:15-48 | the final title is decided by the two featuring branches alone |
| Tracks.FeaturingStepCutsClause | track.py:16-22 | when a `(feat…)` match exists, the title becomes the text around the greedy match, stripped |
| Tracks.FeaturingStepWithoutClose | track.py:16-22 | with the marker present but no closing bracket after it, the artists are unchanged and the title is only stripped |
| Tracks.FeaturingStepWithoutOpen | track.py:16 | without the marker the featuring branch changes nothing |
| Tracks.SpaceFreeTitleExtractsNothing | track.py:17 | every extraction pattern needs a space, so a title without one yields no artists |
| Tracks.SpaceFreeBracketClauseIsCut | track.py:24-30 | a `[feat…]` clause in a title without spaces and without `(feat` is cut although no artist is extracted |
| Tracks.PlainTitleIsKept | track.py:16-48 | a title without brackets or hyphens passes all branches unchanged |
| Tracks.NormalizedTrackIsValid | track.py:50-55 | an accepted track has a non-empty title, album and artist list that extends the input artists; an empty album is rejected; the empty-artists error needs empty input artists |
| Tracks.SpotifyTrackFromResponse | track.py:78-81 | the album is the response's album name, the response's artists come first, and an empty album name is rejected |
| Tracks.YtMusicTrackFromResponse | track.py:88-104 | results that are not songs give no track; otherwise the video id and album come from the response and listed artists come first |
| TrackExamples.FeaturingClauseMovesArtists | track.py:16-22 | a `song (feat. text)` title becomes `song` with the names from `text` added |
| TrackExamples.RemixClauseAddsArtists | track.py:32-36 | a `song - text Remix` title is kept and gains the names from `text` |
| TrackExamples.PlainNameIsOneArtist | track.py:57-69 | a plain name is extracted as a single artist |
| TrackExamples.AmpersandPairIsTwoArtists | track.py:58-64 | `a & b` is extracted as the two artists `a` and `b` |
| TrackExamples.WithoutMeExample | track.py:15-22 | `Without Me (feat. A & B)` by Halsey becomes `Without Me` by Halsey, A, B |
| TrackExamples.LevitatingExample | track.py:32-36 | `Levitating - Dua Lipa Remix` by Dua Lipa keeps its title and its single artist |
| TrackExamples.NestedClauseFirstPass | track.py:16-30 | `(fe[feat]at)` rewrites to `(feat)` |
| TrackExamples.BareClauseIsCut | track.py:16-22 | `(feat)` rewrites to the empty title |
| TrackExamples.NormalizeIsNotIdempotent | track.py:15-55 | a title that normalizes to `(feat)` is rejected when normalized again |
| YTMusicHelper.LowestDist | ytmusic_helper.py:68-72 | the running minimum is at most 999, at most the distance to every source artist, and is 999 or one of those distances |
| YTMusicHelper.LowestDistZeroIff | ytmusic_helper.py:68-72 | the minimum is 0 exactly when the artist is among the source artists |
| YTMusicHelper.LowestArtistDist | ytmusic_helper.py:68-72 | the inner loop computes that minimum |
| YTMusicHelper.ArtistDist | ytmusic_helper.py:66-73 | the artist distance is at most 999 per result artist |
| YTMusicHelper.ArtistDistance | ytmusic_helper.py:66-73 | the outer loop computes the artist distance |
| YTMusicHelper.ArtistDistWithoutSources | ytmusic_helper.py:66-73 | with no source artists each result artist costs 999 |
| YTMusicHelper.ArtistDistZeroIff | ytmusic_helper.py:66-73 | the artist distance is 0 exactly when every result artist is a source artist |
| YTMusicHelper.ScoreZeroIff | ytmusic_helper.py:63-77 | the score is 0 exactly when title and album are equal and every result artist is a source artist |
| YTMusicHelper.CandidatesComeFromSongs | ytmusic_helper.py:58-79 | every scored entry is the score of a result that is a song |
| YTMusicHelper.CandidatesHoldSongs | ytmusic_helper.py:59-79 | every song result is scored |
| YTMusicHelper.NonSongIsNeverSelected | ytmusic_helper.py:59-61 | an id that no song result carries is never chosen |
| YTMusicHelper.CandidatesEmptyIff | ytmusic_helper.py:58-82 | there is nothing to choose from exactly when no result is a song |
| YTMusicHelper.SortByScoreIsSortedPermutation | ytmusic_helper.py:84 | the sort orders by score and is a permutation |
| YTMusicHelper.MinIndex | ytmusic_helper.py:84 | the earliest entry with the lowest score |
| YTMusicHelper.SortByScoreHead | ytmusic_helper.py:84 | the first entry after the stable sort is the earliest lowest-scored one |
| YTMusicHelper.SelectIsEarliestMinimum | ytmusic_helper.py:81-89 | the choice is that entry's id unless there is none or its score exceeds 50 |
| YTMusicHelper.SelectNoneIff | ytmusic_helper.py:81-87 | no id is returned exactly when every song scores above 50 |
| YTMusicHelper.SelectedIsBestSong | ytmusic_helper.py:55-89 | a returned id belongs to a song whose score is at most 50 and no higher than any other |
| YTMusicHelper.PerfectResultIsAccepted | ytmusic_helper.py:63-89 | a song with the same title and album and only known artists scores 0, so some id is returned |
| YTMusicHelper.FindTrack | ytmusic_helper.py:55-89 | the scoring loop, sort and threshold test compute that choice |
| YTMusicHelper.Reverse | ytmusic_helper.py:46 | the id list is reversed position by position |
| YTMusicHelper.ReverseReverse | ytmusic_helper.py:46 | reversing twice gives back the list |
| YTMusicHelper.MatchesAreSelections | ytmusic_helper.py:32-41 | at most one id per track, and each id is the match chosen for some track |
| YTMusicHelper.CreatePlaylist | ytmusic_helper.py:31-50 | the created playlist holds the matches newest first, private, under the fixed description; the counter equals the number of matches |
| YTMusicHelper.FirstWithTitleIgnoresOthers | ytmusic_helper.py:22-27 | playlists titled differently from `name`, listed before or after the library, do not change which playlist the lookup finds |
| YTMusicHelper.FirstWithTitle | ytmusic_helper.py:24-27 | the id of the first library playlist with that title, or none exactly when no title is equal |
| YTMusicHelper.PlannedCallMeaning | ytmusic_helper.py:21-29 | a merge is planned exactly when a library playlist has that name, into the first such playlist; otherwise a new playlist is created |
| YTMusicHelper.AddPlaylist | ytmusic_helper.py:21-29 | the library scan makes that decision |
| PlaylistConfig.Config.constructor | main.py:9-15 | the parsed configuration holds the given distinct sections and their values |
| PlaylistConfig.PlaylistSections | main.py:18-21 | the kept names are exactly the playlist sections, and there are no more of them than sections |
| PlaylistConfig.PlaylistSectionsOfConcat | main.py:19-21 | the filter distributes over concatenation, so file order is kept |
| PlaylistConfig.PlaylistSectionsEmptyIff | main.py:19-21 | the filter is empty exactly when no section is a playlist section |
| PlaylistConfig.PlaylistSectionsAreDistinct | main.py:19-21 | distinct section names give distinct playlist names |
| PlaylistConfig.FilterPlaylistSections | main.py:18-21 | the section loop computes the filter |
| PlaylistConfig.CleanUrl | main.py:27-30 | the cleaned URL has no `?` and is the prefix of the de-linked URL up to its first `?` |
| PlaylistConfig.ShareLinkIsCleanedToId | main.py:27-31 | a share link with or without a query, and a bare id, all clean to the id |
| PlaylistConfig.FirstWithoutUrl | main.py:26-27 | the first playlist without a `spotify_url`, or none exactly when all have one |
| PlaylistConfig.CleanedCount | main.py:26-31 | how many playlists are rewritten before the loop stops |
| PlaylistConfig.RewriteSectionsAt | main.py:26-31 | the rewrite cleans exactly the named sections and leaves the others unchanged |
| PlaylistConfig.ParsedPlaylists | main.py:17-33 | failure exactly when a playlist section lacks `spotify_url`; on success one cleaned section per playlist section, in order, each with a URL |
| PlaylistConfig.CleanUrls | main.py:26-31 | the URL loop stops at the first playlist without a URL and rewrites the ones before it |
| PlaylistConfig.ParseSections | main.py:17-33 | the parse result, and the configuration values with the cleaned URLs written back |
| PlaylistConfig.ParsePlaylists | main.py:17-33 | the configuration object keeps its sections, receives the cleaned URLs, and the result is the parse result |
| PlaylistConfig.PlaylistDataOkIff | main.py:48-53 | collection succeeds exactly when the fetched names are distinct; otherwise the error is a duplicate name |
| PlaylistConfig.PlaylistDataKeys | main.py:48-53 | the collected map's keys are the fetched names |
| PlaylistConfig.PlaylistDataValues | main.py:48-53 | each fetched playlist's tracks are stored under its name |
| PlaylistConfig.PlaylistDataPrefixFails | main.py:49-52 | once collection fails on a prefix it fails the same way on the whole list |
| PlaylistConfig.CollectPlaylistData | main.py:48-53 | the collection loop computes the collected map and the insertion order |
| PlaylistConfig.AddPlaylists | main.py:55-56 | one call per playlist, in insertion order, each as the helper plans it |
| PlaylistConfig.Sync | main.py:35-56 | the whole run ends as the entry point's outcome function says; the configuration keeps its sections and holds the cleaned URLs that parsing wrote back |
| PlaylistConfig.EmptyPlaylistListIsRejected | main.py:38-40 | without playlist sections the run stops with the no-playlist error |
| PlaylistConfig.DuplicateNamesAreRejected | main.py:48-56 | with playlists present, the run fails exactly when two fetched names are equal, always with the duplicate-name error, and otherwise plans one call per playlist |

## Left out

- `spotify_helper.py` is not part of this model. Its playlist lookup is the
  `fetch` parameter, and its track objects are `Track` values.
- Network calls, OAuth and the `oauth.json` file test are left out: the
  search, the library listing, the Spotify lookup and the album lookup are
  parameters. `authorize` and `__init__` of `YTMusicHelper` are not
  modelled. The search query text and its filter and limit are not
  modelled; `search` receives the track itself.
- Reading `config.ini` is not modelled: `read_config`, the missing-file
  error, the `DEFAULT` section and `ConfigParser`'s lower-casing of keys.
  `Config` starts from the parsed section names and values.
- The `spotify` section handed to the Spotify helper is not modelled.
- Printed progress messages are left out. Exceptions are modelled as
  `Result` errors. A missing `spotify_url` is a `KeyError` in the program
  and `MissingSpotifyUrl` here.
- The `create_playlist` and merge calls are not executed; they are
  returned as `PlaylistCall` values, and merging does nothing, as in the
  program.
- The model reuses one library listing, `existing`, for every playlist of
  the run, where the program lists the library again before each one. This
  changes no decision when nothing outside the run edits the library. The
  run's names are distinct (`PlaylistDataOkIff`), so each playlist the run
  created earlier has a title different from the later name.
  `YTMusicHelper.FirstWithTitleIgnoresOthers` shows that such playlists,
  listed before or after the rest, do not change the lookup.
- YTMusicHelper.SortByScore: the in-place stable `sort` is a functional
  stable insertion sort. The lemmas prove it is sorted, a permutation, and
  that its head is the earliest lowest-scored entry, which is all that
  `_find_track` reads. Full stability is not stated.
- PlaylistConfig.ParsePlaylists: the program writes each cleaned URL back
  into the configuration one by one. The model computes all the new values
  first and assigns them once; the final state is the same.
- Tracks.BaseTrack.constructor: the program stores the caller's list
  object in `self.artists`. The appends of track.py:73 therefore also
  change the caller's list. The model copies a `seq`, so the caller's value
  never changes. The `from_response` methods build fresh lists, so no
  modelled caller sees the difference.
- Tracks.BaseTrack.SplitAndAddExtraArtists: the program appends to
  `self.artists` one name at a time. The model computes the new list in
  `AppendNew` and assigns it once.
- Tracks.Normalize: normalization is not idempotent.
  `TrackExamples.NormalizeIsNotIdempotent` shows that `(fe[feat]at)`
  becomes `(feat)`, which then normalizes to an empty title and is
  rejected.
- A best score of exactly 50 is accepted, because only scores above 50 are
  rejected.
- The score weights are 2, 2 and 1.
- There is no artist-count guard and no dropping of the worst artist.
- The title is stripped only in the two featuring branches.
- Missing keys in responses are not modelled. The response types always
  carry a title, an artist list, a video id, a name for each artist, and
  the Spotify name and album name. In the program a missing key is a
  `KeyError` that aborts the run (ytmusic_helper.py:63, 67, 79;
  track.py:79-81, 92-104). Only the album checks of ytmusic_helper.py:60
  and track.py:89 are modelled.
- Newlines in titles are not modelled. The model's `.*` matches every
  character, but Python's `.` does not match a newline. So `\(feat.*\)` and
  the other patterns behave differently on a title that contains one.
- Python strings are sequences of characters. Unicode case and
  normalization play no part in the program's comparisons.
