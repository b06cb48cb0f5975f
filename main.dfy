/** The configuration side of main.py: which sections of the configuration
    are playlists, how their Spotify links are cleaned, and the checks the
    entry point makes before it syncs anything. The parsed configuration is
    a `Config` object: its section names in file order and the key/value
    pairs of each section. */
module PlaylistConfig {
  import opened Wrappers
  import opened Text
  import opened Tracks
  import opened YTMusicHelper

  const PlaylistPrefix: string := "playlist"
  const UrlKey: string := "spotify_url"
  const ShareLinkPrefix: string := "https://open.spotify.com/playlist/"

  /** The key/value pairs of one configuration section. */
  type Section = map<string, string>

  /** The errors the entry point can end in before syncing: a playlist
      section without `spotify_url` (a `KeyError`), no playlist section at
      all, and two Spotify playlists with the same name. */
  datatype ConfigError = MissingSpotifyUrl(section: string) | NoPlaylists | DuplicateName(name: string)

  /** The parsed configuration file. Section names are distinct, and every
      listed section has its key/value pairs. */
  class Config {
    var sections: seq<string>
    var values: map<string, Section>

    predicate Valid()
      reads this
    {
      NoDuplicates(sections) && forall s :: s in sections ==> s in values
    }

    constructor (sections: seq<string>, values: map<string, Section>)
      requires NoDuplicates(sections) && forall s :: s in sections ==> s in values
      ensures Valid() && this.sections == sections && this.values == values
    {
      this.sections := sections;
      this.values := values;
    }
  }

  // ---------------------------------------------------------------------
  // Sections

  /** A section is a playlist when its name starts with `playlist` and is
      not `playlist` itself. */
  predicate IsPlaylistSection(name: string) {
    StartsWith(name, PlaylistPrefix) && name != PlaylistPrefix
  }

  /** `playlist_sections`: the playlist section names, in file order. */
  function PlaylistSections(sections: seq<string>): (r: seq<string>)
    ensures |r| <= |sections|
    ensures forall s :: s in r <==> s in sections && IsPlaylistSection(s)
  {
    if sections == [] then []
    else
      var last := sections[|sections| - 1];
      assert sections == sections[..|sections| - 1] + [last];
      PlaylistSections(sections[..|sections| - 1]) + (if IsPlaylistSection(last) then [last] else [])
  }

  /** The filter keeps file order: the playlist sections of two runs of
      sections are those of the first followed by those of the second. */
  lemma {:induction false} PlaylistSectionsOfConcat(a: seq<string>, b: seq<string>)
    decreases |b|
    ensures PlaylistSections(a + b) == PlaylistSections(a) + PlaylistSections(b)
  {
    if b == [] {
      assert a + b == a;
    } else {
      var init, last := b[..|b| - 1], b[|b| - 1];
      var tail := if IsPlaylistSection(last) then [last] else [];
      PlaylistSectionsOfConcat(a, init);
      assert (a + b)[..|a + b| - 1] == a + init;
      assert (a + b)[|a + b| - 1] == last;
      assert PlaylistSections(a + b) == PlaylistSections(a + init) + tail;
      assert PlaylistSections(b) == PlaylistSections(init) + tail;
    }
  }

  /** No section is kept exactly when no section is a playlist section. */
  lemma {:induction false} PlaylistSectionsEmptyIff(sections: seq<string>)
    ensures PlaylistSections(sections) == [] <==> forall s :: s in sections ==> !IsPlaylistSection(s)
  {
    if sections != [] {
      var init := sections[..|sections| - 1];
      PlaylistSectionsEmptyIff(init);
      assert sections == init + [sections[|sections| - 1]];
    }
  }

  /** Distinct section names give distinct playlist section names. */
  lemma {:induction false} PlaylistSectionsAreDistinct(sections: seq<string>)
    requires NoDuplicates(sections)
    ensures NoDuplicates(PlaylistSections(sections))
  {
    if sections != [] {
      var init, last := sections[..|sections| - 1], sections[|sections| - 1];
      assert NoDuplicates(init) by {
        forall i, j | 0 <= i < j < |init| ensures init[i] != init[j] {
          assert init[i] == sections[i] && init[j] == sections[j];
        }
      }
      PlaylistSectionsAreDistinct(init);
      assert last !in init by {
        forall i | 0 <= i < |init| ensures init[i] != last {
          assert init[i] == sections[i];
        }
      }
    }
  }

  // ---------------------------------------------------------------------
  // URLs

  /** The cleaning of one `spotify_url`: every occurrence of the share-link
      prefix is removed, then the text is cut at its first `?`, if any. */
  function CleanUrl(url: string): (r: string)
    ensures '?' !in r
    ensures var u := ReplaceAll(url, ShareLinkPrefix, "");
            r <= u && (|r| < |u| ==> u[|r|] == '?')
  {
    var u := ReplaceAll(url, ShareLinkPrefix, "");
    if '?' in u then
      FirstPieceLacksChar(u, '?');
      FirstPieceIsCut(u);
      Split(u, "?")[0]
    else u
  }

  /** The first piece of a split at `?` is the text before the first `?`. */
  lemma FirstPieceIsCut(u: string)
    ensures var r := Split(u, "?")[0];
            r <= u && (|r| < |u| ==> u[|r|] == '?')
  {
    match FirstIndexOf(u, "?")
    case None =>
    case Some(i) =>
      assert Split(u, "?")[0] == u[..i];
      assert u[i..i + 1] == "?";
  }

  /** The share-link prefix holds its only `:` at position 5. */
  lemma ShareLinkColon()
    ensures |ShareLinkPrefix| > 5 && ShareLinkPrefix[5] == ':' && ':' !in ShareLinkPrefix[..5]
  {
    assert ShareLinkPrefix[..5] == "https";
  }

  /** A text without `:` has no share-link prefix to remove. */
  lemma CleanUrlOfPlainText(u: string)
    requires ':' !in u
    ensures CleanUrl(u) == if '?' in u then Split(u, "?")[0] else u
  {
    ShareLinkColon();
    AbsentPattern(u, ShareLinkPrefix, 5);
    ReplaceAllWithoutPattern(u, ShareLinkPrefix, "");
  }

  /** The prefix in front of a text without `:` is removed. */
  lemma CleanUrlOfLink(rest: string)
    requires ':' !in rest
    ensures CleanUrl(ShareLinkPrefix + rest) == CleanUrl(rest)
  {
    ShareLinkColon();
    RemoveLeadingPattern(ShareLinkPrefix, rest, 5);
    CleanUrlOfPlainText(rest);
  }

  /** An id without `?` and `:` is kept as it is. */
  lemma CleanUrlOfId(id: string)
    requires ':' !in id && '?' !in id
    ensures CleanUrl(id) == id
  {
    CleanUrlOfPlainText(id);
  }

  /** An id followed by a query loses the query. */
  lemma CleanUrlOfIdAndQuery(id: string, query: string)
    requires ':' !in id && '?' !in id && ':' !in query
    ensures CleanUrl(id + "?" + query) == id
  {
    var u := id + "?" + query;
    assert ':' !in u && '?' in u by {
      assert u[|id|] == '?';
    }
    CleanUrlOfPlainText(u);
    SplitAfter(id, "?", query, 0);
  }

  /** A share link `https://open.spotify.com/playlist/<id>?<query>` is
      cleaned to its id, and so are a link without a query and a bare id. */
  lemma ShareLinkIsCleanedToId(id: string, query: string)
    requires ':' !in id && '?' !in id && ':' !in query
    ensures CleanUrl(ShareLinkPrefix + id + "?" + query) == id
    ensures CleanUrl(ShareLinkPrefix + id) == id
    ensures CleanUrl(id) == id
  {
    CleanUrlOfId(id);
    CleanUrlOfLink(id);
    CleanUrlOfIdAndQuery(id, query);
    var rest := id + "?" + query;
    assert ':' !in rest;
    CleanUrlOfLink(rest);
    LinkRegrouped(ShareLinkPrefix, id, query);
  }

  /** The link text regrouped as the prefix followed by the rest. */
  lemma LinkRegrouped(pre: string, id: string, query: string)
    ensures pre + id + "?" + query == pre + (id + "?" + query)
  {
  }

  /** A section with its `spotify_url` cleaned; no other key changes. */
  function CleanSection(sec: Section): (r: Section)
    requires UrlKey in sec
    ensures r.Keys == sec.Keys && r[UrlKey] == CleanUrl(sec[UrlKey])
    ensures forall k :: k in sec && k != UrlKey ==> r[k] == sec[k]
  {
    sec[UrlKey := CleanUrl(sec[UrlKey])]
  }

  // ---------------------------------------------------------------------
  // parse_playlists

  /** The position of the first of `names` whose section has no
      `spotify_url`. */
  function FirstWithoutUrl(values: map<string, Section>, names: seq<string>): (r: Option<nat>)
    requires forall n :: n in names ==> n in values
    ensures r.None? <==> forall i :: 0 <= i < |names| ==> UrlKey in values[names[i]]
    ensures r.Some? ==> r.value < |names| && UrlKey !in values[names[r.value]] &&
                        forall i :: 0 <= i < r.value ==> UrlKey in values[names[i]]
  {
    if names == [] then None
    else if UrlKey !in values[names[0]] then Some(0)
    else
      assert forall i :: 1 <= i < |names| ==> names[i] == names[1..][i - 1];
      match FirstWithoutUrl(values, names[1..])
      case None => None
      case Some(i) => Some(i + 1)
  }

  /** The sections after cleaning the `spotify_url` of each of `names`. */
  function RewriteSections(values: map<string, Section>, names: seq<string>): (r: map<string, Section>)
    requires forall j :: 0 <= j < |names| ==> names[j] in values && UrlKey in values[names[j]]
    ensures r.Keys == values.Keys
  {
    if names == [] then values
    else
      var last := names[|names| - 1];
      RewriteSections(values, names[..|names| - 1])[last := CleanSection(values[last])]
  }

  /** Exactly the sections of `names` are cleaned; the others and the set of
      section names stay as they were. */
  lemma RewriteSectionsAt(values: map<string, Section>, names: seq<string>)
    requires forall j :: 0 <= j < |names| ==> names[j] in values && UrlKey in values[names[j]]
    ensures forall s :: s in values ==>
              RewriteSections(values, names)[s] == if s in names then CleanSection(values[s]) else values[s]
  {
    forall s | s in values
      ensures RewriteSections(values, names)[s] == if s in names then CleanSection(values[s]) else values[s]
    {
      RewriteSectionAt(values, names, s);
    }
  }

  /** One section after the cleaning of `names`. */
  lemma {:induction false} RewriteSectionAt(values: map<string, Section>, names: seq<string>, s: string)
    requires forall j :: 0 <= j < |names| ==> names[j] in values && UrlKey in values[names[j]]
    requires s in values
    ensures RewriteSections(values, names)[s] == if s in names then CleanSection(values[s]) else values[s]
  {
    if names != [] {
      var init, last := names[..|names| - 1], names[|names| - 1];
      assert names == init + [last];
      if s != last {
        RewriteSectionAt(values, init, s);
      }
    }
  }

  /** How far the cleaning loop gets: up to the first section without
      `spotify_url`, or through all playlist sections. */
  function CleanedCount(values: map<string, Section>, names: seq<string>): (n: nat)
    requires forall s :: s in names ==> s in values
    ensures n <= |names| && forall i :: 0 <= i < n ==> UrlKey in values[names[i]]
  {
    match FirstWithoutUrl(values, names)
    case None => |names|
    case Some(i) => i
  }

  /** What `parse_playlists` returns: the playlist sections in file order,
      each with its `spotify_url` cleaned, or the `KeyError` of the first
      playlist section without one. */
  function ParsedPlaylists(sections: seq<string>, values: map<string, Section>): (r: Result<seq<Section>, ConfigError>)
    requires forall s :: s in sections ==> s in values
    ensures r.Err? <==> exists s :: s in PlaylistSections(sections) && UrlKey !in values[s]
    ensures r.Err? ==> r.error.MissingSpotifyUrl? && r.error.section in PlaylistSections(sections)
    ensures r.Ok? ==> var names := PlaylistSections(sections);
                      |r.value| == |names| &&
                      forall i :: 0 <= i < |names| ==> r.value[i] == CleanSection(values[names[i]])
    ensures r.Ok? ==> forall p :: p in r.value ==> UrlKey in p
  {
    var names := PlaylistSections(sections);
    match FirstWithoutUrl(values, names)
    case Some(i) => Err(MissingSpotifyUrl(names[i]))
    case None =>
      Ok(seq(|names|, i requires 0 <= i < |names| => CleanSection(values[names[i]])))
  }

  /** The first loop of `parse_playlists`: the playlist section names. */
  method FilterPlaylistSections(sections: seq<string>) returns (playlistSections: seq<string>)
    ensures playlistSections == PlaylistSections(sections)
  {
    playlistSections := [];
    var n := 0;
    while n < |sections|
      invariant 0 <= n <= |sections|
      invariant playlistSections == PlaylistSections(sections[..n])
    {
      var section := sections[n];
      assert sections[..n + 1] == sections[..n] + [section];
      if IsPlaylistSection(section) {
        playlistSections := playlistSections + [section];
      }
      n := n + 1;
    }
    assert sections[..n] == sections;
  }

  /** The sections of `names`, in that order. */
  function SectionsOf(values: map<string, Section>, names: seq<string>): (r: seq<Section>)
    requires forall j :: 0 <= j < |names| ==> names[j] in values
    ensures |r| == |names| && forall j :: 0 <= j < |names| ==> r[j] == values[names[j]]
  {
    seq(|names|, j requires 0 <= j < |names| => values[names[j]])
  }

  /** `parse_playlists`: the cleaned URLs are written back into the
      configuration, section by section, until a playlist section without
      `spotify_url` stops the loop. */
  method ParsePlaylists(config: Config) returns (r: Result<seq<Section>, ConfigError>)
    requires config.Valid()
    modifies config
    ensures config.sections == old(config.sections) && config.Valid()
    ensures r == ParsedPlaylists(old(config.sections), old(config.values))
    ensures var names := PlaylistSections(old(config.sections));
            config.values == RewriteSections(old(config.values), names[..CleanedCount(old(config.values), names)])
  {
    var cleaned;
    r, cleaned := ParseSections(config.sections, config.values);
    config.values := cleaned;
  }

  /** `parse_playlists` on the section names and their key/value pairs: the
      result, and the key/value pairs after the cleaning loop. */
  method ParseSections(sections: seq<string>, values: map<string, Section>)
    returns (r: Result<seq<Section>, ConfigError>, cleaned: map<string, Section>)
    requires NoDuplicates(sections) && forall s :: s in sections ==> s in values
    ensures r == ParsedPlaylists(sections, values)
    ensures cleaned.Keys == values.Keys
    ensures var names := PlaylistSections(sections);
            cleaned == RewriteSections(values, names[..CleanedCount(values, names)])
  {
    var names := FilterPlaylistSections(sections);
    PlaylistSectionsAreDistinct(sections);
    var stop;
    stop, cleaned := CleanUrls(values, names);
    if stop.Some? {
      r := Err(MissingSpotifyUrl(names[stop.value]));
      ParsedPlaylistsStopsAt(sections, values, stop.value);
    } else {
      ParsedPlaylistsAll(sections, values);
      assert names[..|names|] == names;
      r := Ok(SectionsOf(cleaned, names));
    }
  }

  /** The cleaning loop of `parse_playlists` over the given distinct
      sections: it stops at the first one without `spotify_url`, whose
      position it returns, with the sections cleaned so far. */
  method CleanUrls(values: map<string, Section>, names: seq<string>) returns (stop: Option<nat>, cleaned: map<string, Section>)
    requires NoDuplicates(names) && forall j :: 0 <= j < |names| ==> names[j] in values
    ensures stop == FirstWithoutUrl(values, names)
    ensures cleaned.Keys == values.Keys
    ensures cleaned == RewriteSections(values, names[..CleanedCount(values, names)])
  {
    cleaned := values;
    var i := 0;
    while i < |names|
      invariant 0 <= i <= |names|
      invariant forall j :: 0 <= j < i ==> UrlKey in values[names[j]]
      invariant cleaned == RewriteSections(values, names[..i])
      invariant cleaned.Keys == values.Keys
    {
      var name := names[i];
      assert name !in names[..i];
      RewriteSectionsAt(values, names[..i]);
      if UrlKey !in cleaned[name] {
        FirstWithoutUrlIs(values, names, i);
        return Some(i), cleaned;
      }
      var url := CleanUrl(cleaned[name][UrlKey]);
      RewriteSectionsStep(values, names, i);
      cleaned := cleaned[name := cleaned[name][UrlKey := url]];
      i := i + 1;
    }
    FirstWithoutUrlNone(values, names);
    assert names[..i] == names;
    return None, cleaned;
  }

  /** The first position without `spotify_url`, located. */
  lemma FirstWithoutUrlIs(values: map<string, Section>, names: seq<string>, i: nat)
    requires forall n :: n in names ==> n in values
    requires i < |names| && UrlKey !in values[names[i]] && forall j :: 0 <= j < i ==> UrlKey in values[names[j]]
    ensures FirstWithoutUrl(values, names) == Some(i) && CleanedCount(values, names) == i
  {
    var r := FirstWithoutUrl(values, names);
    assert r.Some?;
    assert !(r.value < i) && !(i < r.value);
  }

  /** With every section holding `spotify_url`, no position is found. */
  lemma FirstWithoutUrlNone(values: map<string, Section>, names: seq<string>)
    requires forall n :: n in names ==> n in values
    requires forall j :: 0 <= j < |names| ==> UrlKey in values[names[j]]
    ensures FirstWithoutUrl(values, names) == None && CleanedCount(values, names) == |names|
  {
  }

  /** Cleaning one more section updates that section only. */
  lemma RewriteSectionsStep(values: map<string, Section>, names: seq<string>, i: nat)
    requires i < |names|
    requires forall j :: 0 <= j <= i ==> names[j] in values && UrlKey in values[names[j]]
    ensures RewriteSections(values, names[..i + 1]) ==
            RewriteSections(values, names[..i])[names[i] := CleanSection(values[names[i]])]
  {
    assert names[..i + 1][..i] == names[..i];
  }

  /** Where the cleaning loop meets a playlist section without
      `spotify_url`, parsing fails with that section's name. */
  lemma ParsedPlaylistsStopsAt(sections: seq<string>, values: map<string, Section>, i: nat)
    requires forall s :: s in sections ==> s in values
    requires var names := PlaylistSections(sections);
             i < |names| && UrlKey !in values[names[i]] &&
             forall j :: 0 <= j < i ==> UrlKey in values[names[j]]
    ensures var names := PlaylistSections(sections);
            ParsedPlaylists(sections, values) == Err(MissingSpotifyUrl(names[i])) &&
            CleanedCount(values, names) == i
  {
    var names := PlaylistSections(sections);
    var r := FirstWithoutUrl(values, names);
    assert r.Some?;
    assert !(r.value < i) && !(i < r.value);
  }

  /** When every playlist section has `spotify_url`, parsing gives the
      sections after all of them are cleaned. */
  lemma ParsedPlaylistsAll(sections: seq<string>, values: map<string, Section>)
    requires forall s :: s in sections ==> s in values
    requires FirstWithoutUrl(values, PlaylistSections(sections)).None?
    ensures var names := PlaylistSections(sections);
            CleanedCount(values, names) == |names| &&
            ParsedPlaylists(sections, values) == Ok(SectionsOf(RewriteSections(values, names), names))
  {
    var names := PlaylistSections(sections);
    RewriteSectionsAt(values, names);
    var v, w := ParsedPlaylists(sections, values).value, SectionsOf(RewriteSections(values, names), names);
    forall j | 0 <= j < |v| ensures v[j] == w[j] {
      assert names[j] in names;
    }
    assert v == w;
  }

  // ---------------------------------------------------------------------
  // The entry point

  /** What `get_playlist` returns for a playlist id: its name and tracks. */
  datatype Fetched = Fetched(name: string, tracks: seq<Track>)

  /** `playlist_data`, filled in playlist order: the first name met twice
      stops it with an error. */
  function PlaylistData(playlists: seq<Section>, fetch: string -> Fetched): (r: Result<map<string, seq<Track>>, ConfigError>)
    requires forall p :: p in playlists ==> UrlKey in p
  {
    if playlists == [] then Ok(map[])
    else
      var init := playlists[..|playlists| - 1];
      var f := fetch(playlists[|playlists| - 1][UrlKey]);
      match PlaylistData(init, fetch)
      case Err(e) => Err(e)
      case Ok(m) => if f.name in m then Err(DuplicateName(f.name)) else Ok(m[f.name := f.tracks])
  }

  /** The playlist names in playlist order. */
  function FetchedNames(playlists: seq<Section>, fetch: string -> Fetched): (r: seq<string>)
    requires forall p :: p in playlists ==> UrlKey in p
    ensures |r| == |playlists| && forall i :: 0 <= i < |r| ==> r[i] == fetch(playlists[i][UrlKey]).name
  {
    seq(|playlists|, i requires 0 <= i < |playlists| => fetch(playlists[i][UrlKey]).name)
  }

  /** `playlist_data` is built exactly when the names are distinct; the only
      error is a duplicate name. */
  lemma {:induction false} PlaylistDataOkIff(playlists: seq<Section>, fetch: string -> Fetched)
    requires forall p :: p in playlists ==> UrlKey in p
    ensures PlaylistData(playlists, fetch).Ok? <==> NoDuplicates(FetchedNames(playlists, fetch))
    ensures PlaylistData(playlists, fetch).Err? ==> PlaylistData(playlists, fetch).error.DuplicateName?
  {
    if playlists != [] {
      var init := playlists[..|playlists| - 1];
      var f := fetch(playlists[|playlists| - 1][UrlKey]);
      var initNames := FetchedNames(init, fetch);
      PlaylistDataOkIff(init, fetch);
      PlaylistDataKeys(init, fetch);
      assert FetchedNames(playlists, fetch) == initNames + [f.name];
      NoDuplicatesSnoc(initNames, f.name);
    }
  }

  /** A built `playlist_data` has the playlist names as its keys. */
  lemma {:induction false} PlaylistDataKeys(playlists: seq<Section>, fetch: string -> Fetched)
    requires forall p :: p in playlists ==> UrlKey in p
    ensures PlaylistData(playlists, fetch).Ok? ==>
              PlaylistData(playlists, fetch).value.Keys == set n | n in FetchedNames(playlists, fetch)
  {
    if playlists != [] {
      var init := playlists[..|playlists| - 1];
      PlaylistDataKeys(init, fetch);
      var names, initNames := FetchedNames(playlists, fetch), FetchedNames(init, fetch);
      assert names == initNames + [names[|names| - 1]];
    }
  }

  /** A built `playlist_data` maps each name to the tracks of its playlist. */
  lemma {:induction false} PlaylistDataValues(playlists: seq<Section>, fetch: string -> Fetched)
    requires forall p :: p in playlists ==> UrlKey in p
    requires PlaylistData(playlists, fetch).Ok?
    ensures forall i :: 0 <= i < |playlists| ==>
              var f := fetch(playlists[i][UrlKey]);
              f.name in PlaylistData(playlists, fetch).value &&
              PlaylistData(playlists, fetch).value[f.name] == f.tracks
  {
    if playlists == [] {
      return;
    }
    var init := playlists[..|playlists| - 1];
    PlaylistDataOkIff(playlists, fetch);
    PlaylistDataValues(init, fetch);
    forall i | 0 <= i < |init| ensures init[i] == playlists[i] {
    }
    var names := FetchedNames(playlists, fetch);
    forall i | 0 <= i < |init| ensures names[i] != names[|names| - 1] {
    }
  }

  /** Once a prefix of the playlists fails, all of them fail the same way. */
  lemma {:induction false} PlaylistDataPrefixFails(playlists: seq<Section>, fetch: string -> Fetched, n: nat)
    requires forall p :: p in playlists ==> UrlKey in p
    requires n <= |playlists| && PlaylistData(playlists[..n], fetch).Err?
    decreases |playlists| - n
    ensures PlaylistData(playlists, fetch) == PlaylistData(playlists[..n], fetch)
  {
    if n < |playlists| {
      assert playlists[..n + 1][..n] == playlists[..n];
      PlaylistDataPrefixFails(playlists, fetch, n + 1);
    } else {
      assert playlists[..n] == playlists;
    }
  }

  /** The loop of the entry point that fills `playlist_data`, with the
      insertion order of its keys. */
  method CollectPlaylistData(playlists: seq<Section>, fetch: string -> Fetched)
    returns (r: Result<map<string, seq<Track>>, ConfigError>, order: seq<string>)
    requires forall p :: p in playlists ==> UrlKey in p
    ensures r == PlaylistData(playlists, fetch)
    ensures r.Ok? ==> order == FetchedNames(playlists, fetch)
  {
    var data: map<string, seq<Track>> := map[];
    order := [];
    var n := 0;
    while n < |playlists|
      invariant 0 <= n <= |playlists|
      invariant PlaylistData(playlists[..n], fetch) == Ok(data)
      invariant order == FetchedNames(playlists[..n], fetch)
    {
      assert playlists[..n + 1][..n] == playlists[..n];
      var f := fetch(playlists[n][UrlKey]);
      if f.name in data {
        PlaylistDataPrefixFails(playlists, fetch, n + 1);
        r := Err(DuplicateName(f.name));
        return;
      }
      data := data[f.name := f.tracks];
      order := order + [f.name];
      n := n + 1;
    }
    assert playlists[..n] == playlists;
    r := Ok(data);
  }

  /** The `add_playlist` calls for the names in order. */
  function PlannedCalls(order: seq<string>, data: map<string, seq<Track>>, existing: seq<LibraryPlaylist>,
                        search: Track -> seq<Option<YtResponse>>): seq<PlaylistCall>
    requires forall n :: n in order ==> n in data
  {
    seq(|order|, k requires 0 <= k < |order| => PlannedCall(order[k], data[order[k]], existing, search))
  }

  /** The last loop of the entry point: `add_playlist` for each name. */
  method AddPlaylists(order: seq<string>, data: map<string, seq<Track>>, existing: seq<LibraryPlaylist>,
                      search: Track -> seq<Option<YtResponse>>)
    returns (calls: seq<PlaylistCall>)
    requires forall n :: n in order ==> n in data
    ensures calls == PlannedCalls(order, data, existing, search)
  {
    calls := [];
    var k := 0;
    while k < |order|
      invariant 0 <= k <= |order|
      invariant calls == PlannedCalls(order, data, existing, search)[..k]
    {
      var call := AddPlaylist(order[k], data[order[k]], existing, search);
      PrefixSnoc(PlannedCalls(order, data, existing, search), k, call);
      calls := calls + [call];
      k := k + 1;
    }
  }

  /** The prefix of `s` up to `k`, followed by `s[k]`, is the prefix up to
      `k + 1`. */
  lemma PrefixSnoc<T>(s: seq<T>, k: nat, x: T)
    requires k < |s| && s[k] == x
    ensures s[..k] + [x] == s[..k + 1]
  {
  }

  /** What the entry point does after reading the configuration: parse the
      playlists, reject an empty list, fill `playlist_data` from `fetch`,
      then plan one `add_playlist` call per name in insertion order. */
  function SyncOutcome(sections: seq<string>, values: map<string, Section>, fetch: string -> Fetched,
                       existing: seq<LibraryPlaylist>, search: Track -> seq<Option<YtResponse>>)
    : Result<seq<PlaylistCall>, ConfigError>
    requires forall s :: s in sections ==> s in values
  {
    match ParsedPlaylists(sections, values)
    case Err(e) => Err(e)
    case Ok(ps) =>
      if ps == [] then Err(NoPlaylists)
      else
        match PlaylistData(ps, fetch)
        case Err(e) => Err(e)
        case Ok(m) =>
          PlaylistDataKeys(ps, fetch);
          var names := FetchedNames(ps, fetch);
          Ok(PlannedCalls(names, m, existing, search))
  }

  /** The entry point after reading the configuration. `fetch` stands for
      `get_playlist`, `existing` for the library that
      `get_library_playlists` lists and `search` for the song search. */
  method Sync(config: Config, fetch: string -> Fetched, existing: seq<LibraryPlaylist>,
              search: Track -> seq<Option<YtResponse>>)
    returns (r: Result<seq<PlaylistCall>, ConfigError>)
    requires config.Valid()
    modifies config
    ensures config.sections == old(config.sections) && config.Valid()
    ensures var names := PlaylistSections(old(config.sections));
            config.values == RewriteSections(old(config.values), names[..CleanedCount(old(config.values), names)])
    ensures r == SyncOutcome(old(config.sections), old(config.values), fetch, existing, search)
  {
    var playlists := ParsePlaylists(config);
    if playlists.Err? {
      return Err(playlists.error);
    }
    var ps := playlists.value;
    if |ps| == 0 {
      return Err(NoPlaylists);
    }
    var data, order := CollectPlaylistData(ps, fetch);
    if data.Err? {
      return Err(data.error);
    }
    PlaylistDataKeys(ps, fetch);
    var calls := AddPlaylists(order, data.value, existing, search);
    return Ok(calls);
  }

  /** A configuration without playlist sections is rejected before any
      playlist is fetched or added. */
  lemma EmptyPlaylistListIsRejected(sections: seq<string>, values: map<string, Section>, fetch: string -> Fetched,
                                    existing: seq<LibraryPlaylist>, search: Track -> seq<Option<YtResponse>>)
    requires forall s :: s in sections ==> s in values
    requires forall s :: s in sections ==> !IsPlaylistSection(s)
    ensures SyncOutcome(sections, values, fetch, existing, search) == Err(NoPlaylists)
  {
    PlaylistSectionsEmptyIff(sections);
  }

  /** With the playlists parsed, the entry point fails exactly when two of
      them have the same name, and otherwise plans one call per playlist. */
  lemma DuplicateNamesAreRejected(sections: seq<string>, values: map<string, Section>, fetch: string -> Fetched,
                                  existing: seq<LibraryPlaylist>, search: Track -> seq<Option<YtResponse>>)
    requires forall s :: s in sections ==> s in values
    requires ParsedPlaylists(sections, values).Ok? && ParsedPlaylists(sections, values).value != []
    ensures var ps := ParsedPlaylists(sections, values).value;
            var r := SyncOutcome(sections, values, fetch, existing, search);
            (r.Err? <==> !NoDuplicates(FetchedNames(ps, fetch))) &&
            (r.Err? ==> r.error.DuplicateName?) &&
            (r.Ok? ==> |r.value| == |PlaylistSections(sections)|)
  {
    PlaylistDataOkIff(ParsedPlaylists(sections, values).value, fetch);
  }
}
