/**
 * The Spotify client wrapper: credentials with an environment fallback, the
 * one-result track search, the batch search that keeps only matches, the
 * playlist-ID extraction, and the paginated playlist read. The catalog is an
 * oracle: the answer it gives to a search query or to a playlist ID.
 */
module Spotify {
  import opened Common
  import opened Text

  /** A track object of the catalog, reduced to the fields the client reads. */
  datatype CatalogTrack = CatalogTrack(
    name: string,
    artistNames: seq<string>,
    id: string,
    albumName: string,
    releaseDate: string)

  /** The dictionary the client returns for a track. */
  datatype TrackInfo = TrackInfo(
    title: string,
    artist: string,
    spotifyId: string,
    album: string,
    releaseDate: string)

  /** What a search call gives: the items found, or an exception. */
  datatype SearchAnswer = SearchRaised | Items(items: seq<CatalogTrack>)

  /**
   * What reading a playlist gives: an exception from the first call, or its
   * name and the pages retrieved in order (each a list of items, a null
   * track being `None`), with `nextRaised` when a call for a further page
   * raised after the last of them.
   */
  datatype PlaylistAnswer =
    | PlaylistRaised
    | Playlist(name: string, pages: seq<seq<Option<CatalogTrack>>>, nextRaised: bool)

  /** A requested track: `track.get('title')` and `track.get('artist')`. */
  datatype TrackRequest = TrackRequest(title: Option<string>, artist: Option<string>)

  datatype ConfigError = MissingCredentials

  // ---------------------------------------------------------------- credentials

  /** `arg or os.getenv(...)`: the argument when truthy, else the environment. */
  function OrEnv(arg: Option<string>, env: Option<string>): Option<string> {
    if Truthy(arg) then arg else env
  }

  /** The credential check of the constructor: both values must be truthy after the fallback. */
  function Credentials(clientId: Option<string>, clientSecret: Option<string>,
                       envId: Option<string>, envSecret: Option<string>): Result<(string, string), ConfigError>
  {
    var id := OrEnv(clientId, envId);
    var secret := OrEnv(clientSecret, envSecret);
    if !Truthy(id) || !Truthy(secret) then Err(MissingCredentials) else Ok((id.value, secret.value))
  }

  /**
   * The constructor succeeds exactly when an ID and a secret are found,
   * each from its argument when that is truthy and from the environment
   * otherwise; the values it keeps are never empty.
   */
  lemma CredentialsSound(clientId: Option<string>, clientSecret: Option<string>,
                         envId: Option<string>, envSecret: Option<string>)
    ensures Credentials(clientId, clientSecret, envId, envSecret).Ok? <==>
      (Truthy(clientId) || Truthy(envId)) && (Truthy(clientSecret) || Truthy(envSecret))
    ensures Credentials(clientId, clientSecret, envId, envSecret).Ok? ==>
      var (id, secret) := Credentials(clientId, clientSecret, envId, envSecret).value;
      id != [] && secret != [] &&
      id == (if Truthy(clientId) then clientId.value else envId.value) &&
      secret == (if Truthy(clientSecret) then clientSecret.value else envSecret.value)
  {
  }

  // ---------------------------------------------------------------- search

  /** The search query for a title and an artist. */
  function Query(title: string, artist: string): string {
    "track:" + title + " artist:" + artist
  }

  const ArtistField: string := " artist:"

  /**
   * The query names the title and the artist unambiguously: when the title
   * does not contain ` artist:`, splitting what follows `track:` at the first
   * ` artist:` gives back the two.
   */
  lemma QueryRoundTrip(title: string, artist: string)
    requires !Contains(title, ArtistField)
    ensures StartsWith(Query(title, artist), "track:")
    ensures SplitOnce(Query(title, artist)[6..], ArtistField) == Some((title, artist))
  {
    var q := Query(title, artist);
    var s := q[6..];
    assert s == title + ArtistField + artist;
    assert q[..6] == "track:";
    assert OccursAt(s, ArtistField, |title|) by {
      assert s[|title|..|title| + 8] == ArtistField;
    }
    forall k: nat | k < |title| ensures !OccursAt(s, ArtistField, k) {
      NoEarlierField(title, artist, k);
    }
    IndexOfFirst(s, ArtistField, |title|);
  }

  lemma NoEarlierField(title: string, artist: string, k: nat)
    requires !Contains(title, ArtistField) && k < |title|
    ensures !OccursAt(title + ArtistField + artist, ArtistField, k)
  {
    var s := title + ArtistField + artist;
    if k + 8 <= |title| {
      OccursInPrefix(s, ArtistField, k, |title|);
      assert s[..|title|] == title;
      if OccursAt(title, ArtistField, k) {
        ContainsAt(title, ArtistField, k);
      }
    } else {
      // the blank that opens ` artist:` would sit past the start of the pattern, which has no other blank
      var d := |title| - k;
      assert s[k + d] == ' ' && 1 <= d < 8;
      assert ArtistField[d] != ' ';
      assert k + 8 <= |s| ==> s[k..k + 8][d] != ArtistField[d];
    }
  }

  /** The track dictionary: the artist names joined with `", "` in catalog order. */
  function Info(t: CatalogTrack): TrackInfo {
    TrackInfo(t.name, Join(t.artistNames, ", "), t.id, t.albumName, t.releaseDate)
  }

  /** `search_track`: the first item, none when there is none or the call raises. */
  function SearchTrack(search: string -> SearchAnswer, title: string, artist: string): Option<TrackInfo> {
    match search(Query(title, artist))
    case SearchRaised => None
    case Items(items) => if items == [] then None else Some(Info(items[0]))
  }

  /**
   * A track is found exactly when the search for its query answers at least
   * one item, and then it describes the first item, its artists joined with
   * `", "`.
   */
  lemma SearchTrackFound(search: string -> SearchAnswer, title: string, artist: string)
    ensures SearchTrack(search, title, artist).Some? <==>
      search(Query(title, artist)).Items? && search(Query(title, artist)).items != []
    ensures SearchTrack(search, title, artist).Some? ==>
      var t := search(Query(title, artist)).items[0];
      SearchTrack(search, title, artist).value == TrackInfo(t.name, Join(t.artistNames, ", "), t.id, t.albumName, t.releaseDate)
  {
  }

  /** A single artist's name is used as it is. */
  lemma OneArtistName(t: CatalogTrack)
    requires |t.artistNames| == 1
    ensures Info(t).artist == t.artistNames[0]
  {
  }

  /** A request the batch search sends: both title and artist truthy. */
  predicate Searchable(r: TrackRequest) {
    Truthy(r.title) && Truthy(r.artist)
  }

  /** The result for one request of the batch, if any. */
  function BatchHit(search: string -> SearchAnswer, r: TrackRequest): seq<TrackInfo> {
    if !Searchable(r) then []
    else match SearchTrack(search, r.title.value, r.artist.value)
      case None => []
      case Some(info) => [info]
  }

  /** `search_tracks_batch`: the matches found, in request order. */
  function BatchResults(search: string -> SearchAnswer, reqs: seq<TrackRequest>): seq<TrackInfo>
    decreases |reqs|
  {
    if reqs == [] then []
    else BatchResults(search, reqs[..|reqs| - 1]) + BatchHit(search, reqs[|reqs| - 1])
  }

  lemma BatchResultsSnoc(search: string -> SearchAnswer, reqs: seq<TrackRequest>, r: TrackRequest)
    ensures BatchResults(search, reqs + [r]) == BatchResults(search, reqs) + BatchHit(search, r)
  {
    assert (reqs + [r])[..|reqs|] == reqs;
  }

  /** The batch never returns more results than it was given requests. */
  lemma {:induction false} BatchResultsBound(search: string -> SearchAnswer, reqs: seq<TrackRequest>)
    ensures |BatchResults(search, reqs)| <= |reqs|
    decreases |reqs|
  {
    if reqs != [] {
      BatchResultsBound(search, reqs[..|reqs| - 1]);
    }
  }

  /** Every result is the search result of a searchable request. */
  lemma {:induction false} BatchResultsSound(search: string -> SearchAnswer, reqs: seq<TrackRequest>, info: TrackInfo)
    requires info in BatchResults(search, reqs)
    ensures exists r :: r in reqs && Searchable(r) && SearchTrack(search, r.title.value, r.artist.value) == Some(info)
    decreases |reqs|
  {
    var n := |reqs| - 1;
    if info in BatchResults(search, reqs[..n]) {
      BatchResultsSound(search, reqs[..n], info);
      var r :| r in reqs[..n] && Searchable(r) && SearchTrack(search, r.title.value, r.artist.value) == Some(info);
      assert r in reqs;
    } else {
      assert reqs[n] in reqs;
    }
  }

  /** A searchable request whose search finds a track contributes that track. */
  lemma {:induction false} BatchResultsComplete(search: string -> SearchAnswer, reqs: seq<TrackRequest>, i: nat)
    requires i < |reqs| && Searchable(reqs[i])
    requires SearchTrack(search, reqs[i].title.value, reqs[i].artist.value).Some?
    ensures SearchTrack(search, reqs[i].title.value, reqs[i].artist.value).value in BatchResults(search, reqs)
    decreases |reqs|
  {
    var n := |reqs| - 1;
    if i < n {
      BatchResultsComplete(search, reqs[..n], i);
    }
  }

  // ---------------------------------------------------------------- playlists

  const PlaylistMarker: string := "spotify.com/playlist/"
  const PlaylistPart: string := "playlist/"

  /** `s.split(sep)[-1]`: the text after the last occurrence, or all of it. */
  function AfterLast(s: string, sep: string): string {
    match LastIndexOf(s, sep)
    case None => s
    case Some(j) => if j + |sep| <= |s| then s[j + |sep|..] else s
  }

  /** `s.split('?')[0]`: the text before the first `?`, or all of it. */
  function BeforeQuery(s: string): string {
    match SplitOnce(s, "?")
    case None => s
    case Some((before, _)) => before
  }

  /** The playlist ID taken from a URL; anything else is used as it is. */
  function PlaylistId(input: string): string {
    if Contains(input, PlaylistMarker) then BeforeQuery(AfterLast(input, PlaylistPart)) else input
  }

  /** A URL's `playlist/` part lies inside its `spotify.com/playlist/` part. */
  lemma MarkerHasPart(s: string, i: nat)
    requires OccursAt(s, PlaylistMarker, i)
    ensures OccursAt(s, PlaylistPart, i + 12)
  {
    assert s[i + 12..i + 21] == s[i..i + 21][12..21];
  }

  /** The text before the first `?` holds no `?` and the rest starts with one. */
  lemma BeforeQueryCut(s: string)
    ensures BeforeQuery(s) <= s && '?' !in BeforeQuery(s)
    ensures BeforeQuery(s) == s || s[|BeforeQuery(s)|] == '?'
  {
    match SplitOnce(s, "?")
    case None =>
      if '?' in s {
        var j :| 0 <= j < |s| && s[j] == '?';
        assert s[j..j + 1] == "?";
        ContainsAt(s, "?", j);
      }
    case Some((before, rest)) =>
      assert s == before + "?" + rest;
      forall j | 0 <= j < |before| ensures before[j] != '?' {
        assert !OccursAt(s, "?", j);
        assert s[j..j + 1] == [before[j]];
      }
  }

  /**
   * For a playlist URL the ID is the text right after the last `playlist/`,
   * up to the first `?` after it or the end; any other input is kept.
   */
  lemma PlaylistIdSound(input: string)
    ensures !Contains(input, PlaylistMarker) ==> PlaylistId(input) == input
    ensures Contains(input, PlaylistMarker) ==>
      LastIndexOf(input, PlaylistPart).Some? &&
      var j := LastIndexOf(input, PlaylistPart).value;
      var tail := input[j + |PlaylistPart|..];
      var id := PlaylistId(input);
      id <= tail && '?' !in id && (id == tail || tail[|id|] == '?')
  {
    if Contains(input, PlaylistMarker) {
      var i := IndexOf(input, PlaylistMarker).value;
      MarkerHasPart(input, i);
      var j := LastIndexOf(input, PlaylistPart).value;
      var tail := input[j + |PlaylistPart|..];
      assert AfterLast(input, PlaylistPart) == tail;
      assert PlaylistId(input) == BeforeQuery(tail);
      BeforeQueryCut(tail);
    }
  }

  /** The tracks of one page: every item whose track is not null, in order. */
  function PageTracks(items: seq<Option<CatalogTrack>>): seq<TrackInfo>
    decreases |items|
  {
    if items == [] then []
    else
      var last := items[|items| - 1];
      PageTracks(items[..|items| - 1]) + (if last.None? then [] else [Info(last.value)])
  }

  lemma PageTracksSnoc(items: seq<Option<CatalogTrack>>, x: Option<CatalogTrack>)
    ensures PageTracks(items + [x]) == PageTracks(items) + (if x.None? then [] else [Info(x.value)])
  {
    assert (items + [x])[..|items|] == items;
  }

  /** One track per non-null item. */
  lemma {:induction false} PageTracksCount(items: seq<Option<CatalogTrack>>)
    ensures |PageTracks(items)| == CountWhere(items, (x: Option<CatalogTrack>) => x.Some?)
    decreases |items|
  {
    if items != [] {
      var n := |items| - 1;
      PageTracksCount(items[..n]);
      assert items == items[..n] + [items[n]];
      CountWhereSnoc(items[..n], items[n], (x: Option<CatalogTrack>) => x.Some?);
    }
  }

  /** The tracks of all pages, page after page. */
  function AllPageTracks(pages: seq<seq<Option<CatalogTrack>>>): seq<TrackInfo>
    decreases |pages|
  {
    if pages == [] then [] else AllPageTracks(pages[..|pages| - 1]) + PageTracks(pages[|pages| - 1])
  }

  /** `get_playlist_tracks` on an answer: the name and tracks, or `(None, [])` on any exception. */
  function PlaylistResult(a: PlaylistAnswer): (Option<string>, seq<TrackInfo>) {
    match a
    case PlaylistRaised => (None, [])
    case Playlist(name, pages, nextRaised) => if nextRaised then (None, []) else (Some(name), AllPageTracks(pages))
  }

  /**
   * A failed read gives no name and no track; a read without failure gives
   * the playlist's name and, page after page, one track per non-null item.
   */
  lemma PlaylistResultSound(a: PlaylistAnswer)
    ensures PlaylistResult(a).0.None? ==> PlaylistResult(a).1 == []
    ensures PlaylistResult(a).0.None? <==> a.PlaylistRaised? || a.nextRaised
    ensures a.Playlist? && !a.nextRaised ==> PlaylistResult(a) == (Some(a.name), AllPageTracks(a.pages))
    ensures a.Playlist? && |a.pages| == 1 && !a.nextRaised ==> PlaylistResult(a).1 == PageTracks(a.pages[0])
  {
    if a.Playlist? && |a.pages| == 1 {
      assert a.pages[..0] == [];
    }
  }

  // ---------------------------------------------------------------- the client

  /** `SpotifyClient`: the credentials it was built with and the catalog it asks. */
  class SpotifyClient {
    const clientId: string
    const clientSecret: string
    const search: string -> SearchAnswer
    const playlist: string -> PlaylistAnswer

    constructor (clientId: string, clientSecret: string, search: string -> SearchAnswer, playlist: string -> PlaylistAnswer)
      ensures this.clientId == clientId && this.clientSecret == clientSecret
      ensures this.search == search && this.playlist == playlist
    {
      this.clientId := clientId;
      this.clientSecret := clientSecret;
      this.search := search;
      this.playlist := playlist;
    }

    /** `SpotifyClient(client_id, client_secret)`: `ValueError` when a credential is missing. */
    static method Connect(clientId: Option<string>, clientSecret: Option<string>,
                          envId: Option<string>, envSecret: Option<string>,
                          search: string -> SearchAnswer, playlist: string -> PlaylistAnswer)
      returns (r: Result<SpotifyClient, ConfigError>)
      ensures r.Err? <==> Credentials(clientId, clientSecret, envId, envSecret).Err?
      ensures r.Ok? ==> fresh(r.value)
      ensures r.Ok? ==> (r.value.clientId, r.value.clientSecret) == Credentials(clientId, clientSecret, envId, envSecret).value
      ensures r.Ok? ==> r.value.search == search && r.value.playlist == playlist
    {
      var id := if Truthy(clientId) then clientId else envId;
      var secret := if Truthy(clientSecret) then clientSecret else envSecret;
      if !Truthy(id) || !Truthy(secret) {
        return Err(MissingCredentials);
      }
      var c := new SpotifyClient(id.value, secret.value, search, playlist);
      return Ok(c);
    }

    /** `search_tracks_batch`: skip requests lacking a title or artist, keep the matches. */
    method SearchTracksBatch(reqs: seq<TrackRequest>) returns (results: seq<TrackInfo>)
      ensures results == BatchResults(search, reqs)
      ensures |results| <= |reqs|
    {
      results := [];
      ghost var done: seq<TrackRequest> := [];
      var i := 0;
      while i < |reqs|
        invariant 0 <= i <= |reqs| && done == reqs[..i]
        invariant results == BatchResults(search, done)
      {
        var r := reqs[i];
        BatchResultsSnoc(search, done, r);
        if Truthy(r.title) && Truthy(r.artist) {
          var result := SearchTrack(search, r.title.value, r.artist.value);
          if result.Some? {
            results := results + [result.value];
          }
        }
        TakeSnoc(reqs, i);
        done := done + [r];
        i := i + 1;
      }
      assert reqs[..i] == reqs;
      BatchResultsBound(search, reqs);
    }

    /** The inner loop over one page's items. */
    static method CollectPage(items: seq<Option<CatalogTrack>>) returns (tracks: seq<TrackInfo>)
      ensures tracks == PageTracks(items)
    {
      tracks := [];
      ghost var done: seq<Option<CatalogTrack>> := [];
      var k := 0;
      while k < |items|
        invariant 0 <= k <= |items| && done == items[..k]
        invariant tracks == PageTracks(done)
      {
        PageTracksSnoc(done, items[k]);
        if items[k].Some? {
          tracks := tracks + [Info(items[k].value)];
        }
        TakeSnoc(items, k);
        done := done + [items[k]];
        k := k + 1;
      }
      assert items[..k] == items;
    }

    /**
     * `get_playlist_tracks`: extract the ID from a URL, read the playlist,
     * collect the non-null tracks of every page while a next page exists.
     */
    method GetPlaylistTracks(input: string) returns (name: Option<string>, tracks: seq<TrackInfo>)
      ensures (name, tracks) == PlaylistResult(playlist(PlaylistId(input)))
    {
      var id := PlaylistId(input);
      var answer := playlist(id);
      if answer.PlaylistRaised? {
        return None, [];
      }
      tracks := [];
      var p := 0;
      while p < |answer.pages|
        invariant 0 <= p <= |answer.pages|
        invariant tracks == AllPageTracks(answer.pages[..p])
      {
        var page := CollectPage(answer.pages[p]);
        TakeSnoc(answer.pages, p);
        assert answer.pages[..p + 1][..p] == answer.pages[..p];
        tracks := tracks + page;
        p := p + 1;
      }
      assert answer.pages[..p] == answer.pages;
      if answer.nextRaised {
        return None, [];
      }
      name := Some(answer.name);
    }
  }
}
