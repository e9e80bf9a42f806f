/**
 * The fetch phase of artist enrichment: every database artist without a
 * Spotify artist ID is searched in the catalog, classified as an exact or a
 * fuzzy match, and written as one CSV row. The catalog's best-match search is
 * an oracle: the artist record it answers for a name, if any.
 */
module FetchArtist {
  import opened Common
  import opened Text
  import opened EnrichmentCsv

  /**
   * The catalog's artist record. `followers` is `None` when the `followers`
   * object or its `total` is absent; each image's `url` may be absent too.
   */
  datatype CatalogArtist = CatalogArtist(
    id: string,
    name: string,
    genres: Option<seq<string>>,
    followers: Option<int>,
    images: seq<Option<string>>,
    popularity: Option<int>)

  /** The dictionary `match_artist_to_spotify` returns. */
  datatype ArtistMatch = ArtistMatch(
    spotifyArtistId: string,
    matchedName: string,
    genres: seq<string>,
    followers: int,
    imageUrl: Option<string>,
    popularity: int)

  /** A row of `get_all_artists`. */
  datatype DbArtist = DbArtist(id: string, name: string, spotifyArtistId: Option<string>)

  /** `match_artist_to_spotify`, with the catalog's best-match search as an oracle. */
  function MatchArtistToSpotify(bestMatch: string -> Option<CatalogArtist>, artistName: string,
                                existing: Option<string>): Option<ArtistMatch>
  {
    if Truthy(existing) then None
    else
      match bestMatch(artistName)
      case None => None
      case Some(a) =>
        Some(ArtistMatch(a.id, a.name, a.genres.GetOr([]), a.followers.GetOr(0),
                         if a.images == [] then None else a.images[0], a.popularity.GetOr(0)))
  }

  /**
   * No search result for an artist that already has an ID; otherwise a match
   * exactly when the search finds an artist, carrying that artist's fields
   * with `[]`, `0` and `0` for missing genres, followers and popularity, and
   * the first image's URL (`None` when there is no image).
   */
  lemma MatchArtistFields(bestMatch: string -> Option<CatalogArtist>, artistName: string, existing: Option<string>)
    ensures Truthy(existing) ==> MatchArtistToSpotify(bestMatch, artistName, existing).None?
    ensures !Truthy(existing) ==>
      (MatchArtistToSpotify(bestMatch, artistName, existing).None? <==> bestMatch(artistName).None?)
    ensures MatchArtistToSpotify(bestMatch, artistName, existing).Some? ==>
      var r := MatchArtistToSpotify(bestMatch, artistName, existing).value;
      var a := bestMatch(artistName).value;
      r.spotifyArtistId == a.id && r.matchedName == a.name &&
      r.genres == a.genres.GetOr([]) && r.followers == a.followers.GetOr(0) &&
      r.popularity == a.popularity.GetOr(0) &&
      (a.images == [] ==> r.imageUrl.None?) && (a.images != [] ==> r.imageUrl == a.images[0])
  {
  }

  /** `'exact'` when the names agree ignoring case, `'fuzzy'` otherwise. */
  function MatchType(matchedName: string, dbName: string): (t: string)
    ensures t == Exact || t == Fuzzy
  {
    if Lower(matchedName) == Lower(dbName) then Exact else Fuzzy
  }

  /** The match is exact precisely when the two names agree ignoring case. */
  lemma MatchTypeExact(matchedName: string, dbName: string)
    ensures MatchType(matchedName, dbName) == Exact <==> Lower(matchedName) == Lower(dbName)
    ensures MatchType(matchedName, dbName) == Fuzzy <==> Lower(matchedName) != Lower(dbName)
  {
  }

  /** A match that differs from the database name only in letter case is exact. */
  lemma MatchTypeIgnoresCase(dbName: string)
    ensures MatchType(Lower(dbName), dbName) == Exact
    ensures MatchType(dbName, Lower(dbName)) == Exact
  {
    LowerIdempotent(dbName);
  }

  lemma LowerIdempotent(s: string)
    ensures Lower(Lower(s)) == Lower(s)
  {
    var l := Lower(s);
    forall i | 0 <= i < |s| ensures Lower(l)[i] == l[i] {
      assert l[i] == LowerChar(s[i]);
    }
  }

  /** `'|'.join(genres)`, the genre cell of the CSV. */
  function GenreCell(genres: seq<string>): string {
    Join(genres, "|")
  }

  /** The CSV row written for a matched artist. */
  function CsvRow(artist: DbArtist, m: ArtistMatch): EnrichmentRow {
    EnrichmentRow(artist.id, artist.name, m.spotifyArtistId, m.matchedName, GenreCell(m.genres),
                  ShowInt(m.followers), if Truthy(m.imageUrl) then m.imageUrl.value else "",
                  ShowInt(m.popularity), MatchType(m.matchedName, artist.name))
  }

  /**
   * The row carries the database artist's ID and name and the match's ID and
   * name, an `exact` or `fuzzy` type, and an empty image cell exactly when
   * the match has no image URL (or an empty one).
   */
  lemma CsvRowFields(artist: DbArtist, m: ArtistMatch)
    ensures CsvRow(artist, m).artistId == artist.id && CsvRow(artist, m).dbName == artist.name
    ensures CsvRow(artist, m).spotifyArtistId == m.spotifyArtistId && CsvRow(artist, m).matchedName == m.matchedName
    ensures CsvRow(artist, m).matchType == Exact || CsvRow(artist, m).matchType == Fuzzy
    ensures CsvRow(artist, m).imageUrl == [] <==> !Truthy(m.imageUrl)
  {
  }

  /** `artists_to_enrich`: the artists whose Spotify ID is missing or empty, in order. */
  function ToEnrich(artists: seq<DbArtist>): (r: seq<DbArtist>)
    ensures |r| <= |artists|
    ensures forall a :: a in r ==> a in artists && !Truthy(a.spotifyArtistId)
    decreases |artists|
  {
    if artists == [] then []
    else
      var a := artists[|artists| - 1];
      ToEnrich(artists[..|artists| - 1]) + (if Truthy(a.spotifyArtistId) then [] else [a])
  }

  /** Every artist without an ID is processed. */
  lemma {:induction false} ToEnrichComplete(artists: seq<DbArtist>, i: nat)
    requires i < |artists| && !Truthy(artists[i].spotifyArtistId)
    ensures artists[i] in ToEnrich(artists)
    decreases |artists|
  {
    if i < |artists| - 1 {
      ToEnrichComplete(artists[..|artists| - 1], i);
    }
  }

  /** The row written for one artist: none when there is no match. */
  function RowFor(a: DbArtist, bestMatch: string -> Option<CatalogArtist>): seq<EnrichmentRow> {
    match MatchArtistToSpotify(bestMatch, a.name, a.spotifyArtistId)
    case None => []
    case Some(m) => [CsvRow(a, m)]
  }

  /** The rows written for the artists processed, in their order. */
  function EnrichRows(artists: seq<DbArtist>, bestMatch: string -> Option<CatalogArtist>): (rows: seq<EnrichmentRow>)
    ensures |rows| <= |artists|
    decreases |artists|
  {
    if artists == [] then []
    else
      var a := artists[|artists| - 1];
      EnrichRows(artists[..|artists| - 1], bestMatch) + RowFor(a, bestMatch)
  }

  lemma EnrichRowsStep(artists: seq<DbArtist>, i: nat, bestMatch: string -> Option<CatalogArtist>)
    requires i < |artists|
    ensures EnrichRows(artists[..i + 1], bestMatch) == EnrichRows(artists[..i], bestMatch) + RowFor(artists[i], bestMatch)
  {
    var p := artists[..i + 1];
    assert p[..i] == artists[..i] && p[i] == artists[i];
  }

  /** Number of rows classified `'exact'`. */
  function ExactRows(rows: seq<EnrichmentRow>): (n: nat)
    ensures n <= |rows|
    decreases |rows|
  {
    if rows == [] then 0
    else ExactRows(rows[..|rows| - 1]) + (if rows[|rows| - 1].matchType == Exact then 1 else 0)
  }

  lemma ExactRowsSnoc(rows: seq<EnrichmentRow>, row: EnrichmentRow)
    ensures ExactRows(rows + [row]) == ExactRows(rows) + (if row.matchType == Exact then 1 else 0)
  {
    assert (rows + [row])[..|rows|] == rows;
  }

  /** The row is the match of artist `a`: its ID, the found artist's ID, and the exact-or-fuzzy type. */
  predicate RowFrom(row: EnrichmentRow, a: DbArtist, bestMatch: string -> Option<CatalogArtist>) {
    bestMatch(a.name).Some? && row.artistId == a.id &&
    row.spotifyArtistId == bestMatch(a.name).value.id && row.matchType == MatchType(bestMatch(a.name).value.name, a.name)
  }

  /** Each written row is one processed artist's match, in order. */
  lemma {:induction false} EnrichRowsSound(artists: seq<DbArtist>, bestMatch: string -> Option<CatalogArtist>, row: EnrichmentRow)
    requires row in EnrichRows(artists, bestMatch)
    ensures exists a :: a in artists && RowFrom(row, a, bestMatch)
    decreases |artists|
  {
    var n := |artists| - 1;
    var a := artists[n];
    var prev := EnrichRows(artists[..n], bestMatch);
    assert EnrichRows(artists, bestMatch) == prev + RowFor(a, bestMatch);
    if row in prev {
      EnrichRowsSound(artists[..n], bestMatch, row);
      var b :| b in artists[..n] && RowFrom(row, b, bestMatch);
      assert b in artists;
    } else {
      RowForFrom(a, bestMatch, row);
      assert a in artists;
    }
  }

  /** The row written for one artist carries the artist's ID and the search's match. */
  lemma RowForFrom(a: DbArtist, bestMatch: string -> Option<CatalogArtist>, row: EnrichmentRow)
    requires row in RowFor(a, bestMatch)
    ensures RowFrom(row, a, bestMatch)
  {
    var m := MatchArtistToSpotify(bestMatch, a.name, a.spotifyArtistId);
    assert m.Some? && row == CsvRow(a, m.value);
  }

  datatype FetchCounts = FetchCounts(matched: nat, notMatched: nat, exact: nat, fuzzy: nat)

  /**
   * The processing loop of `main`: one search per artist lacking an ID, a
   * row for every match, and the four counters. `None` means nothing to do
   * (every artist already enriched).
   */
  method FetchArtistMetadata(artists: seq<DbArtist>, bestMatch: string -> Option<CatalogArtist>)
    returns (r: Option<(seq<EnrichmentRow>, FetchCounts)>)
    ensures r.None? <==> ToEnrich(artists) == []
    ensures r.Some? ==>
      var (rows, c) := r.value;
      rows == EnrichRows(ToEnrich(artists), bestMatch) &&
      c.matched + c.notMatched == |ToEnrich(artists)| &&
      c.matched == |rows| && c.exact + c.fuzzy == c.matched && c.exact == ExactRows(rows)
  {
    var todo := ToEnrich(artists);
    if todo == [] {
      return None;
    }
    var rows, counts := MatchArtists(todo, bestMatch);
    return Some((rows, counts));
  }

  /** Whether an artist's search gives an exact match. */
  predicate ExactFor(a: DbArtist, bestMatch: string -> Option<CatalogArtist>) {
    var m := MatchArtistToSpotify(bestMatch, a.name, a.spotifyArtistId);
    m.Some? && MatchType(m.value.matchedName, a.name) == Exact
  }

  /** The exact count, artist by artist. */
  function ExactCount(artists: seq<DbArtist>, bestMatch: string -> Option<CatalogArtist>): nat
    decreases |artists|
  {
    if artists == [] then 0
    else ExactCount(artists[..|artists| - 1], bestMatch) + (if ExactFor(artists[|artists| - 1], bestMatch) then 1 else 0)
  }

  lemma ExactCountStep(artists: seq<DbArtist>, i: nat, bestMatch: string -> Option<CatalogArtist>)
    requires i < |artists|
    ensures ExactCount(artists[..i + 1], bestMatch) == ExactCount(artists[..i], bestMatch) + (if ExactFor(artists[i], bestMatch) then 1 else 0)
  {
    var p := artists[..i + 1];
    assert p[..i] == artists[..i] && p[i] == artists[i];
  }

  /** Counting exact matches artist by artist counts the exact rows. */
  lemma {:induction false} ExactCountRows(artists: seq<DbArtist>, bestMatch: string -> Option<CatalogArtist>)
    ensures ExactCount(artists, bestMatch) == ExactRows(EnrichRows(artists, bestMatch))
    decreases |artists|
  {
    if artists != [] {
      var n := |artists| - 1;
      var a := artists[n];
      var pre := artists[..n];
      ExactCountRows(pre, bestMatch);
      var rows := EnrichRows(pre, bestMatch);
      assert EnrichRows(artists, bestMatch) == rows + RowFor(a, bestMatch);
      assert ExactCount(artists, bestMatch) == ExactCount(pre, bestMatch) + (if ExactFor(a, bestMatch) then 1 else 0);
      var m := MatchArtistToSpotify(bestMatch, a.name, a.spotifyArtistId);
      if m.Some? {
        var row := CsvRow(a, m.value);
        assert RowFor(a, bestMatch) == [row];
        assert row.matchType == MatchType(m.value.matchedName, a.name);
        ExactRowsSnoc(rows, row);
      } else {
        assert RowFor(a, bestMatch) == [];
        assert rows + [] == rows;
      }
    }
  }

  /** The loop of `fetch_artist_metadata` over the artists to enrich. */
  method MatchArtists(todo: seq<DbArtist>, bestMatch: string -> Option<CatalogArtist>)
    returns (rows: seq<EnrichmentRow>, c: FetchCounts)
    ensures rows == EnrichRows(todo, bestMatch)
    ensures c.matched + c.notMatched == |todo| && c.matched == |rows| && c.exact + c.fuzzy == c.matched && c.exact == ExactRows(rows)
  {
    rows := [];
    var matched, notMatched, exact, fuzzy := 0, 0, 0, 0;
    for i := 0 to |todo|
      invariant rows == EnrichRows(todo[..i], bestMatch)
      invariant matched + notMatched == i && matched == |rows|
      invariant exact + fuzzy == matched && exact == ExactCount(todo[..i], bestMatch)
    {
      var a := todo[i];
      EnrichRowsStep(todo, i, bestMatch);
      ExactCountStep(todo, i, bestMatch);
      var m := MatchArtistToSpotify(bestMatch, a.name, a.spotifyArtistId);
      if m.Some? {
        matched := matched + 1;
        var matchType := MatchType(m.value.matchedName, a.name);
        if matchType == Exact {
          exact := exact + 1;
        } else {
          fuzzy := fuzzy + 1;
        }
        rows := rows + [CsvRow(a, m.value)];
      } else {
        notMatched := notMatched + 1;
      }
    }
    TakeAll(todo);
    ExactCountRows(todo, bestMatch);
    c := FetchCounts(matched, notMatched, exact, fuzzy);
  }
}
