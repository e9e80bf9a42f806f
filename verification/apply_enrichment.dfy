/**
 * The apply phase of artist enrichment: the CSV is read back into typed
 * enrichments, validated, and written over the matching rows of `artists` in
 * one bulk UPDATE inside a transaction.
 */
module ApplyEnrichment {
  import opened Common
  import opened Text
  import opened EnrichmentCsv
  import opened Db
  import FetchArtist

  /** One enrichment as `read_enrichment_csv` builds it. */
  datatype Enrichment = Enrichment(
    artistId: string,
    dbName: string,
    spotifyArtistId: string,
    matchedName: string,
    genres: seq<string>,
    followers: Option<int>,
    imageUrl: Option<string>,
    popularity: Option<int>,
    matchType: string)

  /** The `ValueError` of `int()` on a numeric cell; `main` reports it and exits. */
  datatype ReadError = NotAnInteger(cell: string)

  // ---------------------------------------------------------------- reading

  /** `row['genres'].split('|') if row['genres'] else []` */
  function ParseGenres(cell: string): (gs: seq<string>)
    ensures cell == [] <==> gs == []
    ensures forall k :: 0 <= k < |gs| ==> '|' !in gs[k]
  {
    if cell == [] then [] else Split(cell, '|')
  }

  /** `int(cell) if cell else None` */
  function IntCell(cell: string): (r: Result<Option<int>, ReadError>)
    ensures cell == [] ==> r == Ok(None)
    ensures cell != [] ==> (r.Ok? <==> PyInt(cell).Some?)
    ensures r.Ok? && cell != [] ==> r.value == PyInt(cell)
    ensures r.Err? ==> r.error == NotAnInteger(cell)
  {
    if cell == [] then Ok(None)
    else match PyInt(cell)
      case None => Err(NotAnInteger(cell))
      case Some(i) => Ok(Some(i))
  }

  /** One CSV row; followers are converted before popularity. */
  function ParseRow(row: EnrichmentRow): Result<Enrichment, ReadError> {
    match IntCell(row.followers)
    case Err(e) => Err(e)
    case Ok(followers) =>
      match IntCell(row.popularity)
      case Err(e) => Err(e)
      case Ok(popularity) =>
        Ok(Enrichment(row.artistId, row.dbName, row.spotifyArtistId, row.matchedName,
                      ParseGenres(row.genres), followers,
                      if row.imageUrl == [] then None else Some(row.imageUrl),
                      popularity, row.matchType))
  }

  /**
   * A row converts exactly when both numeric cells do, the followers cell
   * being reported first; the text cells are copied, the genres split and an
   * empty image cell becomes `None`.
   */
  lemma ParseRowFields(row: EnrichmentRow)
    ensures ParseRow(row).Ok? <==> IntCell(row.followers).Ok? && IntCell(row.popularity).Ok?
    ensures ParseRow(row).Err? && IntCell(row.followers).Err? ==> ParseRow(row).error == NotAnInteger(row.followers)
    ensures ParseRow(row).Ok? ==>
      var e := ParseRow(row).value;
      e.artistId == row.artistId && e.dbName == row.dbName &&
      e.spotifyArtistId == row.spotifyArtistId && e.matchedName == row.matchedName &&
      e.matchType == row.matchType && e.genres == ParseGenres(row.genres) &&
      e.followers == IntCell(row.followers).value && e.popularity == IntCell(row.popularity).value &&
      (e.imageUrl.None? <==> row.imageUrl == []) &&
      (e.imageUrl.Some? ==> e.imageUrl.value == row.imageUrl)
  {
  }

  /** Each row's conversion, in file order. */
  function Conversions(rows: seq<EnrichmentRow>): (cs: seq<Result<Enrichment, ReadError>>)
    ensures |cs| == |rows| && forall i :: 0 <= i < |rows| ==> cs[i] == ParseRow(rows[i])
  {
    seq(|rows|, i requires 0 <= i < |rows| => ParseRow(rows[i]))
  }

  /** The whole file: every row converted, or the first conversion error. */
  function ReadAll(rows: seq<EnrichmentRow>): Result<seq<Enrichment>, ReadError> {
    Collect(Conversions(rows))
  }

  /** The file reads exactly when every row converts, and then row by row. */
  lemma ReadAllRows(rows: seq<EnrichmentRow>)
    ensures ReadAll(rows).Ok? <==> forall i :: 0 <= i < |rows| ==> ParseRow(rows[i]).Ok?
    ensures ReadAll(rows).Ok? ==> |ReadAll(rows).value| == |rows|
    ensures ReadAll(rows).Ok? ==> forall i :: 0 <= i < |rows| ==> ParseRow(rows[i]) == Ok(ReadAll(rows).value[i])
  {
    CollectAll(Conversions(rows));
  }

  /** `read_enrichment_csv` over the rows `csv.DictReader` yields. */
  method ReadEnrichmentCsv(rows: seq<EnrichmentRow>) returns (r: Result<seq<Enrichment>, ReadError>)
    ensures r == ReadAll(rows)
  {
    ghost var cs := Conversions(rows);
    var enrichments: seq<Enrichment> := [];
    var i := 0;
    while i < |rows|
      invariant 0 <= i <= |rows|
      invariant Collect(cs[..i]) == Ok(enrichments)
    {
      TakeSnoc(cs, i);
      CollectSnoc(cs[..i], cs[i]);
      var e := ParseRow(rows[i]);
      if e.Err? {
        CollectStops(cs, i + 1);
        return Err(e.error);
      }
      enrichments := enrichments + [e.value];
      i := i + 1;
    }
    assert cs[..i] == cs;
    return Ok(enrichments);
  }

  // ---------------------------------------------------------------- round trip with the fetch phase

  /** The genre cell reads back as the genre list, unless that list is one empty genre. */
  lemma GenresRoundTrip(gs: seq<string>)
    requires forall k :: 0 <= k < |gs| ==> '|' !in gs[k]
    requires gs != [[]]
    ensures ParseGenres(FetchArtist.GenreCell(gs)) == gs
  {
    var cell := Join(gs, "|");
    assert "|" == ['|'];
    if gs != [] {
      if |gs| > 1 {
        assert cell == gs[0] + "|" + Join(gs[1..], "|");
      }
      assert cell != [];
      SplitJoin(gs, '|');
    }
  }

  /**
   * A row written by the fetch phase reads back with the same IDs, names,
   * genres, counts and match type; an absent image URL stays absent.
   */
  lemma FetchRowRoundTrip(artist: FetchArtist.DbArtist, m: FetchArtist.ArtistMatch)
    requires forall k :: 0 <= k < |m.genres| ==> '|' !in m.genres[k]
    requires m.genres != [[]]
    ensures ParseRow(FetchArtist.CsvRow(artist, m)) == Ok(Enrichment(
      artist.id, artist.name, m.spotifyArtistId, m.matchedName, m.genres, Some(m.followers),
      if Truthy(m.imageUrl) then m.imageUrl else None, Some(m.popularity),
      FetchArtist.MatchType(m.matchedName, artist.name)))
  {
    var row := FetchArtist.CsvRow(artist, m);
    PyIntShowInt(m.followers);
    PyIntShowInt(m.popularity);
    GenresRoundTrip(m.genres);
    assert IntCell(row.followers) == Ok(Some(m.followers));
    assert IntCell(row.popularity) == Ok(Some(m.popularity));
  }

  // ---------------------------------------------------------------- validation

  datatype Invalid = NoEnrichments | MissingArtistId(row: nat) | MissingSpotifyId(row: nat) | DuplicateSpotifyId

  /** Both required IDs are present. */
  predicate Complete(e: Enrichment) {
    e.artistId != [] && e.spotifyArtistId != []
  }

  function SpotifyIds(es: seq<Enrichment>): (ids: seq<string>)
    ensures |ids| == |es| && forall i :: 0 <= i < |es| ==> ids[i] == es[i].spotifyArtistId
  {
    seq(|es|, i requires 0 <= i < |es| => es[i].spotifyArtistId)
  }

  /** `set(s)` */
  function Elems(s: seq<string>): set<string>
    decreases |s|
  {
    if s == [] then {} else Elems(s[..|s| - 1]) + {s[|s| - 1]}
  }

  lemma {:induction false} ElemsIn(s: seq<string>, x: string)
    ensures x in Elems(s) <==> x in s
    decreases |s|
  {
    if s != [] {
      var n := |s| - 1;
      ElemsIn(s[..n], x);
      assert s == s[..n] + [s[n]];
    }
  }

  /** `len(s) == len(set(s))` exactly when no value repeats. */
  lemma {:induction false} DistinctCard(s: seq<string>)
    ensures |Elems(s)| <= |s|
    ensures |Elems(s)| == |s| <==> Distinct(s)
    decreases |s|
  {
    if s != [] {
      var n := |s| - 1;
      var p := s[..n];
      var x := s[n];
      DistinctCard(p);
      ElemsIn(p, x);
      assert s == p + [x];
      if x in p {
        assert Elems(s) == Elems(p);
        var j :| 0 <= j < n && p[j] == x;
        assert s[j] == s[n];
      } else {
        assert |Elems(s)| == |Elems(p)| + 1;
        DistinctSnoc(p, x);
      }
    }
  }

  lemma DistinctSnoc(p: seq<string>, x: string)
    requires x !in p
    ensures Distinct(p + [x]) <==> Distinct(p)
  {
    var s := p + [x];
    if Distinct(p) {
      forall i, j | 0 <= i < j < |s| ensures s[i] != s[j] {
        assert s[i] == p[i];
        if j < |p| {
          assert s[j] == p[j];
        }
      }
    } else {
      var i, j :| 0 <= i < j < |p| && p[i] == p[j];
      assert s[i] == s[j];
    }
  }

  /** The list `validate_enrichments` accepts: non-empty, both IDs on every row, no Spotify ID twice. */
  predicate Acceptable(es: seq<Enrichment>) {
    es != [] && (forall i :: 0 <= i < |es| ==> Complete(es[i])) && Distinct(SpotifyIds(es))
  }

  /** What a complaint says about the list; rows are numbered from 1 and the first offending row is named. */
  predicate Explains(es: seq<Enrichment>, v: Invalid) {
    match v
    case NoEnrichments => es == []
    case MissingArtistId(row) =>
      1 <= row <= |es| && es[row - 1].artistId == [] && forall j :: 0 <= j < row - 1 ==> Complete(es[j])
    case MissingSpotifyId(row) =>
      1 <= row <= |es| && es[row - 1].artistId != [] && es[row - 1].spotifyArtistId == []
      && forall j :: 0 <= j < row - 1 ==> Complete(es[j])
    case DuplicateSpotifyId => (forall i :: 0 <= i < |es| ==> Complete(es[i])) && !Distinct(SpotifyIds(es))
  }

  /** `validate_enrichments`: `None` when valid, else the first complaint. */
  method ValidateEnrichments(es: seq<Enrichment>) returns (r: Option<Invalid>)
    ensures es == [] ==> r == Some(NoEnrichments)
    ensures r.None? <==> Acceptable(es)
    ensures r.Some? ==> Explains(es, r.value)
  {
    if es == [] {
      return Some(NoEnrichments);
    }
    var i := 0;
    while i < |es|
      invariant 0 <= i <= |es|
      invariant forall j :: 0 <= j < i ==> Complete(es[j])
    {
      if es[i].artistId == [] {
        return Some(MissingArtistId(i + 1));
      }
      if es[i].spotifyArtistId == [] {
        return Some(MissingSpotifyId(i + 1));
      }
      i := i + 1;
    }
    var ids := SpotifyIds(es);
    DistinctCard(ids);
    if |ids| != |Elems(ids)| {
      return Some(DuplicateSpotifyId);
    }
    return None;
  }

  // ---------------------------------------------------------------- the bulk update

  /**
   * The columns the UPDATE sets on a matched artist: the Spotify ID, the
   * genre array, followers and image (NULL when absent) and `updated_at`.
   * Popularity is read from the file but never written.
   */
  function Enriched(row: ArtistRow, e: Enrichment, now: int): (r: ArtistRow)
    ensures r.name == row.name && r.updatedAt == now
    ensures r.spotifyArtistId == Some(e.spotifyArtistId) && r.genres == Some(e.genres)
    ensures r.followers == e.followers && r.imageUrl == e.imageUrl
  {
    row.(spotifyArtistId := Some(e.spotifyArtistId), genres := Some(e.genres), followers := e.followers,
         imageUrl := e.imageUrl, updatedAt := now)
  }

  /** No two enrichments name the same artist, so the UPDATE's join is a function. */
  predicate DistinctArtistIds(es: seq<Enrichment>) {
    forall i, j :: 0 <= i < j < |es| ==> es[i].artistId != es[j].artistId
  }

  /** The UPDATE ... FROM (VALUES ...) joined on the artist ID, one value tuple at a time. */
  function ApplyAll(artists: map<string, ArtistRow>, es: seq<Enrichment>, now: int): (r: map<string, ArtistRow>)
    ensures r.Keys == artists.Keys
    decreases |es|
  {
    if es == [] then artists
    else
      var m := ApplyAll(artists, es[..|es| - 1], now);
      var e := es[|es| - 1];
      if e.artistId in m then m[e.artistId := Enriched(m[e.artistId], e, now)] else m
  }

  /** The value tuples that found their artist: the rows one UPDATE over them matches. */
  function Matched(artists: map<string, ArtistRow>, es: seq<Enrichment>): (n: nat)
    ensures n <= |es|
    decreases |es|
  {
    if es == [] then 0
    else Matched(artists, es[..|es| - 1]) + (if es[|es| - 1].artistId in artists then 1 else 0)
  }

  lemma ApplyAllSnoc(artists: map<string, ArtistRow>, es: seq<Enrichment>, e: Enrichment, now: int)
    ensures ApplyAll(artists, es + [e], now) ==
      var m := ApplyAll(artists, es, now);
      if e.artistId in m then m[e.artistId := Enriched(m[e.artistId], e, now)] else m
    ensures Matched(artists, es + [e]) == Matched(artists, es) + (if e.artistId in artists then 1 else 0)
  {
    assert (es + [e])[..|es|] == es;
  }

  /** Counting matches splits over a concatenation. */
  lemma {:induction false} MatchedAppend(artists: map<string, ArtistRow>, a: seq<Enrichment>, b: seq<Enrichment>)
    ensures Matched(artists, a + b) == Matched(artists, a) + Matched(artists, b)
    decreases |b|
  {
    if b != [] {
      var n := |b| - 1;
      MatchedAppend(artists, a, b[..n]);
      assert (a + b)[..|a + b| - 1] == a + b[..n];
    } else {
      assert a + b == a;
    }
  }

  /** Where the page of `execute_values` holding entry `i` starts. */
  function PageStart(i: nat): (p: nat)
    ensures p <= i && i - p < PageSize
  {
    PageFacts(i);
    Page(i) * PageSize
  }

  /**
   * `cursor.rowcount` after `execute_values`: each page of `PageSize` tuples
   * is its own UPDATE, so the count is the last page's matches; with no
   * tuples no statement runs and the count stays -1.
   */
  function LastPageCount(artists: map<string, ArtistRow>, es: seq<Enrichment>): int {
    if es == [] then -1 else Matched(artists, es[PageStart(|es| - 1)..])
  }

  /** The row count never exceeds the matches over the whole list, and is all of them for one page. */
  lemma LastPageCountBound(artists: map<string, ArtistRow>, es: seq<Enrichment>)
    requires es != []
    ensures 0 <= LastPageCount(artists, es) <= Matched(artists, es)
    ensures |es| <= PageSize ==> LastPageCount(artists, es) == Matched(artists, es)
  {
    var p := PageStart(|es| - 1);
    assert LastPageCount(artists, es) == Matched(artists, es[p..]);
    assert es == es[..p] + es[p..];
    MatchedAppend(artists, es[..p], es[p..]);
    if |es| <= PageSize {
      PageFacts(|es| - 1);
      assert p == 0;
      assert es[p..] == es;
    }
  }

  /**
   * When every enrichment names an artist, the row count is the size of the
   * last page only: 150 enrichments give 50.
   */
  lemma LastPageCountAllMatch(artists: map<string, ArtistRow>, es: seq<Enrichment>)
    requires es != [] && forall i :: 0 <= i < |es| ==> es[i].artistId in artists
    ensures LastPageCount(artists, es) == |es| - PageStart(|es| - 1)
  {
    var p := PageStart(|es| - 1);
    MatchedAll(artists, es[p..]);
  }

  lemma {:induction false} MatchedAll(artists: map<string, ArtistRow>, es: seq<Enrichment>)
    requires forall i :: 0 <= i < |es| ==> es[i].artistId in artists
    ensures Matched(artists, es) == |es|
    decreases |es|
  {
    if es != [] {
      MatchedAll(artists, es[..|es| - 1]);
    }
  }

  /** A tuple opening a page is the first row of a new statement: the count starts afresh. */
  lemma LastPageCountFresh(artists: map<string, ArtistRow>, q: seq<Enrichment>, e: Enrichment)
    requires |q| % PageSize == 0
    ensures LastPageCount(artists, q + [e]) == if e.artistId in artists then 1 else 0
  {
    var n := |q|;
    PageFacts(n);
    assert PageStart(n) == n;
    var r := q + [e];
    assert |r| - 1 == n;
    assert r[n..] == [] + [e];
    MatchedSnoc(artists, [], e);
    assert LastPageCount(artists, r) == Matched(artists, r[n..]);
  }

  /** A tuple inside the current page adds its match to that page's count. */
  lemma LastPageCountSame(artists: map<string, ArtistRow>, q: seq<Enrichment>, e: Enrichment)
    requires |q| % PageSize != 0
    ensures LastPageCount(artists, q + [e]) == LastPageCount(artists, q) + (if e.artistId in artists then 1 else 0)
  {
    PageFacts(|q|);
    var p := PageStart(|q| - 1);
    assert PageStart(|q|) == p;
    assert (q + [e])[p..] == q[p..] + [e];
    MatchedSnoc(artists, q[p..], e);
  }

  lemma MatchedSnoc(artists: map<string, ArtistRow>, es: seq<Enrichment>, e: Enrichment)
    ensures Matched(artists, es + [e]) == Matched(artists, es) + (if e.artistId in artists then 1 else 0)
  {
    assert (es + [e])[..|es|] == es;
  }

  /** An artist no enrichment names keeps its row. */
  lemma {:induction false} ApplyAllOther(artists: map<string, ArtistRow>, es: seq<Enrichment>, now: int, k: string)
    requires k in artists && forall i :: 0 <= i < |es| ==> es[i].artistId != k
    ensures ApplyAll(artists, es, now)[k] == artists[k]
    decreases |es|
  {
    if es != [] {
      var n := |es| - 1;
      ApplyAllOther(artists, es[..n], now, k);
    }
  }

  /** An artist an enrichment names gets that enrichment's columns over its old row. */
  lemma {:induction false} ApplyAllRow(artists: map<string, ArtistRow>, es: seq<Enrichment>, now: int, i: nat)
    requires DistinctArtistIds(es) && i < |es| && es[i].artistId in artists
    ensures ApplyAll(artists, es, now)[es[i].artistId] == Enriched(artists[es[i].artistId], es[i], now)
    decreases |es|
  {
    var n := |es| - 1;
    var p := es[..n];
    if i < n {
      assert DistinctArtistIds(p) && p[i] == es[i];
      ApplyAllRow(artists, p, now, i);
    } else {
      forall j | 0 <= j < |p| ensures p[j].artistId != es[i].artistId {
        assert p[j] == es[j];
      }
      ApplyAllOther(artists, p, now, es[i].artistId);
    }
  }

  /** Applying the same file twice at the same time leaves the table as one application does. */
  lemma {:induction false} ApplyAllIdempotent(artists: map<string, ArtistRow>, es: seq<Enrichment>, now: int)
    requires DistinctArtistIds(es)
    ensures ApplyAll(ApplyAll(artists, es, now), es, now) == ApplyAll(artists, es, now)
  {
    var once := ApplyAll(artists, es, now);
    var twice := ApplyAll(once, es, now);
    forall k | k in twice ensures twice[k] == once[k] {
      if i :| 0 <= i < |es| && es[i].artistId == k {
        ApplyAllRow(artists, es, now, i);
        ApplyAllRow(once, es, now, i);
      } else {
        ApplyAllOther(once, es, now, k);
      }
    }
  }

  /**
   * `apply_enrichments`: the bulk UPDATE, sent by `execute_values` in
   * pages of `PageSize` tuples, is statement 0 of its own transaction; on
   * success the cursor's row count is returned, on a raise the transaction
   * is rolled back and `main` exits.
   */
  method ApplyEnrichments(db: Database, es: seq<Enrichment>, now: int, fault: Fault) returns (r: Result<int, DbError>)
    requires db.Valid() && db.snapshot.None? && DistinctArtistIds(es)
    modifies db
    ensures db.Valid() && db.snapshot.None?
    ensures r.Err? <==> fault.Raises(0)
    ensures r.Err? ==> db.State() == old(db.State())
    ensures r.Ok? ==> db.State() == old(db.State()).(artists := ApplyAll(old(db.artists), es, now))
    ensures r.Ok? ==> r.value == LastPageCount(old(db.artists), es)
  {
    ghost var s0 := db.State();
    db.Begin();
    var count := -1;
    var i := 0;
    while i < |es|
      invariant 0 <= i <= |es|
      invariant db.State() == s0.(artists := ApplyAll(s0.artists, es[..i], now))
      invariant count == LastPageCount(s0.artists, es[..i])
      invariant db.snapshot == Some(s0)
    {
      var e := es[i];
      TakeSnoc(es, i);
      ApplyAllSnoc(s0.artists, es[..i], e, now);
      if i % PageSize == 0 {
        LastPageCountFresh(s0.artists, es[..i], e);
        count := 0;
      } else {
        LastPageCountSame(s0.artists, es[..i], e);
      }
      if e.artistId in db.artists {
        db.artists := db.artists[e.artistId := Enriched(db.artists[e.artistId], e, now)];
        count := count + 1;
      }
      i := i + 1;
    }
    assert es[..i] == es;
    if fault.Raises(0) {
      db.Rollback();
      return Err(StatementFailed(0));
    }
    db.Commit();
    return Ok(count);
  }

  // ---------------------------------------------------------------- main

  predicate IsExact(e: Enrichment) {
    e.matchType == Exact
  }

  predicate IsFuzzy(e: Enrichment) {
    e.matchType == Fuzzy
  }

  /** The two counts of the summary never exceed the number of enrichments together. */
  lemma {:induction false} MatchCountsBound(es: seq<Enrichment>)
    ensures CountWhere(es, IsExact) + CountWhere(es, IsFuzzy) <= |es|
    decreases |es|
  {
    if es != [] {
      var n := |es| - 1;
      MatchCountsBound(es[..n]);
      assert !(IsExact(es[n]) && IsFuzzy(es[n]));
    }
  }

  /** How a run of `main` ends once the CSV has been read. */
  datatype Outcome =
    | ReadFailed(readError: ReadError)
    | Rejected(reason: Invalid)
    | Aborted
    | ApplyFailed(dbError: DbError)
    | Applied(updated: int, exact: nat, fuzzy: nat)

  /**
   * `main` from reading the rows to the final report: read, validate, count
   * exact and fuzzy matches, ask for confirmation (`response.lower() != 'y'`
   * aborts) and apply.
   */
  method ApplyMain(db: Database, rows: seq<EnrichmentRow>, response: string, now: int, fault: Fault)
    returns (out: Outcome)
    requires db.Valid() && db.snapshot.None?
    requires ReadAll(rows).Ok? ==> DistinctArtistIds(ReadAll(rows).value)
    modifies db
    ensures db.Valid() && db.snapshot.None?
    ensures ReadAll(rows).Err? <==> out.ReadFailed?
    ensures out.ReadFailed? ==> out.readError == ReadAll(rows).error
    ensures ReadAll(rows).Ok? ==>
      var es := ReadAll(rows).value;
      (out.Rejected? <==> !Acceptable(es))
      && (out.Rejected? ==> Explains(es, out.reason))
      && (out.Aborted? <==> Acceptable(es) && Lower(response) != "y")
      && (out.ApplyFailed? <==> Acceptable(es) && Lower(response) == "y" && fault.Raises(0))
      && (out.Applied? <==> Acceptable(es) && Lower(response) == "y" && !fault.Raises(0))
    ensures out.Applied? ==>
      var es := ReadAll(rows).value;
      Lower(response) == "y" &&
      db.State() == old(db.State()).(artists := ApplyAll(old(db.artists), es, now)) &&
      out.updated == LastPageCount(old(db.artists), es) &&
      out.exact == CountWhere(es, IsExact) && out.fuzzy == CountWhere(es, IsFuzzy)
    ensures !out.Applied? && !out.ApplyFailed? ==> db.State() == old(db.State())
    ensures out.ApplyFailed? ==> db.State() == old(db.State()) && fault.Raises(0)
  {
    var read := ReadEnrichmentCsv(rows);
    if read.Err? {
      return ReadFailed(read.error);
    }
    var es := read.value;
    var invalid := ValidateEnrichments(es);
    if invalid.Some? {
      return Rejected(invalid.value);
    }
    var exact := CountWhere(es, IsExact);
    var fuzzy := CountWhere(es, IsFuzzy);
    if Lower(response) != "y" {
      return Aborted;
    }
    var updated := ApplyEnrichments(db, es, now, fault);
    if updated.Err? {
      return ApplyFailed(updated.error);
    }
    return Applied(updated.value, exact, fuzzy);
  }
}
