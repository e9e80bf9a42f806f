/**
 * The popularity/ISRC fetch: the catalog tracks are cut into batches of 50,
 * each batch asks the catalog once for its distinct Spotify IDs, and every
 * database track whose ID came back yields one result row. The catalog's
 * batch call is an oracle from the requested IDs to its answer.
 */
module FetchMetadata {
  import opened Common
  import opened Text
  import opened Batching

  const BatchSize: nat := 50

  /** A row of `get_all_tracks`: internal ID and Spotify ID. */
  datatype DbTrack = DbTrack(id: string, spotifyId: string)

  /** An item of the batch answer. */
  datatype Item = Item(spotifyId: string, popularity: Option<int>, isrc: Option<string>)

  /** `get_tracks_batch(ids)`: it raises, or answers a list of items. */
  datatype BatchAnswer = Raised | Items(items: seq<Item>)

  /** One result row. */
  datatype ResultRow = ResultRow(trackId: string, spotifyId: string, popularity: Option<int>, isrc: Option<string>)

  /** The counters and rows after some batches. */
  datatype Summary = Summary(rows: seq<ResultRow>, success: nat, missingIsrc: nat, errors: nat)

  // ---------------------------------------------------------------- one batch

  /** The Spotify IDs of a batch, in batch order. */
  function SpotifyIds(batch: seq<DbTrack>): (r: seq<string>)
    ensures |r| == |batch|
    ensures forall k :: 0 <= k < |batch| ==> r[k] == batch[k].spotifyId
    decreases |batch|
  {
    if batch == [] then [] else SpotifyIds(batch[..|batch| - 1]) + [batch[|batch| - 1].spotifyId]
  }

  /**
   * `list(set(ids))`: each ID once. Python leaves the order unspecified; the
   * model keeps first appearances.
   */
  function Unique(ids: seq<string>): (r: seq<string>)
    ensures Distinct(r)
    ensures forall x :: x in r <==> x in ids
    decreases |ids|
  {
    if ids == [] then []
    else
      var front := Unique(ids[..|ids| - 1]);
      var x := ids[|ids| - 1];
      assert forall y :: y in ids <==> y in ids[..|ids| - 1] || y == x;
      if x in front then front else front + [x]
  }

  /** `{item['spotify_id']: item for item in spotify_data}`: later items win. */
  function Lookup(items: seq<Item>): (m: map<string, Item>)
    ensures forall k :: k in m ==> m[k] in items && m[k].spotifyId == k
    ensures forall it :: it in items ==> it.spotifyId in m
    decreases |items|
  {
    if items == [] then map[]
    else
      var it := items[|items| - 1];
      var front := items[..|items| - 1];
      assert forall x :: x in items <==> x in front || x == it;
      Lookup(front)[it.spotifyId := it]
  }

  /** `not spotify_item.get('isrc')`: `None` or empty. */
  predicate MissingIsrc(isrc: Option<string>) {
    isrc.None? || isrc.value == []
  }

  /** The tracks the answer did not cover. */
  function NotFound(lookup: map<string, Item>): DbTrack -> bool {
    (t: DbTrack) => t.spotifyId !in lookup
  }

  function RowMissingIsrc(row: ResultRow): bool {
    MissingIsrc(row.isrc)
  }

  function RowOf(t: DbTrack, it: Item): ResultRow {
    ResultRow(t.id, t.spotifyId, it.popularity, it.isrc)
  }

  /** The rows of one answered batch: one per track whose ID came back, in batch order, repeats included. */
  function BatchRows(batch: seq<DbTrack>, lookup: map<string, Item>): (r: seq<ResultRow>)
    ensures |r| <= |batch|
    decreases |batch|
  {
    if batch == [] then []
    else
      var t := batch[|batch| - 1];
      BatchRows(batch[..|batch| - 1], lookup) + (if t.spotifyId in lookup then [RowOf(t, lookup[t.spotifyId])] else [])
  }

  lemma BatchRowsSnoc(batch: seq<DbTrack>, t: DbTrack, lookup: map<string, Item>)
    ensures BatchRows(batch + [t], lookup)
      == BatchRows(batch, lookup) + (if t.spotifyId in lookup then [RowOf(t, lookup[t.spotifyId])] else [])
  {
    assert (batch + [t])[..|batch|] == batch;
  }

  /** Every row comes from a batch track whose ID came back, with the catalog's popularity and ISRC. */
  lemma {:induction false} BatchRowsSound(batch: seq<DbTrack>, lookup: map<string, Item>, row: ResultRow)
    requires row in BatchRows(batch, lookup)
    ensures row.spotifyId in lookup && row == RowOf(DbTrack(row.trackId, row.spotifyId), lookup[row.spotifyId])
    ensures DbTrack(row.trackId, row.spotifyId) in batch
    decreases |batch|
  {
    var front := batch[..|batch| - 1];
    if row in BatchRows(front, lookup) {
      BatchRowsSound(front, lookup, row);
    }
  }

  /** Found tracks give rows and the others errors: together, one count per track. */
  lemma {:induction false} BatchRowsCount(batch: seq<DbTrack>, lookup: map<string, Item>)
    ensures |BatchRows(batch, lookup)| + CountWhere(batch, NotFound(lookup)) == |batch|
    decreases |batch|
  {
    if batch != [] {
      BatchRowsCount(batch[..|batch| - 1], lookup);
    }
  }

  /** Every track of the batch whose ID came back has its row. */
  lemma {:induction false} BatchRowsComplete(batch: seq<DbTrack>, lookup: map<string, Item>, i: nat)
    requires i < |batch| && batch[i].spotifyId in lookup
    ensures RowOf(batch[i], lookup[batch[i].spotifyId]) in BatchRows(batch, lookup)
    decreases |batch|
  {
    if i < |batch| - 1 {
      BatchRowsComplete(batch[..|batch| - 1], lookup, i);
    }
  }

  function MissingCount(rows: seq<ResultRow>): (n: nat)
    ensures n <= |rows|
  {
    CountWhere(rows, RowMissingIsrc)
  }

  /**
   * One batch of `fetch_spotify_data`: a raising request counts the whole
   * batch as errors and adds no row; otherwise found tracks add rows and
   * successes, the others add errors.
   */
  function BatchStep(o: Summary, batch: seq<DbTrack>, api: seq<string> -> BatchAnswer): Summary {
    match api(Unique(SpotifyIds(batch)))
    case Raised => o.(errors := o.errors + |batch|)
    case Items(items) =>
      var lookup := Lookup(items);
      var rows := BatchRows(batch, lookup);
      Summary(o.rows + rows, o.success + |rows|, o.missingIsrc + MissingCount(rows),
              o.errors + CountWhere(batch, NotFound(lookup)))
  }

  /** The batches in order, as a fold over the batches processed so far. */
  function FetchAll(batches: seq<seq<DbTrack>>, api: seq<string> -> BatchAnswer): Summary
    decreases |batches|
  {
    if batches == [] then Summary([], 0, 0, 0)
    else BatchStep(FetchAll(batches[..|batches| - 1], api), batches[|batches| - 1], api)
  }

  lemma FetchAllStep(batches: seq<seq<DbTrack>>, b: nat, api: seq<string> -> BatchAnswer)
    requires b < |batches|
    ensures FetchAll(batches[..b + 1], api) == BatchStep(FetchAll(batches[..b], api), batches[b], api)
  {
    var p := batches[..b + 1];
    assert p[..b] == batches[..b] && p[b] == batches[b];
  }

  function TotalLength(batches: seq<seq<DbTrack>>): nat
    decreases |batches|
  {
    if batches == [] then 0 else TotalLength(batches[..|batches| - 1]) + |batches[|batches| - 1]|
  }

  /**
   * The counters agree with the rows: `success_count` is the number of rows,
   * `missing_isrc_count` never exceeds it, and every track is counted once,
   * as a success or as an error.
   */
  lemma {:induction false} FetchAllCounts(batches: seq<seq<DbTrack>>, api: seq<string> -> BatchAnswer)
    ensures var s := FetchAll(batches, api);
      s.success == |s.rows| && s.missingIsrc <= s.success && s.success + s.errors == TotalLength(batches)
    decreases |batches|
  {
    if batches != [] {
      var front := batches[..|batches| - 1];
      var batch := batches[|batches| - 1];
      FetchAllCounts(front, api);
      match api(Unique(SpotifyIds(batch))) {
        case Raised =>
        case Items(items) => BatchRowsCount(batch, Lookup(items));
      }
    }
  }

  lemma {:induction false} FlattenAppend(xss: seq<seq<DbTrack>>, xs: seq<DbTrack>)
    ensures Flatten(xss + [xs]) == Flatten(xss) + xs
    decreases |xss|
  {
    if xss == [] {
      assert [xs][1..] == [];
    } else {
      assert (xss + [xs])[1..] == xss[1..] + [xs];
      FlattenAppend(xss[1..], xs);
    }
  }

  lemma {:induction false} TotalLengthFlatten(batches: seq<seq<DbTrack>>)
    ensures TotalLength(batches) == |Flatten(batches)|
    decreases |batches|
  {
    if batches != [] {
      var front := batches[..|batches| - 1];
      TotalLengthFlatten(front);
      assert front + [batches[|batches| - 1]] == batches;
      FlattenAppend(front, batches[|batches| - 1]);
    }
  }

  /** Over the batches of 50, every input track is counted exactly once. */
  lemma EveryTrackCounted(tracks: seq<DbTrack>, api: seq<string> -> BatchAnswer)
    ensures var s := FetchAll(Chunks(tracks, BatchSize), api);
      s.success + s.errors == |tracks| && s.missingIsrc <= s.success
  {
    FetchAllCounts(Chunks(tracks, BatchSize), api);
    TotalLengthFlatten(Chunks(tracks, BatchSize));
    FlattenChunks(tracks, BatchSize);
  }

  // ---------------------------------------------------------------- the loops

  /** The inner loop of `fetch_spotify_data` over one answered batch. */
  method MapBatch(batch: seq<DbTrack>, lookup: map<string, Item>)
    returns (rows: seq<ResultRow>, success: nat, missing: nat, errors: nat)
    ensures rows == BatchRows(batch, lookup) && success == |rows|
    ensures missing == MissingCount(rows)
    ensures errors == CountWhere(batch, NotFound(lookup))
  {
    rows, success, missing, errors := [], 0, 0, 0;
    ghost var done: seq<DbTrack> := [];
    var i := 0;
    while i < |batch|
      invariant 0 <= i <= |batch| && done == batch[..i]
      invariant rows == BatchRows(done, lookup) && success == |rows|
      invariant missing == MissingCount(rows)
      invariant errors == CountWhere(done, NotFound(lookup))
    {
      var t := batch[i];
      CountWhereSnoc(done, t, NotFound(lookup));
      BatchRowsSnoc(done, t, lookup);
      if t.spotifyId !in lookup {
        errors := errors + 1;
      } else {
        var row := RowOf(t, lookup[t.spotifyId]);
        CountWhereSnoc(rows, row, RowMissingIsrc);
        rows := rows + [row];
        success := success + 1;
        if MissingIsrc(row.isrc) {
          missing := missing + 1;
        }
      }
      TakeSnoc(batch, i);
      done := done + [t];
      i := i + 1;
    }
    assert batch[..|batch|] == batch;
  }

  /**
   * `fetch_spotify_data`: batches of 50, each sending its distinct Spotify
   * IDs once; returns the rows and the three counters.
   */
  method FetchSpotifyData(tracks: seq<DbTrack>, api: seq<string> -> BatchAnswer)
    returns (results: seq<ResultRow>, success: nat, missingIsrc: nat, errors: nat)
    ensures Summary(results, success, missingIsrc, errors) == FetchAll(Chunks(tracks, BatchSize), api)
    ensures success + errors == |tracks| && missingIsrc <= success
  {
    results, success, missingIsrc, errors := FetchBatches(Chunks(tracks, BatchSize), api);
    EveryTrackCounted(tracks, api);
  }

  /** The outer loop of `fetch_spotify_data`, one request per batch. */
  method FetchBatches(batches: seq<seq<DbTrack>>, api: seq<string> -> BatchAnswer)
    returns (results: seq<ResultRow>, success: nat, missingIsrc: nat, errors: nat)
    ensures Summary(results, success, missingIsrc, errors) == FetchAll(batches, api)
  {
    results, success, missingIsrc, errors := [], 0, 0, 0;
    for b := 0 to |batches|
      invariant Summary(results, success, missingIsrc, errors) == FetchAll(batches[..b], api)
    {
      FetchAllStep(batches, b, api);
      results, success, missingIsrc, errors := FetchBatch(batches[b], api, results, success, missingIsrc, errors);
    }
    TakeAll(batches);
  }

  /** The body of the outer loop: one request, then the rows and counters it adds. */
  method FetchBatch(batch: seq<DbTrack>, api: seq<string> -> BatchAnswer,
                    results0: seq<ResultRow>, success0: nat, missing0: nat, errors0: nat)
    returns (results: seq<ResultRow>, success: nat, missingIsrc: nat, errors: nat)
    ensures Summary(results, success, missingIsrc, errors) == BatchStep(Summary(results0, success0, missing0, errors0), batch, api)
  {
    results, success, missingIsrc, errors := results0, success0, missing0, errors0;
    var ids := Unique(SpotifyIds(batch));
    var answer := api(ids);
    match answer {
      case Raised =>
        errors := errors + |batch|;
      case Items(items) =>
        var lookup := Lookup(items);
        var rows, s, m, e := MapBatch(batch, lookup);
        results, success, missingIsrc, errors := results + rows, success + s, missingIsrc + m, errors + e;
    }
  }

  // ---------------------------------------------------------------- the CSV cells

  /** A row as written: a missing popularity becomes '' (0 stays "0"), a missing or empty ISRC ''. */
  datatype CsvRow = CsvRow(trackId: string, spotifyId: string, popularity: string, isrc: string)

  function CsvOf(row: ResultRow): (r: CsvRow)
    ensures r.popularity == [] <==> row.popularity.None?
    ensures row.popularity.Some? ==> r.popularity == ShowInt(row.popularity.value)
    ensures r.isrc == [] <==> MissingIsrc(row.isrc)
    ensures !MissingIsrc(row.isrc) ==> r.isrc == row.isrc.value
    ensures r.trackId == row.trackId && r.spotifyId == row.spotifyId
  {
    CsvRow(row.trackId, row.spotifyId,
           if row.popularity.Some? then ShowInt(row.popularity.value) else "",
           if !MissingIsrc(row.isrc) then row.isrc.value else "")
  }

  /** A popularity of 0 is written as "0", not as an empty cell. */
  lemma ZeroPopularityKept(row: ResultRow)
    requires row.popularity == Some(0)
    ensures CsvOf(row).popularity == "0"
  {
  }
}
