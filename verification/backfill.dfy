/**
 * The track-metadata backfill: fetch album, image, year, popularity and ISRC
 * from the catalog for batches of at most 50 tracks and merge them into the
 * `tracks` table with `COALESCE`, counting updated and failed tracks.
 * The catalog's `tracks(ids)` call is an oracle from the requested IDs to
 * its answer.
 */
module Backfill {
  import opened Common
  import opened Text
  import opened Db
  import opened Batching
  import EnrichMcp

  /** The most IDs one catalog request may carry. */
  const MaxBatch: nat := 50

  /** One entry of the catalog's answer, with absent keys already read as `None` / `''` / `[]`. */
  datatype CatalogTrack = CatalogTrack(
    id: string,
    albumName: Option<string>,
    images: seq<string>,
    releaseDate: string,
    popularity: Option<int>,
    isrc: Option<string>)

  /** `sp.tracks(ids)`: it raises, or answers a list that may hold nulls. */
  datatype TracksAnswer = Raised | Answer(tracks: seq<Option<CatalogTrack>>)

  /** The metadata kept for one track. */
  datatype TrackMeta = TrackMeta(
    albumName: Option<string>,
    albumImageUrl: Option<string>,
    releaseYear: Option<int>,
    popularity: Option<int>,
    isrc: Option<string>)

  datatype FetchError = BatchTooLarge

  // ---------------------------------------------------------------- one catalog track

  /** The second image when there are two or more, the only one when there is one. */
  function AlbumImage(images: seq<string>): (r: Option<string>)
    ensures r.None? <==> images == []
    ensures r.Some? ==> r.value in images
    ensures |images| >= 2 ==> r == Some(images[1])
  {
    if images == [] then None
    else if |images| >= 2 then Some(images[1])
    else Some(images[0])
  }

  /**
   * The release year as the backfill reads it: no date, no year; otherwise
   * the integer before the first '-', dropped outside 1900..2100 or when
   * unreadable.
   */
  function ReleaseYear(date: string): (r: Option<int>)
    ensures r.Some? ==> 1900 <= r.value <= 2100
  {
    if date == [] then None
    else
      match PyInt(Split(date, '-')[0])
      case None => None
      case Some(y) => if !(1900 <= y <= 2100) then None else Some(y)
  }

  /** The backfill and the MCP enrichment read a release date the same way. */
  lemma ReleaseYearAgrees(date: string)
    ensures ReleaseYear(date) == EnrichMcp.ExtractYear(Some(date))
  {
    EnrichMcp.YearTextIsFirstPiece(date);
  }

  function Meta(t: CatalogTrack): TrackMeta {
    TrackMeta(t.albumName, AlbumImage(t.images), ReleaseYear(t.releaseDate), t.popularity, t.isrc)
  }

  /** Some non-null entry of the answer carries ID `k`. */
  predicate Returned(ts: seq<Option<CatalogTrack>>, k: string) {
    exists i :: 0 <= i < |ts| && ts[i].Some? && ts[i].value.id == k
  }

  /** `metadata_map` after the loop: null entries skipped, keyed by the returned ID, later entries winning. */
  function MetadataMap(ts: seq<Option<CatalogTrack>>): (m: map<string, TrackMeta>)
    ensures forall k :: k in m <==> Returned(ts, k)
    decreases |ts|
  {
    if ts == [] then map[]
    else
      var n := |ts| - 1;
      var m := MetadataMap(ts[..n]);
      match ts[n]
      case None => m
      case Some(t) => m[t.id := Meta(t)]
  }

  /** The entry for an ID is built from the last catalog track carrying that ID. */
  lemma {:induction false} MetadataMapLast(ts: seq<Option<CatalogTrack>>, i: nat)
    requires i < |ts| && ts[i].Some?
    requires forall j :: i < j < |ts| && ts[j].Some? ==> ts[j].value.id != ts[i].value.id
    ensures MetadataMap(ts)[ts[i].value.id] == Meta(ts[i].value)
    decreases |ts|
  {
    var n := |ts| - 1;
    assert Returned(ts, ts[i].value.id);
    if i < n {
      var front := ts[..n];
      assert front[i] == ts[i];
      forall j | i < j < |front| && front[j].Some?
        ensures front[j].value.id != front[i].value.id
      {
        assert front[j] == ts[j];
      }
      MetadataMapLast(front, i);
      assert ts[n].Some? ==> ts[n].value.id != ts[i].value.id;
    }
  }

  lemma MetadataMapStep(ts: seq<Option<CatalogTrack>>, i: nat)
    requires i < |ts|
    ensures MetadataMap(ts[..i + 1]) ==
      if ts[i].Some? then MetadataMap(ts[..i])[ts[i].value.id := Meta(ts[i].value)] else MetadataMap(ts[..i])
  {
    assert ts[..i + 1][..i] == ts[..i];
  }

  /** `fetch_track_metadata_from_spotify`, as a function of the request and the catalog. */
  function FetchSpec(ids: seq<string>, catalog: seq<string> -> TracksAnswer): map<string, TrackMeta> {
    if ids == [] then map[]
    else match catalog(ids)
      case Raised => map[]
      case Answer(ts) => MetadataMap(ts)
  }

  /**
   * `fetch_track_metadata_from_spotify`: `{}` for no IDs and `ValueError` for
   * more than 50, both before any catalog request; `{}` when the request
   * raises. `calls` counts catalog requests.
   */
  method FetchTrackMetadata(ids: seq<string>, catalog: seq<string> -> TracksAnswer)
    returns (r: Result<map<string, TrackMeta>, FetchError>, calls: nat)
    ensures calls <= 1 && (calls == 0 <==> ids == [] || |ids| > MaxBatch)
    ensures r.Err? <==> |ids| > MaxBatch
    ensures ids == [] ==> r == Ok(map[])
    ensures r.Ok? ==> r.value == FetchSpec(ids, catalog)
    ensures r.Ok? && ids != [] && catalog(ids).Raised? ==> r.value == map[]
  {
    if ids == [] {
      return Ok(map[]), 0;
    }
    if |ids| > MaxBatch {
      return Err(BatchTooLarge), 0;
    }
    var answer := catalog(ids);
    calls := 1;
    match answer {
      case Raised =>
        return Ok(map[]), calls;
      case Answer(ts) =>
        var m: map<string, TrackMeta> := map[];
        var i := 0;
        while i < |ts|
          invariant 0 <= i <= |ts|
          invariant m == MetadataMap(ts[..i])
        {
          MetadataMapStep(ts, i);
          match ts[i] {
            case None =>
            case Some(t) => m := m[t.id := Meta(t)];
          }
          i := i + 1;
        }
        assert ts[..|ts|] == ts;
        return Ok(m), calls;
    }
  }

  // ---------------------------------------------------------------- the bulk update

  /** One row of the `UPDATE ... FROM unnest(...)` data: an internal track ID and its metadata. */
  datatype UpdateRow = UpdateRow(id: TrackId, meta: TrackMeta)

  predicate DistinctRowIds(rows: seq<UpdateRow>) {
    forall i, j :: 0 <= i < j < |rows| ==> rows[i].id != rows[j].id
  }

  /** The data row matching an internal ID, if any. */
  function RowFor(rows: seq<UpdateRow>, id: TrackId): (r: Option<TrackMeta>)
    ensures r.None? <==> forall i :: 0 <= i < |rows| ==> rows[i].id != id
    ensures r.Some? ==> exists i :: 0 <= i < |rows| && rows[i] == UpdateRow(id, r.value)
    decreases |rows|
  {
    if rows == [] then None
    else if rows[0].id == id then Some(rows[0].meta)
    else RowFor(rows[1..], id)
  }

  /** With distinct IDs, each data row is the one found for its ID. */
  lemma {:induction false} RowForDistinct(rows: seq<UpdateRow>, i: nat)
    requires DistinctRowIds(rows) && i < |rows|
    ensures RowFor(rows, rows[i].id) == Some(rows[i].meta)
    decreases |rows|
  {
    if i > 0 {
      assert rows[0].id != rows[i].id;
      RowForDistinct(rows[1..], i - 1);
    }
  }

  /**
   * `SET x = COALESCE(data.x, tracks.x)` for the five columns, and
   * `updated_at = NOW()`: a non-null value replaces, a null keeps.
   */
  function MergeMeta(row: TrackRow, m: TrackMeta, now: int): (r: TrackRow)
    ensures r.updatedAt == now
    ensures m.albumName.Some? ==> r.albumName == m.albumName
    ensures m.albumName.None? ==> r.albumName == row.albumName
    ensures m.albumImageUrl.Some? ==> r.albumImageUrl == m.albumImageUrl
    ensures m.albumImageUrl.None? ==> r.albumImageUrl == row.albumImageUrl
    ensures m.releaseYear.Some? ==> r.releaseYear == m.releaseYear
    ensures m.releaseYear.None? ==> r.releaseYear == row.releaseYear
    ensures m.popularity.Some? ==> r.popularity == m.popularity
    ensures m.popularity.None? ==> r.popularity == row.popularity
    ensures m.isrc.Some? ==> r.isrc == m.isrc
    ensures m.isrc.None? ==> r.isrc == row.isrc
    ensures r.(albumName := row.albumName, albumImageUrl := row.albumImageUrl, releaseYear := row.releaseYear,
               popularity := row.popularity, isrc := row.isrc, updatedAt := row.updatedAt) == row
  {
    row.(albumName := Coalesce(m.albumName, row.albumName),
         albumImageUrl := Coalesce(m.albumImageUrl, row.albumImageUrl),
         releaseYear := Coalesce(m.releaseYear, row.releaseYear),
         popularity := Coalesce(m.popularity, row.popularity),
         isrc := Coalesce(m.isrc, row.isrc),
         updatedAt := now)
  }

  /** `WHERE tracks.id = data.id`: rows with a matching data row are merged, the others kept. */
  function ApplyMetadata(s: Tables, rows: seq<UpdateRow>, now: int): (r: Tables)
    ensures r.tracks.Keys == s.tracks.Keys
    ensures forall k :: k in s.tracks && RowFor(rows, s.tracks[k].id).None? ==> r.tracks[k] == s.tracks[k]
    ensures forall k :: k in s.tracks && RowFor(rows, s.tracks[k].id).Some? ==>
      r.tracks[k] == MergeMeta(s.tracks[k], RowFor(rows, s.tracks[k].id).value, now)
    ensures r.(tracks := s.tracks) == s
  {
    s.(tracks := map k | k in s.tracks ::
      match RowFor(rows, s.tracks[k].id)
      case None => s.tracks[k]
      case Some(m) => MergeMeta(s.tracks[k], m, now))
  }

  /** The update keeps every table invariant. */
  lemma ApplyMetadataValid(s: Tables, rows: seq<UpdateRow>, now: int)
    requires TablesValid(s)
    ensures TablesValid(ApplyMetadata(s, rows, now))
  {
    var r := ApplyMetadata(s, rows, now);
    forall k | k in r.tracks
      ensures r.tracks[k].id == s.tracks[k].id && r.tracks[k].spotifyId == s.tracks[k].spotifyId
    {
    }
  }

  /** Running the same update twice, at the same time, changes nothing more. */
  lemma ApplyMetadataIdempotent(s: Tables, rows: seq<UpdateRow>, now: int)
    ensures ApplyMetadata(ApplyMetadata(s, rows, now), rows, now) == ApplyMetadata(s, rows, now)
  {
    var once := ApplyMetadata(s, rows, now);
    var twice := ApplyMetadata(once, rows, now);
    forall k | k in once.tracks
      ensures twice.tracks[k] == once.tracks[k]
    {
      assert once.tracks[k].id == s.tracks[k].id;
      var m := RowFor(rows, s.tracks[k].id);
      if m.Some? {
        MergeMetaIdempotent(s.tracks[k], m.value, now);
      }
    }
    assert twice.tracks == once.tracks;
  }

  lemma MergeMetaIdempotent(row: TrackRow, m: TrackMeta, now: int)
    ensures MergeMeta(MergeMeta(row, m, now), m, now) == MergeMeta(row, m, now)
  {
  }

  /** Some track row carries internal ID `id`. */
  predicate HasTrack(s: Tables, id: TrackId) {
    exists k :: k in s.tracks && s.tracks[k].id == id
  }

  /** `cursor.rowcount`: the data rows whose ID names a track. */
  function RowCount(s: Tables, rows: seq<UpdateRow>): (n: nat)
    ensures n <= |rows|
  {
    CountWhere(rows, (u: UpdateRow) => HasTrack(s, u.id))
  }

  /**
   * `update_tracks_in_db`: 0 for no rows, without opening a connection;
   * otherwise one UPDATE (statement 0) in a transaction, returning the
   * number of rows it matched.
   */
  method UpdateTracksInDb(db: Database, rows: seq<UpdateRow>, now: int, fault: Fault) returns (r: Result<nat, DbError>)
    requires db.Valid() && db.snapshot.None? && DistinctRowIds(rows)
    modifies db
    ensures db.Valid() && db.snapshot.None?
    ensures rows == [] ==> r == Ok(0) && db.State() == old(db.State())
    ensures r.Err? <==> rows != [] && fault.Raises(0)
    ensures r.Err? ==> db.State() == old(db.State())
    ensures rows != [] && r.Ok? ==>
      (db.State() == ApplyMetadata(old(db.State()), rows, now) && r.value == RowCount(old(db.State()), rows))
  {
    if rows == [] {
      return Ok(0);
    }
    var s0 := db.State();
    db.Begin();
    ApplyMetadataValid(s0, rows, now);
    db.SetState(ApplyMetadata(s0, rows, now));
    if fault.Raises(0) {
      db.Rollback();
      return Err(StatementFailed(0));
    }
    var count := RowCount(s0, rows);
    db.Commit();
    return Ok(count);
  }

  // ---------------------------------------------------------------- the driver

  /** A row of `get_tracks_needing_backfill`. */
  datatype BackfillTrack = BackfillTrack(id: TrackId, spotifyId: string, title: string)

  predicate DistinctTrackIds(ts: seq<BackfillTrack>) {
    forall i, j :: 0 <= i < j < |ts| ==> ts[i].id != ts[j].id
  }

  function SpotifyIds(batch: seq<BackfillTrack>): (r: seq<string>)
    ensures |r| == |batch|
    decreases |batch|
  {
    if batch == [] then [] else SpotifyIds(batch[..|batch| - 1]) + [batch[|batch| - 1].spotifyId]
  }

  /** `tracks_to_update`: the batch tracks the map knows, in batch order, with their metadata. */
  function ToUpdate(batch: seq<BackfillTrack>, m: map<string, TrackMeta>): (r: seq<UpdateRow>)
    ensures |r| <= |batch|
    ensures forall u :: u in r ==> exists t :: t in batch && t.spotifyId in m && u == UpdateRow(t.id, m[t.spotifyId])
    decreases |batch|
  {
    if batch == [] then []
    else
      var t := batch[|batch| - 1];
      ToUpdate(batch[..|batch| - 1], m) + (if t.spotifyId in m then [UpdateRow(t.id, m[t.spotifyId])] else [])
  }

  /** Every batch track the map knows is sent. */
  lemma {:induction false} ToUpdateComplete(batch: seq<BackfillTrack>, m: map<string, TrackMeta>, i: nat)
    requires i < |batch| && batch[i].spotifyId in m
    ensures UpdateRow(batch[i].id, m[batch[i].spotifyId]) in ToUpdate(batch, m)
    decreases |batch|
  {
    if i < |batch| - 1 {
      ToUpdateComplete(batch[..|batch| - 1], m, i);
    }
  }

  /** Distinct track IDs in the batch give distinct data-row IDs. */
  lemma {:induction false} ToUpdateDistinct(batch: seq<BackfillTrack>, m: map<string, TrackMeta>)
    requires DistinctTrackIds(batch)
    ensures DistinctRowIds(ToUpdate(batch, m))
    decreases |batch|
  {
    if batch != [] {
      var n := |batch| - 1;
      var front := batch[..n];
      ToUpdateDistinct(front, m);
      var a := ToUpdate(front, m);
      forall u | u in a
        ensures u.id != batch[n].id
      {
        var t :| t in front && t.spotifyId in m && u == UpdateRow(t.id, m[t.spotifyId]);
        var j :| 0 <= j < n && front[j] == t;
      }
    }
  }

  lemma DistinctSlice(ts: seq<BackfillTrack>, lo: nat, hi: nat)
    requires DistinctTrackIds(ts) && lo <= hi <= |ts|
    ensures DistinctTrackIds(ts[lo..hi])
  {
    forall i, j | 0 <= i < j < hi - lo
      ensures ts[lo..hi][i].id != ts[lo..hi][j].id
    {
      assert ts[lo..hi][i] == ts[lo + i] && ts[lo..hi][j] == ts[lo + j];
    }
  }

  /** Tables and the two counters of `main`. */
  datatype Totals = Totals(tables: Tables, updated: nat, failed: nat)

  /**
   * One batch of `main`: an empty metadata map, or no batch track in it,
   * counts the whole batch as failed; otherwise the update's row count is
   * added to the updated tracks.
   */
  function BatchStep(o: Totals, batch: seq<BackfillTrack>, catalog: seq<string> -> TracksAnswer, now: int): Totals {
    var m := FetchSpec(SpotifyIds(batch), catalog);
    if m == map[] then o.(failed := o.failed + |batch|)
    else
      var rows := ToUpdate(batch, m);
      if rows == [] then o.(failed := o.failed + |batch|)
      else Totals(ApplyMetadata(o.tables, rows, now), o.updated + RowCount(o.tables, rows), o.failed)
  }

  /** Each batch adds at most its own length to the two counters together. */
  lemma BatchStepBounded(o: Totals, batch: seq<BackfillTrack>, catalog: seq<string> -> TracksAnswer, now: int)
    ensures var o2 := BatchStep(o, batch, catalog, now);
      o.updated <= o2.updated && o.failed <= o2.failed
      && o2.updated + o2.failed <= o.updated + o.failed + |batch|
  {
  }

  /** A failed catalog request fails the whole batch and leaves the tables alone. */
  lemma BatchStepRaised(o: Totals, batch: seq<BackfillTrack>, catalog: seq<string> -> TracksAnswer, now: int)
    requires batch != [] && catalog(SpotifyIds(batch)).Raised?
    ensures BatchStep(o, batch, catalog, now) == o.(failed := o.failed + |batch|)
  {
    FetchSpecRaised(SpotifyIds(batch), catalog);
  }

  lemma FetchSpecRaised(ids: seq<string>, catalog: seq<string> -> TracksAnswer)
    requires catalog(ids).Raised?
    ensures FetchSpec(ids, catalog) == map[]
  {
  }

  /** One more batch is one more step of the fold. */
  lemma RunBatchesStep(o: Totals, cs: seq<seq<BackfillTrack>>, catalog: seq<string> -> TracksAnswer, now: int, b: nat,
                        batch: seq<BackfillTrack>, before: Totals, after: Totals)
    requires b < |cs| && cs[b] == batch && RunBatches(o, cs[..b], catalog, now) == before
    requires after == BatchStep(before, batch, catalog, now)
    ensures RunBatches(o, cs[..b + 1], catalog, now) == after
  {
    assert cs[..b + 1][..b] == cs[..b];
  }

  /** The batches in order, as a fold over the batches processed so far. */
  function RunBatches(o: Totals, batches: seq<seq<BackfillTrack>>, catalog: seq<string> -> TracksAnswer, now: int): Totals
    decreases |batches|
  {
    if batches == [] then o
    else BatchStep(RunBatches(o, batches[..|batches| - 1], catalog, now), batches[|batches| - 1], catalog, now)
  }

  /**
   * How `main` stops early: `--batch-size` above 50, no catalog client,
   * the confirmation refused (`sys.exit(0)`), a zero batch size that makes
   * `range` raise, or an update that raises in batch `batch`.
   */
  datatype BackfillError = BatchSizeTooLarge | ConnectFailed | Aborted | ZeroBatchSize | UpdateFailed(batch: nat)

  /** `main` asks before starting when no truthy `--limit` was given and there are more than 100 tracks. */
  predicate AsksFirst(limit: Option<int>, count: nat) {
    !(limit.Some? && limit.value != 0) && count > 100
  }

  /** The checks before the batch loop all pass: size, client, tracks to do, and the confirmation if asked. */
  predicate Proceeds(tracks: seq<BackfillTrack>, batchSize: int, connected: bool, limit: Option<int>, answer: string) {
    batchSize <= MaxBatch && connected && tracks != [] && !(AsksFirst(limit, |tracks|) && Lower(answer) != "y")
  }

  /**
   * The body of `main`'s loop for one batch of at most 50 tracks: fetch,
   * keep the tracks the map knows, update them. `raised` is true when the
   * update raised, and then nothing changed.
   */
  method ProcessBatch(db: Database, batch: seq<BackfillTrack>, catalog: seq<string> -> TracksAnswer,
                      now: int, fault: Fault, o: Totals)
    returns (raised: bool, o2: Totals)
    requires db.Valid() && db.snapshot.None? && db.State() == o.tables
    requires 0 < |batch| <= MaxBatch && DistinctTrackIds(batch)
    modifies db
    ensures db.Valid() && db.snapshot.None?
    ensures raised ==> db.State() == old(db.State()) && fault.Raises(0)
    ensures !raised ==> o2 == BatchStep(o, batch, catalog, now) && db.State() == o2.tables
  {
    var fetched, _ := FetchTrackMetadata(SpotifyIds(batch), catalog);
    var m := fetched.value;
    if m == map[] {
      return false, o.(failed := o.failed + |batch|);
    }
    var rows := ToUpdate(batch, m);
    if rows == [] {
      return false, o.(failed := o.failed + |batch|);
    }
    ToUpdateDistinct(batch, m);
    var res := UpdateTracksInDb(db, rows, now, fault);
    if res.Err? {
      return true, o;
    }
    return false, Totals(db.State(), o.updated + res.value, o.failed);
  }

  /**
   * `main` after its arguments are read: a batch size above 50 is refused
   * before any work, then the catalog client must connect, then no tracks
   * means nothing to do, and a long run without a limit asks for `y` first.
   * A negative size gives an empty `range` and a zero size makes `range`
   * raise. Otherwise batch `b` is the slice at `b * size`; an update that
   * raises ends the run with the earlier batches committed. `faults(b)` is
   * the update fault of batch `b`.
   */
  method RunBackfill(db: Database, tracks: seq<BackfillTrack>, batchSize: int, connected: bool, limit: Option<int>,
                     answer: string, catalog: seq<string> -> TracksAnswer, now: int, faults: nat -> Fault)
    returns (r: Result<(nat, nat), BackfillError>)
    requires db.Valid() && db.snapshot.None? && DistinctTrackIds(tracks)
    modifies db
    ensures db.Valid() && db.snapshot.None?
    ensures batchSize > MaxBatch ==> r == Err(BatchSizeTooLarge) && db.State() == old(db.State())
    ensures batchSize <= MaxBatch && !connected ==> r == Err(ConnectFailed) && db.State() == old(db.State())
    ensures batchSize <= MaxBatch && connected && tracks == [] ==> r == Ok((0, 0)) && db.State() == old(db.State())
    ensures r == Err(Aborted) <==>
      batchSize <= MaxBatch && connected && tracks != [] && AsksFirst(limit, |tracks|) && Lower(answer) != "y"
    ensures r == Err(Aborted) ==> db.State() == old(db.State())
    ensures Proceeds(tracks, batchSize, connected, limit, answer) && batchSize < 0 ==>
      r == Ok((0, 0)) && db.State() == old(db.State())
    ensures Proceeds(tracks, batchSize, connected, limit, answer) && batchSize == 0 ==>
      r == Err(ZeroBatchSize) && db.State() == old(db.State())
    ensures r.Ok? ==> r.value.0 + r.value.1 <= |tracks|
    ensures Proceeds(tracks, batchSize, connected, limit, answer) && 0 < batchSize ==> r.Ok? || r.error.UpdateFailed?
    ensures 0 < batchSize <= MaxBatch && r.Ok? ==>
      var o := RunBatches(Totals(old(db.State()), 0, 0), Chunks(tracks, batchSize as nat), catalog, now);
      db.State() == o.tables && r.value == (o.updated, o.failed)
    ensures 0 < batchSize <= MaxBatch && r.Err? && r.error.UpdateFailed? ==>
      r.error.batch < |Chunks(tracks, batchSize as nat)| && faults(r.error.batch).Raises(0)
      && db.State() == RunBatches(Totals(old(db.State()), 0, 0), Chunks(tracks, batchSize as nat)[..r.error.batch], catalog, now).tables
  {
    if batchSize > MaxBatch as int {
      return Err(BatchSizeTooLarge);
    }
    if !connected {
      return Err(ConnectFailed);
    }
    if tracks == [] {
      return Ok((0, 0));
    }
    if AsksFirst(limit, |tracks|) && Lower(answer) != "y" {
      return Err(Aborted);
    }
    if batchSize < 0 {
      return Ok((0, 0));
    }
    if batchSize == 0 {
      return Err(ZeroBatchSize);
    }
    r := BatchLoop(db, tracks, batchSize as nat, catalog, now, faults);
  }

  /** `main`'s `for i in range(0, len(tracks), size)` loop, for a size in 1..50. */
  method BatchLoop(db: Database, tracks: seq<BackfillTrack>, size: nat,
                   catalog: seq<string> -> TracksAnswer, now: int, faults: nat -> Fault)
    returns (r: Result<(nat, nat), BackfillError>)
    requires db.Valid() && db.snapshot.None? && DistinctTrackIds(tracks)
    requires 0 < size <= MaxBatch
    modifies db
    ensures db.Valid() && db.snapshot.None?
    ensures r.Ok? ==> r.value.0 + r.value.1 <= |tracks|
    ensures r.Ok? ==>
      var o := RunBatches(Totals(old(db.State()), 0, 0), Chunks(tracks, size), catalog, now);
      db.State() == o.tables && r.value == (o.updated, o.failed)
    ensures r.Err? ==>
      r.error.UpdateFailed? && r.error.batch < |Chunks(tracks, size)| && faults(r.error.batch).Raises(0)
      && db.State() == RunBatches(Totals(old(db.State()), 0, 0), Chunks(tracks, size)[..r.error.batch], catalog, now).tables
  {
    ghost var chunks := Chunks(tracks, size);
    ghost var s0 := db.State();
    var updated: nat, failed: nat := 0, 0;
    var i: nat := 0;
    var b: nat := 0;
    while i < |tracks|
      invariant i <= |tracks| && b <= |chunks|
      invariant chunks[b..] == Chunks(tracks[i..], size)
      invariant db.Valid() && db.snapshot.None?
      invariant updated + failed <= i
      invariant RunBatches(Totals(s0, 0, 0), chunks[..b], catalog, now) == Totals(db.State(), updated, failed)
      decreases |tracks| - i
    {
      var hi := Min(i + size, |tracks|);
      NextChunk(tracks, size, i, chunks, b);
      var batch := tracks[i..hi];
      DistinctSlice(tracks, i, hi);
      var before := Totals(db.State(), updated, failed);
      BatchStepBounded(before, batch, catalog, now);
      var raised, after := ProcessBatch(db, batch, catalog, now, faults(b), before);
      if raised {
        return Err(UpdateFailed(b));
      }
      RunBatchesStep(Totals(s0, 0, 0), chunks, catalog, now, b, batch, before, after);
      updated, failed := after.updated, after.failed;
      b := b + 1;
      i := hi;
    }
    assert Chunks(tracks[i..], size) == [];
    assert chunks[..b] == chunks;
    return Ok((updated, failed));
  }
}
