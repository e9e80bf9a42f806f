/**
 * `enrich_existing_tracks.py`: for the chosen packs, every track still
 * without a release year is looked up on Spotify and its year, album and
 * primary genre are written back; per-pack counters are summed into an
 * overall report. The Spotify lookups are an oracle that either answers or
 * raises; the database is the `Database` of the `Db` module.
 */
module EnrichExisting {
  import opened Common
  import opened Text
  import opened Db
  import opened Catalog
  import Spotify

  /**
   * What the lookups of one track give: the year from the album's release
   * date, the album name and the primary genre of its artists.
   */
  datatype Fetched = Fetched(releaseYear: Option<int>, albumName: Option<string>, primaryGenre: Option<string>)

  /** The `stats` dict. */
  datatype Stats = Stats(total: nat, success: nat, failed: nat, noGenre: nat, noYear: nat)

  /** Every track counted once, as a success or a failure; the two "without" counts are among the successes. */
  predicate Balanced(s: Stats) {
    s.success + s.failed == s.total && s.noGenre <= s.success && s.noYear <= s.success
  }

  // ---------------------------------------------------------------- one pack

  /** `release_year IS NULL` */
  predicate YearMissing(t: TrackRow) {
    t.releaseYear.None?
  }

  /** The pack's tracks still to enrich, in the order given. */
  function ToEnrich(rows: seq<TrackRow>): seq<TrackRow> {
    Filter(rows, YearMissing)
  }

  /** The lookups succeeded and the UPDATE did not raise. */
  function Attempted(lookup: Option<Fetched>, fault: Fault): Option<Fetched> {
    if lookup.Some? && !fault.Raises(0) then lookup else None
  }

  /** `if not primary_genre` / `if not release_year`: `None`, `''` and `0` count as missing. */
  predicate NoGenre(f: Fetched) {
    !Truthy(f.primaryGenre)
  }

  predicate NoYear(f: Fetched) {
    f.releaseYear.None? || f.releaseYear == Some(0)
  }

  /** The counters after one more track. */
  function Tally(s: Stats, o: Option<Fetched>): Stats {
    match o
    case None => s.(failed := s.failed + 1)
    case Some(f) =>
      s.(success := s.success + 1,
         noGenre := s.noGenre + (if NoGenre(f) then 1 else 0),
         noYear := s.noYear + (if NoYear(f) then 1 else 0))
  }

  /** The counters after the given tracks, starting from `total` and zeros. */
  function Counted(total: nat, tracks: seq<TrackRow>, lookup: string -> Option<Fetched>, faults: nat -> Fault): Stats
    decreases |tracks|
  {
    if tracks == [] then Stats(total, 0, 0, 0, 0)
    else
      var n := |tracks| - 1;
      Tally(Counted(total, tracks[..n], lookup, faults), Attempted(lookup(tracks[n].spotifyId), faults(n)))
  }

  /** What `enrich_pack_tracks` returns for the pack's rows. */
  function PackStats(rows: seq<TrackRow>, lookup: string -> Option<Fetched>, faults: nat -> Fault): Stats {
    var tracks := ToEnrich(rows);
    Counted(|tracks|, tracks, lookup, faults)
  }

  /**
   * Each track is counted exactly once, as a success or a failure, and
   * tracks without genre or year are among the successes.
   */
  lemma {:induction false} CountedBalanced(total: nat, tracks: seq<TrackRow>, lookup: string -> Option<Fetched>, faults: nat -> Fault)
    ensures var s := Counted(total, tracks, lookup, faults);
      s.total == total && s.success + s.failed == |tracks| && s.noGenre <= s.success && s.noYear <= s.success
    decreases |tracks|
  {
    if tracks != [] {
      CountedBalanced(total, tracks[..|tracks| - 1], lookup, faults);
    }
  }

  /** The stats of a pack are balanced, and its total is the number of tracks without a year. */
  lemma PackStatsBalanced(rows: seq<TrackRow>, lookup: string -> Option<Fetched>, faults: nat -> Fault)
    ensures Balanced(PackStats(rows, lookup, faults))
    ensures PackStats(rows, lookup, faults).total == CountWhere(rows, YearMissing)
  {
    var tracks := ToEnrich(rows);
    CountedBalanced(|tracks|, tracks, lookup, faults);
  }

  /** The tables after the UPDATEs of the given tracks that got that far and did not raise. */
  function Enriched(s: Tables, tracks: seq<TrackRow>, lookup: string -> Option<Fetched>, faults: nat -> Fault): (r: Tables)
    requires TablesValid(s)
    ensures TablesValid(r)
    decreases |tracks|
  {
    if tracks == [] then s
    else
      var n := |tracks| - 1;
      var before := Enriched(s, tracks[..n], lookup, faults);
      match Attempted(lookup(tracks[n].spotifyId), faults(n))
      case None => before
      case Some(f) =>
        SetMetadataValid(before, tracks[n].id, f.releaseYear, f.albumName, f.primaryGenre);
        SetMetadata(before, tracks[n].id, f.releaseYear, f.albumName, f.primaryGenre)
  }

  /** The internal IDs of the given tracks. */
  function IdsOf(tracks: seq<TrackRow>): (r: set<TrackId>)
    ensures forall t :: t in tracks ==> t.id in r
    ensures forall id :: id in r ==> exists t :: t in tracks && t.id == id
  {
    set t | t in tracks :: t.id
  }

  /**
   * No row is added or removed, rows of tracks not processed and the other
   * tables are untouched.
   */
  lemma {:induction false} EnrichedFrame(s: Tables, tracks: seq<TrackRow>, lookup: string -> Option<Fetched>, faults: nat -> Fault)
    requires TablesValid(s)
    ensures var r := Enriched(s, tracks, lookup, faults);
      r.tracks.Keys == s.tracks.Keys && r.(tracks := s.tracks) == s
      && (forall k :: k in s.tracks && s.tracks[k].id !in IdsOf(tracks) ==> r.tracks[k] == s.tracks[k])
    decreases |tracks|
  {
    if tracks != [] {
      var n := |tracks| - 1;
      EnrichedFrame(s, tracks[..n], lookup, faults);
      assert IdsOf(tracks) == IdsOf(tracks[..n]) + {tracks[n].id} by {
        assert tracks == tracks[..n] + [tracks[n]];
      }
    }
  }

  /** The row `b` is the row `a` with at most its year, album and genre changed. */
  predicate MetadataOnly(a: TrackRow, b: TrackRow) {
    a.(releaseYear := b.releaseYear, albumName := b.albumName, primaryGenre := b.primaryGenre) == b
  }

  /** Only the three metadata columns of a row ever change. */
  lemma {:induction false} EnrichedColumns(s: Tables, tracks: seq<TrackRow>, lookup: string -> Option<Fetched>, faults: nat -> Fault)
    requires TablesValid(s)
    ensures var r := Enriched(s, tracks, lookup, faults);
      forall k :: k in s.tracks ==> k in r.tracks && MetadataOnly(s.tracks[k], r.tracks[k])
    decreases |tracks|
  {
    if tracks != [] {
      var n := |tracks| - 1;
      var before := Enriched(s, tracks[..n], lookup, faults);
      var r := Enriched(s, tracks, lookup, faults);
      EnrichedColumns(s, tracks[..n], lookup, faults);
      EnrichedLastColumns(s, tracks, lookup, faults);
      forall k | k in s.tracks ensures k in r.tracks && MetadataOnly(s.tracks[k], r.tracks[k]) {
        MetadataOnlyTrans(s.tracks[k], before.tracks[k], r.tracks[k]);
      }
    }
  }

  /** The last track changes at most the metadata columns of the rows before it. */
  lemma EnrichedLastColumns(s: Tables, tracks: seq<TrackRow>, lookup: string -> Option<Fetched>, faults: nat -> Fault)
    requires TablesValid(s) && tracks != []
    ensures var before := Enriched(s, tracks[..|tracks| - 1], lookup, faults); var r := Enriched(s, tracks, lookup, faults);
      forall k :: k in before.tracks ==> k in r.tracks && MetadataOnly(before.tracks[k], r.tracks[k])
  {
    var n := |tracks| - 1;
    var before := Enriched(s, tracks[..n], lookup, faults);
    var r := Enriched(s, tracks, lookup, faults);
    match Attempted(lookup(tracks[n].spotifyId), faults(n))
    case None =>
      assert r == before;
    case Some(f) =>
      assert r == SetMetadata(before, tracks[n].id, f.releaseYear, f.albumName, f.primaryGenre);
  }

  lemma MetadataOnlyTrans(a: TrackRow, b: TrackRow, c: TrackRow)
    requires MetadataOnly(a, b) && MetadataOnly(b, c)
    ensures MetadataOnly(a, c)
  {
  }

  /** The IDs of the tracks differ from one another. */
  predicate DistinctRowIds(tracks: seq<TrackRow>) {
    forall i, j :: 0 <= i < j < |tracks| ==> tracks[i].id != tracks[j].id
  }

  /**
   * When the tracks are distinct rows, every track whose lookups and UPDATE
   * succeeded has its fetched year, album and genre stored, NULLs included.
   */
  lemma {:induction false} EnrichedStores(s: Tables, tracks: seq<TrackRow>, lookup: string -> Option<Fetched>, faults: nat -> Fault,
                                          i: nat, k: string)
    requires TablesValid(s) && DistinctRowIds(tracks) && i < |tracks|
    requires Attempted(lookup(tracks[i].spotifyId), faults(i)).Some?
    requires k in s.tracks && s.tracks[k].id == tracks[i].id
    ensures var r := Enriched(s, tracks, lookup, faults);
      var f := Attempted(lookup(tracks[i].spotifyId), faults(i)).value;
      k in r.tracks && r.tracks[k].releaseYear == f.releaseYear && r.tracks[k].albumName == f.albumName
      && r.tracks[k].primaryGenre == f.primaryGenre
    decreases |tracks|
  {
    var n := |tracks| - 1;
    var before := Enriched(s, tracks[..n], lookup, faults);
    EnrichedColumns(s, tracks[..n], lookup, faults);
    assert before.tracks[k].id == s.tracks[k].id by {
      assert MetadataOnly(s.tracks[k], before.tracks[k]);
    }
    if i < n {
      EnrichedStores(s, tracks[..n], lookup, faults, i, k);
      assert tracks[n].id != tracks[i].id;
    }
  }

  lemma CountedStep(total: nat, tracks: seq<TrackRow>, i: nat, lookup: string -> Option<Fetched>, faults: nat -> Fault)
    requires i < |tracks|
    ensures Counted(total, tracks[..i + 1], lookup, faults)
      == Tally(Counted(total, tracks[..i], lookup, faults), Attempted(lookup(tracks[i].spotifyId), faults(i)))
  {
    var p := tracks[..i + 1];
    assert p[..i] == tracks[..i] && p[i] == tracks[i];
  }

  lemma EnrichedStep(s: Tables, tracks: seq<TrackRow>, i: nat, lookup: string -> Option<Fetched>, faults: nat -> Fault)
    requires i < |tracks| && TablesValid(s)
    ensures var before := Enriched(s, tracks[..i], lookup, faults); var t := tracks[i];
      Enriched(s, tracks[..i + 1], lookup, faults)
        == match Attempted(lookup(t.spotifyId), faults(i))
           case None => before
           case Some(f) => SetMetadata(before, t.id, f.releaseYear, f.albumName, f.primaryGenre)
  {
    var p := tracks[..i + 1];
    assert p[..i] == tracks[..i] && p[i] == tracks[i];
  }

  /**
   * `enrich_pack_tracks`: the loop over the pack's tracks without a year.
   * `lookup` answers `sp.track` and the two helpers for a Spotify ID, or
   * raises; `faults(i)` says whether the UPDATE of the `i`-th track raises.
   */
  method EnrichPackTracks(db: Database, rows: seq<TrackRow>, lookup: string -> Option<Fetched>, faults: nat -> Fault)
    returns (stats: Stats)
    requires db.Valid() && db.snapshot.None?
    modifies db
    ensures db.Valid() && db.snapshot.None?
    ensures stats == PackStats(rows, lookup, faults)
    ensures db.State() == Enriched(old(db.State()), ToEnrich(rows), lookup, faults)
  {
    var tracks := ToEnrich(rows);
    var total := |tracks|;
    stats := Stats(total, 0, 0, 0, 0);
    ghost var s0 := db.State();
    for i := 0 to |tracks|
      invariant db.Valid() && db.snapshot.None?
      invariant stats == Counted(total, tracks[..i], lookup, faults)
      invariant db.State() == Enriched(s0, tracks[..i], lookup, faults)
    {
      CountedStep(total, tracks, i, lookup, faults);
      EnrichedStep(s0, tracks, i, lookup, faults);
      stats := EnrichTrack(db, tracks[i], lookup(tracks[i].spotifyId), faults(i), stats);
    }
    TakeAll(tracks);
  }

  /** The body of the loop of `enrich_pack_tracks`: one track, its lookup and its UPDATE. */
  method EnrichTrack(db: Database, track: TrackRow, data: Option<Fetched>, fault: Fault, stats0: Stats)
    returns (stats: Stats)
    requires db.Valid() && db.snapshot.None?
    modifies db
    ensures db.Valid() && db.snapshot.None?
    ensures stats == Tally(stats0, Attempted(data, fault))
    ensures db.State() == match Attempted(data, fault)
      case None => old(db.State())
      case Some(f) => SetMetadata(old(db.State()), track.id, f.releaseYear, f.albumName, f.primaryGenre)
  {
    stats := stats0;
    if data.None? {
      stats := stats.(failed := stats.failed + 1);
      return;
    }
    var f := data.value;
    var updated := db.UpdateTrackMetadata(track.id, f.releaseYear, f.albumName, f.primaryGenre, fault);
    if updated.Err? {
      stats := stats.(failed := stats.failed + 1);
      return;
    }
    stats := stats.(success := stats.success + 1);
    if !Truthy(f.primaryGenre) {
      stats := stats.(noGenre := stats.noGenre + 1);
    }
    if f.releaseYear.None? || f.releaseYear == Some(0) {
      stats := stats.(noYear := stats.noYear + 1);
    }
  }

  // ---------------------------------------------------------------- choosing the packs

  /** The answer to the prompt (or the first argument), after `.strip().lower()`. */
  datatype Selection = Quit | InvalidNumber | InvalidChoice | Selected(packs: seq<PackListing>)

  function Answer(choice: string): string {
    Lower(Strip(choice))
  }

  function Select(packs: seq<PackListing>, choice: string): (r: Selection)
    ensures r.Selected? ==> |r.packs| <= |packs|
  {
    var c := Answer(choice);
    if c == "quit" then Quit
    else if c == "all" then Selected(packs)
    else match PyInt(c)
      case None => InvalidChoice
      case Some(k) => if 1 <= k <= |packs| then Selected([packs[k - 1]]) else InvalidNumber
  }

  /**
   * 'quit' selects nothing, 'all' every pack in list order, a number `k`
   * the `k`-th pack exactly when `1 <= k <= |packs|`; anything else selects
   * nothing.
   */
  lemma SelectCases(packs: seq<PackListing>, choice: string)
    ensures Select(packs, choice) == Quit <==> Answer(choice) == "quit"
    ensures Answer(choice) == "all" ==> Select(packs, choice) == Selected(packs)
    ensures Answer(choice) != "all" && Answer(choice) != "quit" ==>
      match PyInt(Answer(choice))
      case None => Select(packs, choice) == InvalidChoice
      case Some(k) => Select(packs, choice) == if 1 <= k <= |packs| then Selected([packs[k - 1]]) else InvalidNumber
  {
  }

  /** Typing the number shown next to a pack selects that pack. */
  lemma SelectNumber(packs: seq<PackListing>, k: nat)
    requires 1 <= k <= |packs|
    ensures Select(packs, ShowInt(k)) == Selected([packs[k - 1]])
  {
    var c := ShowInt(k);
    PyIntShowInt(k);
    ShownAnswer(k);
    SelectCases(packs, c);
  }

  /** The decimal text of a natural number reads as itself and is neither 'quit' nor 'all'. */
  lemma ShownAnswer(k: nat)
    ensures var c := ShowInt(k); Answer(c) == c && c != "quit" && c != "all"
  {
    var c := ShowInt(k);
    assert c == ShowNat(k);
    assert IsDigit(c[0]) && IsDigit(c[|c| - 1]);
    StripOfStripped(c);
    assert forall i :: 0 <= i < |c| ==> Lower(c)[i] == c[i];
    assert c[0] != "quit"[0] && c[0] != "all"[0];
  }

  // ---------------------------------------------------------------- all packs

  /** `overall_stats[key] += stats[key]` for every key. */
  function Plus(a: Stats, b: Stats): Stats {
    Stats(a.total + b.total, a.success + b.success, a.failed + b.failed, a.noGenre + b.noGenre, a.noYear + b.noYear)
  }

  /** Summing keeps the counters balanced. */
  lemma PlusBalanced(a: Stats, b: Stats)
    requires Balanced(a) && Balanced(b)
    ensures Balanced(Plus(a, b))
  {
  }

  /** The overall stats after the first packs of the selection. */
  function Overall(packs: seq<PackListing>, packRows: PackId -> seq<TrackRow>, lookup: string -> Option<Fetched>,
                   faults: nat -> nat -> Fault): (r: Stats)
    ensures Balanced(r)
    decreases |packs|
  {
    if packs == [] then Stats(0, 0, 0, 0, 0)
    else
      var n := |packs| - 1;
      var before := Overall(packs[..n], packRows, lookup, faults);
      var last := PackStats(packRows(packs[n].id), lookup, faults(n));
      PackStatsBalanced(packRows(packs[n].id), lookup, faults(n));
      Plus(before, last)
  }

  /** The tables after the selected packs, one after the other. */
  function EnrichedAll(s: Tables, packs: seq<PackListing>, packRows: PackId -> seq<TrackRow>, lookup: string -> Option<Fetched>,
                       faults: nat -> nat -> Fault): (r: Tables)
    requires TablesValid(s)
    ensures TablesValid(r)
    decreases |packs|
  {
    if packs == [] then s
    else
      var n := |packs| - 1;
      Enriched(EnrichedAll(s, packs[..n], packRows, lookup, faults), ToEnrich(packRows(packs[n].id)), lookup, faults(n))
  }

  /** The overall total is the number of tracks without a year over the selected packs. */
  lemma {:induction false} OverallTotal(packs: seq<PackListing>, packRows: PackId -> seq<TrackRow>, lookup: string -> Option<Fetched>,
                                        faults: nat -> nat -> Fault)
    ensures Overall(packs, packRows, lookup, faults).total == Pending(packs, packRows)
    decreases |packs|
  {
    if packs != [] {
      var n := |packs| - 1;
      var rows := packRows(packs[n].id);
      OverallTotal(packs[..n], packRows, lookup, faults);
      var before := Overall(packs[..n], packRows, lookup, faults);
      var last := PackStats(rows, lookup, faults(n));
      assert last.total == CountWhere(rows, YearMissing) by {
        PackStatsBalanced(rows, lookup, faults(n));
      }
      assert Overall(packs, packRows, lookup, faults) == Plus(before, last);
    }
  }

  /** How many tracks of the given packs have no year. */
  function Pending(packs: seq<PackListing>, packRows: PackId -> seq<TrackRow>): nat
    decreases |packs|
  {
    if packs == [] then 0
    else
      var n := |packs| - 1;
      Pending(packs[..n], packRows) + CountWhere(packRows(packs[n].id), YearMissing)
  }

  /** One more pack adds its stats to the overall ones. */
  lemma OverallStep(chosen: seq<PackListing>, j: nat, packRows: PackId -> seq<TrackRow>,
                    lookup: string -> Option<Fetched>, faults: nat -> nat -> Fault)
    requires j < |chosen|
    ensures Overall(chosen[..j + 1], packRows, lookup, faults)
      == Plus(Overall(chosen[..j], packRows, lookup, faults), PackStats(packRows(chosen[j].id), lookup, faults(j)))
  {
    var p := chosen[..j + 1];
    assert p[..j] == chosen[..j] && p[j] == chosen[j];
  }

  /** One more pack enriches the tables left by the packs before it. */
  lemma EnrichedAllStep(s: Tables, chosen: seq<PackListing>, j: nat, packRows: PackId -> seq<TrackRow>,
                        lookup: string -> Option<Fetched>, faults: nat -> nat -> Fault)
    requires j < |chosen| && TablesValid(s)
    ensures EnrichedAll(s, chosen[..j + 1], packRows, lookup, faults)
      == Enriched(EnrichedAll(s, chosen[..j], packRows, lookup, faults), ToEnrich(packRows(chosen[j].id)), lookup, faults(j))
  {
    var p := chosen[..j + 1];
    assert p[..j] == chosen[..j] && p[j] == chosen[j];
  }

  /** The loop over the selected packs, summing their stats key by key. */
  method EnrichPacks(db: Database, chosen: seq<PackListing>, packRows: PackId -> seq<TrackRow>,
                     lookup: string -> Option<Fetched>, faults: nat -> nat -> Fault)
    returns (overall: Stats)
    requires db.Valid() && db.snapshot.None?
    modifies db
    ensures db.Valid() && db.snapshot.None?
    ensures overall == Overall(chosen, packRows, lookup, faults)
    ensures db.State() == EnrichedAll(old(db.State()), chosen, packRows, lookup, faults)
  {
    ghost var s0 := db.State();
    overall := Stats(0, 0, 0, 0, 0);
    for j := 0 to |chosen|
      invariant db.Valid() && db.snapshot.None?
      invariant overall == Overall(chosen[..j], packRows, lookup, faults)
      invariant db.State() == EnrichedAll(s0, chosen[..j], packRows, lookup, faults)
    {
      OverallStep(chosen, j, packRows, lookup, faults);
      EnrichedAllStep(s0, chosen, j, packRows, lookup, faults);
      var stats := EnrichPackTracks(db, packRows(chosen[j].id), lookup, faults(j));
      overall := Plus(overall, stats);
    }
    TakeAll(chosen);
  }

  datatype Outcome = ClientError | NoPacks | Quitted | Invalid | Done(overall: Stats)

  /**
   * `main()`: the client reads its credentials from the environment
   * (`envId`, `envSecret`); the pack listing, each pack's rows and the
   * choice (argument or answer) are inputs.
   */
  method EnrichMain(db: Database, envId: Option<string>, envSecret: Option<string>, packs: seq<PackListing>,
                    packRows: PackId -> seq<TrackRow>, choice: string, lookup: string -> Option<Fetched>,
                    faults: nat -> nat -> Fault)
    returns (r: Outcome)
    requires db.Valid() && db.snapshot.None?
    modifies db
    ensures db.Valid() && db.snapshot.None?
    ensures Spotify.Credentials(None, None, envId, envSecret).Err? ==> r == ClientError && db.State() == old(db.State())
    ensures Spotify.Credentials(None, None, envId, envSecret).Ok? && packs == [] ==> r == NoPacks && db.State() == old(db.State())
    ensures Spotify.Credentials(None, None, envId, envSecret).Ok? && packs != [] ==>
      match Select(packs, choice)
      case Quit => r == Quitted && db.State() == old(db.State())
      case InvalidNumber => r == Invalid && db.State() == old(db.State())
      case InvalidChoice => r == Invalid && db.State() == old(db.State())
      case Selected(chosen) =>
        r == Done(Overall(chosen, packRows, lookup, faults))
        && db.State() == EnrichedAll(old(db.State()), chosen, packRows, lookup, faults)
  {
    if Spotify.Credentials(None, None, envId, envSecret).Err? {
      return ClientError;
    }
    if packs == [] {
      return NoPacks;
    }
    var chosen: seq<PackListing>;
    match Select(packs, choice)
    case Quit => return Quitted;
    case InvalidNumber => return Invalid;
    case InvalidChoice => return Invalid;
    case Selected(some) => chosen := some;
    var overall := EnrichPacks(db, chosen, packRows, lookup, faults);
    return Done(overall);
  }
}
