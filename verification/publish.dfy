/**
 * The two calls every pack-building script ends with: `create_pack`, which
 * commits on its own, and then `add_tracks_to_pack` in a second transaction.
 */
module Publish {
  import opened Common
  import opened Db
  import Spotify

  /**
   * A Spotify result handed to `add_tracks_to_pack`: its keys `album` and
   * `release_date` are not among the ones the upsert reads, so only the ID,
   * title and artist reach the table.
   */
  function AsTrackIn(t: Spotify.TrackInfo): TrackIn {
    TrackIn(t.spotifyId, t.title, t.artist, None, None, None, None, None, None)
  }

  function AsTrackIns(found: seq<Spotify.TrackInfo>): (b: seq<TrackIn>)
    ensures |b| == |found| && forall i :: 0 <= i < |found| ==> b[i] == AsTrackIn(found[i])
  {
    seq(|found|, i requires 0 <= i < |found| => AsTrackIn(found[i]))
  }

  /** The tables after `create_pack` and then `add_tracks_to_pack` both succeed. */
  function Published(s: Tables, name: string, description: Option<string>, tags: Option<seq<string>>,
                     batch: seq<TrackIn>, now: int): Tables
    requires TablesValid(s)
  {
    var (t, id) := CreatePackSpec(s, name, description, tags);
    AddTracksSpec(t, id, batch, now)
  }

  /** Whether `add_tracks_to_pack` raises on this batch (an empty batch returns before any statement). */
  predicate FillFails(batch: seq<TrackIn>, addFault: Fault) {
    batch != [] && (!PagesDistinct(batch) || addFault.Raises(0) || addFault.Raises(1) || addFault.Raises(2))
  }

  /** The tables after the two calls, whichever of them raises. */
  function Attempt(s: Tables, name: string, description: Option<string>, tags: Option<seq<string>>,
                   batch: seq<TrackIn>, now: int, createFault: Fault, addFault: Fault): Tables
    requires TablesValid(s)
  {
    if createFault.Raises(0) then s
    else if FillFails(batch, addFault) then CreatePackSpec(s, name, description, tags).0
    else Published(s, name, description, tags, batch, now)
  }

  /** Whatever raises, the tables stay valid. */
  lemma AttemptValid(s: Tables, name: string, description: Option<string>, tags: Option<seq<string>>,
                     batch: seq<TrackIn>, now: int, createFault: Fault, addFault: Fault)
    requires TablesValid(s)
    ensures TablesValid(Attempt(s, name, description, tags, batch, now, createFault, addFault))
  {
    var (t, id) := CreatePackSpec(s, name, description, tags);
    AddTracksValid(t, id, batch, now);
  }

  /**
   * An attempt leaves the existing packs as they were and, unless
   * `create_pack` raises, adds one pack under the next ID, which stays even
   * when filling it fails.
   */
  lemma AttemptPacks(s: Tables, name: string, description: Option<string>, tags: Option<seq<string>>,
                     batch: seq<TrackIn>, now: int, createFault: Fault, addFault: Fault)
    requires TablesValid(s)
    ensures var r := Attempt(s, name, description, tags, batch, now, createFault, addFault);
      if createFault.Raises(0) then r == s
      else r.packs == s.packs[s.nextPackId := Pack(name, description, tags.GetOr([]))] && r.nextPackId == s.nextPackId + 1
  {
    if !createFault.Raises(0) && !FillFails(batch, addFault) {
      PublishedContents(s, name, description, tags, batch, now);
    }
  }

  /**
   * After both calls the new pack is in the table with the given fields,
   * the other packs are as before, and every track of the batch has a row
   * and a link to the new pack.
   */
  lemma PublishedContents(s: Tables, name: string, description: Option<string>, tags: Option<seq<string>>,
                          batch: seq<TrackIn>, now: int)
    requires TablesValid(s)
    ensures var r := Published(s, name, description, tags, batch, now);
      var id := s.nextPackId;
      id !in s.packs && r.packs == s.packs[id := Pack(name, description, tags.GetOr([]))]
      && r.nextPackId == id + 1 && TablesValid(r)
      && forall i :: 0 <= i < |batch| ==>
           batch[i].spotifyId in r.tracks && (id, r.tracks[batch[i].spotifyId].id) in r.links
  {
    var (t, id) := CreatePackSpec(s, name, description, tags);
    UpsertAllFrame(t, batch, now);
    AddTracksValid(t, id, batch, now);
    forall i | 0 <= i < |batch|
      ensures var r := AddTracksSpec(t, id, batch, now);
        batch[i].spotifyId in r.tracks && (id, r.tracks[batch[i].spotifyId].id) in r.links
    {
      AddTracksLinked(t, id, batch, now, i);
    }
  }

  /**
   * `create_pack(name, description, tags)` and then
   * `add_tracks_to_pack(pack_id, batch)`. If the second raises, its
   * transaction is rolled back but the pack stays, empty. A Spotify ID
   * repeated within one page of the upsert makes it raise too.
   */
  method CreateAndFill(db: Database, name: string, description: Option<string>, tags: Option<seq<string>>,
                       batch: seq<TrackIn>, now: int, createFault: Fault, addFault: Fault)
    returns (r: Result<(PackId, nat), DbError>)
    requires db.Valid() && db.snapshot.None?
    modifies db
    ensures db.Valid() && db.snapshot.None?
    ensures db.State() == Attempt(old(db.State()), name, description, tags, batch, now, createFault, addFault)
    ensures createFault.Raises(0) ==> r.Err? && db.State() == old(db.State())
    ensures !createFault.Raises(0) && r.Err? ==> db.State() == CreatePackSpec(old(db.State()), name, description, tags).0
    ensures r.Err? <==> createFault.Raises(0) || FillFails(batch, addFault)
    ensures r.Ok? ==> (PagesDistinct(batch) && r.value == (old(db.State()).nextPackId, |batch|)
      && db.State() == Published(old(db.State()), name, description, tags, batch, now))
  {
    var created := db.CreatePack(name, description, tags, createFault);
    if created.Err? {
      return Err(created.error);
    }
    var added := db.AddTracksToPack(created.value, batch, now, addFault);
    if added.Err? {
      return Err(added.error);
    }
    return Ok((created.value, added.value));
  }

  // ---------------------------------------------------------------- a run of attempts

  /** One pack a script means to build: its `create_pack` arguments and the tracks to add. */
  datatype PackPlan = PackPlan(name: string, description: string, tags: seq<string>, members: seq<TrackIn>)

  /**
   * The tables after the creation loop: each plan is one `create_pack` and
   * `add_tracks_to_pack` attempt, with the faults of the `i`-th attempt.
   */
  function CreateAll(s: Tables, plans: seq<PackPlan>, now: int, createFaults: nat -> Fault, addFaults: nat -> Fault): (r: Tables)
    requires TablesValid(s)
    ensures TablesValid(r)
    decreases |plans|
  {
    if plans == [] then s
    else
      var n := |plans| - 1;
      var before := CreateAll(s, plans[..n], now, createFaults, addFaults);
      var p := plans[n];
      AttemptValid(before, p.name, Some(p.description), Some(p.tags), p.members, now, createFaults(n), addFaults(n));
      Attempt(before, p.name, Some(p.description), Some(p.tags), p.members, now, createFaults(n), addFaults(n))
  }

  /** How many of the first `n` attempts get past `create_pack`. */
  function Tried(createFaults: nat -> Fault, n: nat): (c: nat)
    ensures c <= n
  {
    if n == 0 then 0 else Tried(createFaults, n - 1) + (if createFaults(n - 1).Raises(0) then 0 else 1)
  }

  /** The packs the loop adds: one under the next free ID for each attempt that gets past `create_pack`. */
  function NewPacks(plans: seq<PackPlan>, createFaults: nat -> Fault, next: PackId): (m: map<PackId, Pack>)
    ensures forall id :: id in m ==> next <= id < next + Tried(createFaults, |plans|)
    decreases |plans|
  {
    if plans == [] then map[]
    else
      var n := |plans| - 1;
      var m := NewPacks(plans[..n], createFaults, next);
      if createFaults(n).Raises(0) then m
      else m[next + Tried(createFaults, n) := Pack(plans[n].name, Some(plans[n].description), plans[n].tags)]
  }

  lemma {:induction false} TriedBelow(createFaults: nat -> Fault, i: nat, n: nat)
    requires i < n && !createFaults(i).Raises(0)
    ensures Tried(createFaults, i) < Tried(createFaults, n)
    decreases n - i
  {
    if i + 1 < n {
      TriedBelow(createFaults, i, n - 1);
    }
  }

  /** The `i`-th plan's pack, when its `create_pack` succeeds, is under the ID after the packs created before it. */
  lemma {:induction false} NewPacksHas(plans: seq<PackPlan>, createFaults: nat -> Fault, next: PackId, i: nat)
    requires i < |plans| && !createFaults(i).Raises(0)
    ensures var id := next + Tried(createFaults, i);
      id in NewPacks(plans, createFaults, next)
      && NewPacks(plans, createFaults, next)[id] == Pack(plans[i].name, Some(plans[i].description), plans[i].tags)
    decreases |plans|
  {
    var n := |plans| - 1;
    if i < n {
      NewPacksHas(plans[..n], createFaults, next, i);
      assert plans[..n][i] == plans[i];
      TriedBelow(createFaults, i, n);
    }
  }

  /** The last attempt's effect on the packs. */
  lemma CreateAllStep(s: Tables, plans: seq<PackPlan>, now: int, createFaults: nat -> Fault, addFaults: nat -> Fault)
    requires TablesValid(s) && plans != []
    ensures var n := |plans| - 1;
      var before := CreateAll(s, plans[..n], now, createFaults, addFaults);
      var r := CreateAll(s, plans, now, createFaults, addFaults);
      if createFaults(n).Raises(0) then r == before
      else (r.packs == before.packs[before.nextPackId := Pack(plans[n].name, Some(plans[n].description), plans[n].tags)]
        && r.nextPackId == before.nextPackId + 1)
  {
    var n := |plans| - 1;
    var before := CreateAll(s, plans[..n], now, createFaults, addFaults);
    var p := plans[n];
    AttemptPacks(before, p.name, Some(p.description), Some(p.tags), p.members, now, createFaults(n), addFaults(n));
  }

  lemma NewPacksStep(plans: seq<PackPlan>, createFaults: nat -> Fault, next: PackId)
    requires plans != []
    ensures var n := |plans| - 1;
      NewPacks(plans, createFaults, next) ==
        if createFaults(n).Raises(0) then NewPacks(plans[..n], createFaults, next)
        else NewPacks(plans[..n], createFaults, next)[next + Tried(createFaults, n) := Pack(plans[n].name, Some(plans[n].description), plans[n].tags)]
  {
  }

  lemma PacksStep(existing: map<PackId, Pack>, added: map<PackId, Pack>, before: map<PackId, Pack>,
                  after: map<PackId, Pack>, addedAfter: map<PackId, Pack>, id: PackId, pack: Pack, raised: bool)
    requires before == existing + added
    requires raised ==> after == before && addedAfter == added
    requires !raised ==> after == before[id := pack] && addedAfter == added[id := pack]
    ensures after == existing + addedAfter
  {
  }

  /** The pack counter moves once per attempt that gets past `create_pack`. */
  lemma {:induction false} CreateAllNext(s: Tables, plans: seq<PackPlan>, now: int, createFaults: nat -> Fault, addFaults: nat -> Fault)
    requires TablesValid(s)
    ensures CreateAll(s, plans, now, createFaults, addFaults).nextPackId == s.nextPackId + Tried(createFaults, |plans|)
    decreases |plans|
  {
    if plans != [] {
      var n := |plans| - 1;
      CreateAllNext(s, plans[..n], now, createFaults, addFaults);
      CreateAllStep(s, plans, now, createFaults, addFaults);
      assert Tried(createFaults, n + 1) == Tried(createFaults, n) + (if createFaults(n).Raises(0) then 0 else 1);
    }
  }

  /** The added packs take IDs that were free, so every existing pack is kept. */
  lemma NewPacksFresh(s: Tables, plans: seq<PackPlan>, createFaults: nat -> Fault)
    requires TablesValid(s)
    ensures forall id :: id in s.packs ==> id !in NewPacks(plans, createFaults, s.nextPackId)
  {
  }

  /** The loop's packs are the existing ones and `NewPacks`. */
  lemma {:induction false} CreateAllPacks(s: Tables, plans: seq<PackPlan>, now: int, createFaults: nat -> Fault, addFaults: nat -> Fault)
    requires TablesValid(s)
    ensures CreateAll(s, plans, now, createFaults, addFaults).packs == s.packs + NewPacks(plans, createFaults, s.nextPackId)
    decreases |plans|
  {
    if plans != [] {
      var n := |plans| - 1;
      var before := CreateAll(s, plans[..n], now, createFaults, addFaults);
      CreateAllPacks(s, plans[..n], now, createFaults, addFaults);
      CreateAllStep(s, plans, now, createFaults, addFaults);
      CreateAllNext(s, plans[..n], now, createFaults, addFaults);
      NewPacksStep(plans, createFaults, s.nextPackId);
      PacksStep(s.packs, NewPacks(plans[..n], createFaults, s.nextPackId), before.packs,
                CreateAll(s, plans, now, createFaults, addFaults).packs, NewPacks(plans, createFaults, s.nextPackId),
                before.nextPackId, Pack(plans[n].name, Some(plans[n].description), plans[n].tags), createFaults(n).Raises(0));
    }
  }

  /** One more plan at the end of the run is one more attempt, with the faults of its position. */
  lemma CreateAllSnoc(s: Tables, plans: seq<PackPlan>, p: PackPlan, now: int, createFaults: nat -> Fault, addFaults: nat -> Fault)
    requires TablesValid(s)
    ensures var before := CreateAll(s, plans, now, createFaults, addFaults);
      CreateAll(s, plans + [p], now, createFaults, addFaults)
        == Attempt(before, p.name, Some(p.description), Some(p.tags), p.members, now, createFaults(|plans|), addFaults(|plans|))
  {
    assert (plans + [p])[..|plans|] == plans;
  }

  /** Whether the `i`-th attempt neither fails to create nor to fill its pack. */
  predicate Succeeds(p: PackPlan, i: nat, createFaults: nat -> Fault, addFaults: nat -> Fault) {
    !createFaults(i).Raises(0) && !FillFails(p.members, addFaults(i))
  }
}
