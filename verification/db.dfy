/**
 * The catalog database the scripts write to, as in-memory tables: `tracks`
 * keyed by Spotify track ID, `pack_tracks` keyed by (pack, track) and holding
 * the 1-based position, `packs`, and `artists`. SQL statements become updates
 * of these maps; a transaction keeps a snapshot it restores on rollback.
 */
module Db {
  import opened Common

  type TrackId = nat
  type PackId = nat

  /** One row of `tracks`. */
  datatype TrackRow = TrackRow(
    id: TrackId,
    spotifyId: string,
    title: string,
    artist: string,
    albumName: Option<string>,
    albumImageUrl: Option<string>,
    releaseYear: Option<int>,
    primaryGenre: Option<string>,
    genres: Option<seq<string>>,
    popularity: Option<int>,
    isrc: Option<string>,
    updatedAt: int)

  /**
   * A track handed to `add_tracks_to_pack`: `spotify_id`, `title` and `artist`
   * are required keys, the other six are read with `.get` and may be absent.
   */
  datatype TrackIn = TrackIn(
    spotifyId: string,
    title: string,
    artist: string,
    albumName: Option<string>,
    releaseYear: Option<int>,
    primaryGenre: Option<string>,
    genres: Option<seq<string>>,
    popularity: Option<int>,
    isrc: Option<string>)

  datatype Pack = Pack(name: string, description: Option<string>, tags: seq<string>)

  /** One row of `artists`, keyed in the table by its internal artist ID. */
  datatype ArtistRow = ArtistRow(
    name: string,
    spotifyArtistId: Option<string>,
    genres: Option<seq<string>>,
    followers: Option<int>,
    imageUrl: Option<string>,
    updatedAt: int)

  /** A value of the whole database. */
  datatype Tables = Tables(
    tracks: map<string, TrackRow>,
    nextTrackId: TrackId,
    links: map<(PackId, TrackId), nat>,
    packs: map<PackId, Pack>,
    nextPackId: PackId,
    artists: map<string, ArtistRow>)

  /**
   * Which statement of a transaction raises, if any: a lost connection, a
   * constraint the model does not track, any storage error. Statements are
   * numbered from 0 in the order the operation issues them.
   */
  datatype Fault = NoFault | RaiseAt(statement: nat) {
    predicate Raises(k: nat) {
      this == RaiseAt(k)
    }
  }

  datatype DbError = StatementFailed(statement: nat)

  // ---------------------------------------------------------------- invariants

  /**
   * Every track row sits under its own Spotify ID, internal IDs are below the
   * ID counter and belong to one row only, links point below the counter and
   * hold a 1-based position, pack IDs are below the pack counter.
   */
  predicate TablesValid(t: Tables) {
    RowsKeyed(t) && IdsInjective(t) && LinksValid(t) && (forall p :: p in t.packs ==> p < t.nextPackId)
  }

  predicate RowsKeyed(t: Tables) {
    forall k :: k in t.tracks ==> t.tracks[k].spotifyId == k && t.tracks[k].id < t.nextTrackId
  }

  predicate IdsInjective(t: Tables) {
    forall k1, k2 :: k1 in t.tracks && k2 in t.tracks && t.tracks[k1].id == t.tracks[k2].id ==> k1 == k2
  }

  predicate LinksValid(t: Tables) {
    forall l :: l in t.links ==> l.1 < t.nextTrackId && t.links[l] >= 1
  }

  // ---------------------------------------------------------------- upsert of tracks

  function Ids(batch: seq<TrackIn>): (r: seq<string>)
    ensures |r| == |batch| && forall i :: 0 <= i < |batch| ==> r[i] == batch[i].spotifyId
  {
    if batch == [] then [] else Ids(batch[..|batch| - 1]) + [batch[|batch| - 1].spotifyId]
  }

  /**
   * `ON CONFLICT (spotify_id) DO UPDATE`: title and artist take the incoming
   * value, the six optional columns keep the stored value where the incoming
   * one is NULL, and `updated_at` becomes `now`.
   */
  function Merge(row: TrackRow, t: TrackIn, now: int): (r: TrackRow)
    ensures r.id == row.id && r.spotifyId == row.spotifyId && r.albumImageUrl == row.albumImageUrl
    ensures r.title == t.title && r.artist == t.artist && r.updatedAt == now
    // a NULL keeps the stored value
    ensures t.albumName.None? ==> r.albumName == row.albumName
    ensures t.releaseYear.None? ==> r.releaseYear == row.releaseYear
    ensures t.primaryGenre.None? ==> r.primaryGenre == row.primaryGenre
    ensures t.genres.None? ==> r.genres == row.genres
    ensures t.popularity.None? ==> r.popularity == row.popularity
    ensures t.isrc.None? ==> r.isrc == row.isrc
    // a non-NULL value replaces whatever was stored
    ensures t.albumName.Some? ==> r.albumName == t.albumName
    ensures t.releaseYear.Some? ==> r.releaseYear == t.releaseYear
    ensures t.primaryGenre.Some? ==> r.primaryGenre == t.primaryGenre
    ensures t.genres.Some? ==> r.genres == t.genres
    ensures t.popularity.Some? ==> r.popularity == t.popularity
    ensures t.isrc.Some? ==> r.isrc == t.isrc
  {
    row.(title := t.title, artist := t.artist,
         albumName := Coalesce(t.albumName, row.albumName),
         releaseYear := Coalesce(t.releaseYear, row.releaseYear),
         primaryGenre := Coalesce(t.primaryGenre, row.primaryGenre),
         genres := Coalesce(t.genres, row.genres),
         popularity := Coalesce(t.popularity, row.popularity),
         isrc := Coalesce(t.isrc, row.isrc),
         updatedAt := now)
  }

  /** The row an unseen Spotify ID gets. */
  function NewRow(id: TrackId, t: TrackIn, now: int): TrackRow {
    TrackRow(id, t.spotifyId, t.title, t.artist, t.albumName, None, t.releaseYear,
             t.primaryGenre, t.genres, t.popularity, t.isrc, now)
  }

  /** Merging the same incoming values twice changes nothing more. */
  lemma MergeIdempotent(row: TrackRow, t: TrackIn, now: int)
    ensures Merge(Merge(row, t, now), t, now) == Merge(row, t, now)
  {
  }

  /** A freshly inserted row is already what a second upsert of it would produce. */
  lemma MergeNewRow(id: TrackId, t: TrackIn, now: int)
    ensures Merge(NewRow(id, t, now), t, now) == NewRow(id, t, now)
  {
  }

  /** One row of the upsert statement. */
  function UpsertOne(s: Tables, t: TrackIn, now: int): Tables {
    if t.spotifyId in s.tracks then
      s.(tracks := s.tracks[t.spotifyId := Merge(s.tracks[t.spotifyId], t, now)])
    else
      s.(tracks := s.tracks[t.spotifyId := NewRow(s.nextTrackId, t, now)], nextTrackId := s.nextTrackId + 1)
  }

  /**
   * The whole upsert statement. Afterwards every Spotify ID of the batch has a
   * row, no row disappears, and rows outside the batch are as they were.
   */
  function UpsertAll(s: Tables, batch: seq<TrackIn>, now: int): Tables
    decreases |batch|
  {
    if batch == [] then s
    else
      var n := |batch| - 1;
      UpsertOne(UpsertAll(s, batch[..n], now), batch[n], now)
  }

  /**
   * After the upsert statement every Spotify ID of the batch has a row, no
   * row disappears, rows outside the batch are as they were, and the other
   * tables are untouched.
   */
  lemma UpsertAllFrame(s: Tables, batch: seq<TrackIn>, now: int)
    ensures var r := UpsertAll(s, batch, now);
      (forall k :: k in r.tracks <==> k in s.tracks || k in Ids(batch))
      && (forall k :: k in s.tracks && k !in Ids(batch) ==> r.tracks[k] == s.tracks[k])
      && r.nextTrackId >= s.nextTrackId
      && r.links == s.links && r.packs == s.packs && r.nextPackId == s.nextPackId && r.artists == s.artists
  {
    UpsertAllKeys(s, batch, now);
    UpsertAllKeeps(s, batch, now);
  }

  lemma {:induction false} UpsertAllKeys(s: Tables, batch: seq<TrackIn>, now: int)
    ensures var r := UpsertAll(s, batch, now);
      (forall k :: k in r.tracks <==> k in s.tracks || k in Ids(batch))
      && r.nextTrackId >= s.nextTrackId
      && r.links == s.links && r.packs == s.packs && r.nextPackId == s.nextPackId && r.artists == s.artists
    decreases |batch|
  {
    if batch != [] {
      UpsertAllKeys(s, batch[..|batch| - 1], now);
      IdsSnoc(batch);
    }
  }

  lemma {:induction false} UpsertAllKeeps(s: Tables, batch: seq<TrackIn>, now: int)
    ensures var r := UpsertAll(s, batch, now);
      forall k :: k in s.tracks && k !in Ids(batch) ==> k in r.tracks && r.tracks[k] == s.tracks[k]
    decreases |batch|
  {
    if batch != [] {
      UpsertAllKeeps(s, batch[..|batch| - 1], now);
      IdsSnoc(batch);
    }
  }

  lemma IdsSnoc(batch: seq<TrackIn>)
    requires batch != []
    ensures Ids(batch) == Ids(batch[..|batch| - 1]) + [batch[|batch| - 1].spotifyId]
  {
  }

  lemma UpsertAllStep(s: Tables, batch: seq<TrackIn>, now: int, i: nat)
    requires i < |batch|
    ensures UpsertAll(s, batch[..i + 1], now) == UpsertOne(UpsertAll(s, batch[..i], now), batch[i], now)
  {
    assert batch[..i + 1][..i] == batch[..i] && batch[..i + 1][i] == batch[i];
  }

  predicate DistinctIds(batch: seq<TrackIn>) {
    Distinct(Ids(batch))
  }

  /** `execute_values` sends its rows in pages of this many, one statement per page. */
  const PageSize: nat := 100

  /** The page of `execute_values` that entry `i` of a batch is sent in. */
  function Page(i: nat): nat {
    i / PageSize
  }

  /**
   * No page of the batch repeats a Spotify ID. Each page is a statement of
   * its own, and PostgreSQL refuses an `ON CONFLICT DO UPDATE` statement
   * that would update one row twice; a repeat in a later page updates the
   * row the earlier page wrote.
   */
  predicate PagesDistinct(batch: seq<TrackIn>) {
    forall i, j :: 0 <= i < j < |batch| && Page(i) == Page(j) ==> batch[i].spotifyId != batch[j].spotifyId
  }

  /** A batch without repeats passes every page, and a batch of one page passes exactly when it has no repeat. */
  lemma PagesDistinctIds(batch: seq<TrackIn>)
    ensures DistinctIds(batch) ==> PagesDistinct(batch)
    ensures |batch| <= PageSize ==> (PagesDistinct(batch) <==> DistinctIds(batch))
  {
    if DistinctIds(batch) {
      forall i, j | 0 <= i < j < |batch| ensures batch[i].spotifyId != batch[j].spotifyId {
        assert Ids(batch)[i] != Ids(batch)[j];
      }
    }
    if |batch| <= PageSize && PagesDistinct(batch) {
      forall i, j | 0 <= i < j < |batch| ensures Ids(batch)[i] != Ids(batch)[j] {
        assert Page(i) == 0 && Page(j) == 0;
      }
    }
  }

  /**
   * Pages are checked one at a time: after whole pages, a batch passes
   * exactly when its first pages and the rest pass, so an ID may come back
   * in a later page.
   */
  lemma PagesDistinctAppend(a: seq<TrackIn>, b: seq<TrackIn>)
    requires |a| % PageSize == 0
    ensures PagesDistinct(a + b) <==> PagesDistinct(a) && PagesDistinct(b)
  {
    var ab := a + b;
    var k := |a| / PageSize;
    assert |a| == k * PageSize;
    forall i | 0 <= i < |b| ensures Page(|a| + i) == k + Page(i) {
      PageShift(k, i);
    }
    forall i | 0 <= i < |a| ensures Page(i) < k {
      PageBelow(k, i);
    }
    if PagesDistinct(ab) {
      forall i, j | 0 <= i < j < |b| && Page(i) == Page(j) ensures b[i].spotifyId != b[j].spotifyId {
        assert ab[|a| + i] == b[i] && ab[|a| + j] == b[j];
      }
      forall i, j | 0 <= i < j < |a| && Page(i) == Page(j) ensures a[i].spotifyId != a[j].spotifyId {
        assert ab[i] == a[i] && ab[j] == a[j];
      }
    }
    if PagesDistinct(a) && PagesDistinct(b) {
      forall i, j | 0 <= i < j < |ab| && Page(i) == Page(j) ensures ab[i].spotifyId != ab[j].spotifyId {
        if j < |a| {
          assert ab[i] == a[i] && ab[j] == a[j];
        } else if i >= |a| {
          assert Page(i - |a|) == Page(j - |a|);
          assert ab[i] == b[i - |a|] && ab[j] == b[j - |a|];
        } else {
          assert false;  // i lies in the first pages, j after them
        }
      }
    }
  }

  /** A page holds `PageSize` consecutive entries, starting at a multiple of `PageSize`. */
  lemma PageFacts(i: nat)
    ensures Page(i) * PageSize <= i < Page(i) * PageSize + PageSize
    ensures i < PageSize ==> Page(i) == 0
    ensures i % PageSize == 0 ==> Page(i) * PageSize == i
    ensures i > 0 && i % PageSize != 0 ==> Page(i - 1) == Page(i)
  {
    assert i == Page(i) * PageSize + i % PageSize;
    if i > 0 && i % PageSize != 0 {
      assert i - 1 == Page(i) * PageSize + (i % PageSize - 1);
    }
  }

  lemma PageShift(k: nat, i: nat)
    ensures Page(k * PageSize + i) == k + Page(i)
  {
    assert k * PageSize + i == (k + i / PageSize) * PageSize + i % PageSize;
  }

  lemma PageBelow(k: nat, i: nat)
    requires i < k * PageSize
    ensures Page(i) < k
  {
  }

  /** The upsert of one entry leaves every other Spotify ID's row alone. */
  lemma UpsertOneOther(s: Tables, t: TrackIn, now: int, k: string)
    requires k != t.spotifyId
    ensures var r := UpsertOne(s, t, now);
      (k in r.tracks <==> k in s.tracks) && (k in s.tracks ==> r.tracks[k] == s.tracks[k])
      && r.nextTrackId >= s.nextTrackId
  {
  }

  /** The row a batch entry ends with: merged into the stored row, or a new row with a fresh ID. */
  lemma {:induction false} UpsertRow(s: Tables, batch: seq<TrackIn>, now: int, i: nat)
    requires DistinctIds(batch) && i < |batch|
    ensures batch[i].spotifyId in UpsertAll(s, batch, now).tracks
    ensures var row := UpsertAll(s, batch, now).tracks[batch[i].spotifyId];
      if batch[i].spotifyId in s.tracks then row == Merge(s.tracks[batch[i].spotifyId], batch[i], now)
      else row == NewRow(row.id, batch[i], now) && s.nextTrackId <= row.id
    decreases |batch|
  {
    var n := |batch| - 1;
    var u := UpsertAll(s, batch[..n], now);
    assert UpsertAll(s, batch, now) == UpsertOne(u, batch[n], now);
    var sid := batch[i].spotifyId;
    if i == n {
      UpsertAllFrame(s, batch[..n], now);
      assert sid !in Ids(batch[..n]) by {
        forall j | 0 <= j < n ensures Ids(batch[..n])[j] != sid {
          assert Ids(batch)[j] == batch[j].spotifyId;
        }
      }
      assert sid in u.tracks <==> sid in s.tracks;
      assert sid in s.tracks ==> u.tracks[sid] == s.tracks[sid];
    } else {
      assert Distinct(Ids(batch[..n])) by {
        forall a, b | 0 <= a < b < n ensures Ids(batch[..n])[a] != Ids(batch[..n])[b] {
          assert Ids(batch)[a] == batch[a].spotifyId && Ids(batch)[b] == batch[b].spotifyId;
        }
      }
      UpsertRow(s, batch[..n], now, i);
      assert Ids(batch)[i] != Ids(batch)[n];
      UpsertOneOther(u, batch[n], now, sid);
    }
  }

  lemma UpsertOneValid(s: Tables, t: TrackIn, now: int)
    requires TablesValid(s)
    ensures TablesValid(UpsertOne(s, t, now))
  {
    var r := UpsertOne(s, t, now);
    var sid := t.spotifyId;
    if sid in s.tracks {
      var row := Merge(s.tracks[sid], t, now);
      assert r.tracks == s.tracks[sid := row];
      assert RowsKeyed(r) by {
        forall k | k in r.tracks ensures r.tracks[k].spotifyId == k && r.tracks[k].id < r.nextTrackId {
          if k != sid { assert r.tracks[k] == s.tracks[k]; }
        }
      }
      assert IdsInjective(r) by {
        forall k | k in r.tracks ensures r.tracks[k].id == s.tracks[k].id {
          if k != sid { assert r.tracks[k] == s.tracks[k]; }
        }
      }
    } else {
      var row := NewRow(s.nextTrackId, t, now);
      assert r.tracks == s.tracks[sid := row];
      assert RowsKeyed(r) by {
        forall k | k in r.tracks ensures r.tracks[k].spotifyId == k && r.tracks[k].id < r.nextTrackId {
          if k != sid { assert r.tracks[k] == s.tracks[k]; }
        }
      }
      assert IdsInjective(r) by {
        forall k1, k2 | k1 in r.tracks && k2 in r.tracks && r.tracks[k1].id == r.tracks[k2].id ensures k1 == k2 {
          if k1 != sid && k2 != sid {
            assert r.tracks[k1] == s.tracks[k1] && r.tracks[k2] == s.tracks[k2];
          }
        }
      }
    }
  }

  lemma {:induction false} UpsertAllValid(s: Tables, batch: seq<TrackIn>, now: int)
    requires TablesValid(s)
    ensures TablesValid(UpsertAll(s, batch, now))
    decreases |batch|
  {
    if batch != [] {
      var n := |batch| - 1;
      UpsertAllValid(s, batch[..n], now);
      UpsertOneValid(UpsertAll(s, batch[..n], now), batch[n], now);
    }
  }

  /** Upserting IDs that all have rows allocates no ID and keeps every row's ID. */
  lemma {:induction false} UpsertExisting(s: Tables, batch: seq<TrackIn>, now: int)
    requires forall i :: 0 <= i < |batch| ==> batch[i].spotifyId in s.tracks
    ensures var r := UpsertAll(s, batch, now);
      r.nextTrackId == s.nextTrackId && r.tracks.Keys == s.tracks.Keys
      && forall k :: k in s.tracks ==> r.tracks[k].id == s.tracks[k].id
    decreases |batch|
  {
    if batch != [] {
      UpsertExisting(s, batch[..|batch| - 1], now);
    }
  }

  /** Upserting rows that are already the merge result changes nothing. */
  lemma {:induction false} UpsertFixed(s: Tables, batch: seq<TrackIn>, now: int)
    requires forall i :: 0 <= i < |batch| ==>
      batch[i].spotifyId in s.tracks && Merge(s.tracks[batch[i].spotifyId], batch[i], now) == s.tracks[batch[i].spotifyId]
    ensures UpsertAll(s, batch, now) == s
    decreases |batch|
  {
    if batch != [] {
      var n := |batch| - 1;
      UpsertFixed(s, batch[..n], now);
      assert s.tracks[batch[n].spotifyId := s.tracks[batch[n].spotifyId]] == s.tracks;
    }
  }

  // ---------------------------------------------------------------- links

  /** `SELECT id, spotify_id FROM tracks WHERE spotify_id IN (...)` as a dictionary. */
  function IdLookup(s: Tables, batch: seq<TrackIn>): (m: map<string, TrackId>)
    ensures forall sid :: sid in m <==> sid in Ids(batch) && sid in s.tracks
  {
    map sid | sid in Ids(batch) && sid in s.tracks :: s.tracks[sid].id
  }

  datatype Link = Link(pack: PackId, track: TrackId, position: nat)

  /** The link tuples for the batch entries found in the lookup, position = list index + 1. */
  function LinkValues(packId: PackId, batch: seq<TrackIn>, lookup: map<string, TrackId>): (r: seq<Link>)
    ensures |r| <= |batch|
    ensures forall v :: v in r ==> v.pack == packId && 1 <= v.position <= |batch|
    decreases |batch|
  {
    if batch == [] then []
    else
      var n := |batch| - 1;
      LinkValues(packId, batch[..n], lookup)
      + (if batch[n].spotifyId in lookup then [Link(packId, lookup[batch[n].spotifyId], n + 1)] else [])
  }

  /** When every entry is found, entry i gives the link at index i with position i + 1. */
  lemma {:induction false} LinkValuesAllFound(packId: PackId, batch: seq<TrackIn>, lookup: map<string, TrackId>)
    requires forall i :: 0 <= i < |batch| ==> batch[i].spotifyId in lookup
    ensures var r := LinkValues(packId, batch, lookup);
      |r| == |batch| && forall i :: 0 <= i < |batch| ==> r[i] == Link(packId, lookup[batch[i].spotifyId], i + 1)
    decreases |batch|
  {
    if batch != [] {
      var n := |batch| - 1;
      LinkValuesAllFound(packId, batch[..n], lookup);
      var prev := LinkValues(packId, batch[..n], lookup);
      assert LinkValues(packId, batch, lookup) == prev + [Link(packId, lookup[batch[n].spotifyId], n + 1)];
      forall i | 0 <= i < n ensures prev[i] == Link(packId, lookup[batch[i].spotifyId], i + 1) {
        assert batch[..n][i] == batch[i];
      }
    }
  }

  /** `INSERT INTO pack_tracks ... ON CONFLICT (pack_id, track_id) DO NOTHING`. */
  function InsertLinks(links: map<(PackId, TrackId), nat>, vals: seq<Link>): (r: map<(PackId, TrackId), nat>)
    ensures links.Keys <= r.Keys
    ensures forall l :: l in links ==> r[l] == links[l]
    ensures forall v :: v in vals ==> (v.pack, v.track) in r
    decreases |vals|
  {
    if vals == [] then links
    else
      var n := |vals| - 1;
      var m := InsertLinks(links, vals[..n]);
      var key := (vals[n].pack, vals[n].track);
      assert forall v :: v in vals ==> v in vals[..n] || v == vals[n];
      if key in m then m else m[key := vals[n].position]
  }

  /** Links inserted from tuples with a position and a track below `bound` keep the link invariant. */
  lemma {:induction false} InsertLinksBounded(links: map<(PackId, TrackId), nat>, vals: seq<Link>, bound: nat)
    requires forall l :: l in links ==> l.1 < bound && links[l] >= 1
    requires forall v :: v in vals ==> v.track < bound && v.position >= 1
    ensures var r := InsertLinks(links, vals); forall l :: l in r ==> l.1 < bound && r[l] >= 1
    decreases |vals|
  {
    if vals != [] {
      var n := |vals| - 1;
      assert forall v :: v in vals[..n] ==> v in vals;
      InsertLinksBounded(links, vals[..n], bound);
      assert vals[n] in vals;
    }
  }

  /** Inserting links that all exist already is a no-op. */
  lemma {:induction false} InsertLinksExisting(links: map<(PackId, TrackId), nat>, vals: seq<Link>)
    requires forall v :: v in vals ==> (v.pack, v.track) in links
    ensures InsertLinks(links, vals) == links
    decreases |vals|
  {
    if vals != [] {
      var n := |vals| - 1;
      assert forall v :: v in vals[..n] ==> v in vals;
      InsertLinksExisting(links, vals[..n]);
    }
  }

  /** A key that neither the table nor any tuple carries stays absent. */
  lemma {:induction false} InsertLinksAbsent(links: map<(PackId, TrackId), nat>, vals: seq<Link>, key: (PackId, TrackId))
    requires key !in links && forall j :: 0 <= j < |vals| ==> (vals[j].pack, vals[j].track) != key
    ensures key !in InsertLinks(links, vals)
    decreases |vals|
  {
    if vals != [] {
      InsertLinksAbsent(links, vals[..|vals| - 1], key);
    }
  }

  /** A link that is new gets the position of the first tuple carrying its key. */
  lemma {:induction false} InsertLinksPosition(links: map<(PackId, TrackId), nat>, vals: seq<Link>, i: nat)
    requires i < |vals| && (vals[i].pack, vals[i].track) !in links
    requires forall j :: 0 <= j < i ==> (vals[j].pack, vals[j].track) != (vals[i].pack, vals[i].track)
    ensures InsertLinks(links, vals)[(vals[i].pack, vals[i].track)] == vals[i].position
    decreases |vals|
  {
    var n := |vals| - 1;
    var key := (vals[i].pack, vals[i].track);
    if i < n {
      InsertLinksPosition(links, vals[..n], i);
    } else {
      InsertLinksAbsent(links, vals[..n], key);
    }
  }

  // ---------------------------------------------------------------- add_tracks_to_pack

  /** The tables after a successful `add_tracks_to_pack`. */
  function AddTracksSpec(s: Tables, packId: PackId, batch: seq<TrackIn>, now: int): Tables {
    var u := UpsertAll(s, batch, now);
    u.(links := InsertLinks(u.links, LinkValues(packId, batch, IdLookup(u, batch))))
  }

  /** Every upserted ID is found by the lookup, so one link tuple is built per batch entry. */
  lemma LookupFindsAll(s: Tables, packId: PackId, batch: seq<TrackIn>, now: int)
    ensures var u := UpsertAll(s, batch, now);
      |LinkValues(packId, batch, IdLookup(u, batch))| == |batch|
  {
    var u := UpsertAll(s, batch, now);
    UpsertAllFrame(s, batch, now);
    assert forall i :: 0 <= i < |batch| ==> batch[i].spotifyId in u.tracks && batch[i].spotifyId in Ids(batch);
    LinkValuesAllFound(packId, batch, IdLookup(u, batch));
  }

  /** Successful `add_tracks_to_pack` keeps the tables valid. */
  lemma AddTracksValid(s: Tables, packId: PackId, batch: seq<TrackIn>, now: int)
    requires TablesValid(s)
    ensures TablesValid(AddTracksSpec(s, packId, batch, now))
  {
    var u := UpsertAll(s, batch, now);
    UpsertAllValid(s, batch, now);
    var lookup := IdLookup(u, batch);
    IdLookupBelow(u, batch);
    LinkTracksBelow(packId, batch, lookup, u.nextTrackId);
    LinkInsertValid(u, LinkValues(packId, batch, lookup));
  }

  lemma IdLookupBelow(u: Tables, batch: seq<TrackIn>)
    requires RowsKeyed(u)
    ensures forall sid :: sid in IdLookup(u, batch) ==> IdLookup(u, batch)[sid] < u.nextTrackId
  {
  }

  /** Inserting links to tracks below the ID counter keeps the tables valid. */
  lemma LinkInsertValid(u: Tables, vals: seq<Link>)
    requires TablesValid(u)
    requires forall v :: v in vals ==> v.track < u.nextTrackId && v.position >= 1
    ensures TablesValid(u.(links := InsertLinks(u.links, vals)))
  {
    InsertLinksBounded(u.links, vals, u.nextTrackId);
  }

  lemma {:induction false} LinkTracksBelow(packId: PackId, batch: seq<TrackIn>, lookup: map<string, TrackId>, bound: nat)
    requires forall sid :: sid in lookup ==> lookup[sid] < bound
    ensures forall v :: v in LinkValues(packId, batch, lookup) ==> v.track < bound
    decreases |batch|
  {
    if batch != [] {
      LinkTracksBelow(packId, batch[..|batch| - 1], lookup, bound);
    }
  }

  /** Every entry of the batch, repeated or not, ends up with a row and a link to the pack. */
  lemma AddTracksLinked(s: Tables, packId: PackId, batch: seq<TrackIn>, now: int, i: nat)
    requires i < |batch|
    ensures batch[i].spotifyId in AddTracksSpec(s, packId, batch, now).tracks
    ensures var r := AddTracksSpec(s, packId, batch, now);
      (packId, r.tracks[batch[i].spotifyId].id) in r.links
  {
    var u := UpsertAll(s, batch, now);
    UpsertAllFrame(s, batch, now);
    assert forall j :: 0 <= j < |batch| ==> batch[j].spotifyId in u.tracks && batch[j].spotifyId in Ids(batch);
    var lookup := IdLookup(u, batch);
    LinkValuesAllFound(packId, batch, lookup);
    var vals := LinkValues(packId, batch, lookup);
    assert vals[i] == Link(packId, u.tracks[batch[i].spotifyId].id, i + 1);
    assert vals[i] in vals;
  }

  /**
   * After `add_tracks_to_pack`, the track at batch index i is linked to the
   * pack; a link that existed keeps its position, a new one gets i + 1.
   */
  lemma AddTracksPositions(s: Tables, packId: PackId, batch: seq<TrackIn>, now: int, i: nat)
    requires TablesValid(s) && DistinctIds(batch) && i < |batch|
    ensures batch[i].spotifyId in AddTracksSpec(s, packId, batch, now).tracks
    ensures var r := AddTracksSpec(s, packId, batch, now);
      var key := (packId, r.tracks[batch[i].spotifyId].id);
      key in r.links
      && r.links[key] == (if key in s.links then s.links[key] else i + 1)
  {
    var u := UpsertAll(s, batch, now);
    UpsertAllValid(s, batch, now);
    var lookup := IdLookup(u, batch);
    UpsertAllFrame(s, batch, now);
    assert forall j :: 0 <= j < |batch| ==> batch[j].spotifyId in u.tracks && batch[j].spotifyId in Ids(batch);
    LinkValuesAllFound(packId, batch, lookup);
    var vals := LinkValues(packId, batch, lookup);
    var key := (packId, u.tracks[batch[i].spotifyId].id);
    assert vals[i] == Link(packId, lookup[batch[i].spotifyId], i + 1);
    assert vals[i] in vals;
    if key !in s.links {
      forall j | 0 <= j < i ensures (vals[j].pack, vals[j].track) != key {
        assert Ids(batch)[j] != Ids(batch)[i];
      }
      InsertLinksPosition(u.links, vals, i);
    }
  }

  /** Upserting IDs that all have rows does not change what the lookup finds. */
  lemma LookupAfterExisting(t: Tables, batch: seq<TrackIn>, later: int)
    requires forall i :: 0 <= i < |batch| ==> batch[i].spotifyId in t.tracks
    ensures IdLookup(UpsertAll(t, batch, later), batch) == IdLookup(t, batch)
  {
    UpsertExisting(t, batch, later);
    var r := UpsertAll(t, batch, later);
    assert forall sid :: sid in r.tracks <==> sid in t.tracks;
    assert forall sid :: sid in t.tracks ==> r.tracks[sid].id == t.tracks[sid].id;
  }

  /** The second run of a batch finds the IDs the first run found. */
  lemma RerunLookup(s: Tables, packId: PackId, batch: seq<TrackIn>, now: int, later: int)
    ensures var once := AddTracksSpec(s, packId, batch, now);
      IdLookup(UpsertAll(once, batch, later), batch) == IdLookup(UpsertAll(s, batch, now), batch)
  {
    var once := AddTracksSpec(s, packId, batch, now);
    var u := UpsertAll(s, batch, now);
    assert once.tracks == u.tracks;
    UpsertAllFrame(s, batch, now);
    assert forall i :: 0 <= i < |batch| ==> batch[i].spotifyId in once.tracks by {
      assert forall i :: 0 <= i < |batch| ==> batch[i].spotifyId in Ids(batch);
    }
    LookupAfterExisting(once, batch, later);
  }

  /** Running the same batch again, at any later time, leaves `pack_tracks` as it is. */
  lemma AddTracksRerunLinks(s: Tables, packId: PackId, batch: seq<TrackIn>, now: int, later: int)
    ensures var once := AddTracksSpec(s, packId, batch, now);
      AddTracksSpec(once, packId, batch, later).links == once.links
  {
    var once := AddTracksSpec(s, packId, batch, now);
    var u := UpsertAll(s, batch, now);
    var vals := LinkValues(packId, batch, IdLookup(u, batch));
    RerunLookup(s, packId, batch, now, later);
    UpsertAllFrame(once, batch, later);
    assert UpsertAll(once, batch, later).links == once.links;
    InsertLinksExisting(once.links, vals);
  }

  /** Running the same batch again in the same transaction changes nothing at all. */
  lemma AddTracksIdempotent(s: Tables, packId: PackId, batch: seq<TrackIn>, now: int)
    requires DistinctIds(batch)
    ensures var once := AddTracksSpec(s, packId, batch, now);
      AddTracksSpec(once, packId, batch, now) == once
  {
    var once := AddTracksSpec(s, packId, batch, now);
    forall i | 0 <= i < |batch|
      ensures batch[i].spotifyId in once.tracks
      ensures Merge(once.tracks[batch[i].spotifyId], batch[i], now) == once.tracks[batch[i].spotifyId]
    {
      UpsertRow(s, batch, now, i);
    }
    UpsertFixed(once, batch, now);
    AddTracksRerunLinks(s, packId, batch, now, now);
  }

  // ---------------------------------------------------------------- update_track_metadata

  /**
   * `UPDATE tracks SET release_year, album_name, primary_genre WHERE id = ...`:
   * the three columns of the matching row take the arguments, NULLs included.
   */
  function SetMetadata(s: Tables, id: TrackId, year: Option<int>, album: Option<string>, genre: Option<string>): (r: Tables)
    ensures r.tracks.Keys == s.tracks.Keys
    ensures forall k :: k in s.tracks && s.tracks[k].id == id ==>
      r.tracks[k].releaseYear == year && r.tracks[k].albumName == album && r.tracks[k].primaryGenre == genre
      && r.tracks[k].(releaseYear := s.tracks[k].releaseYear, albumName := s.tracks[k].albumName,
                      primaryGenre := s.tracks[k].primaryGenre) == s.tracks[k]
    ensures forall k :: k in s.tracks && s.tracks[k].id != id ==> r.tracks[k] == s.tracks[k]
    ensures r.(tracks := s.tracks) == s
  {
    s.(tracks := map k | k in s.tracks ::
      if s.tracks[k].id == id
      then s.tracks[k].(releaseYear := year, albumName := album, primaryGenre := genre)
      else s.tracks[k])
  }

  /** The metadata update keeps the tables valid: IDs and Spotify IDs are not touched. */
  lemma SetMetadataValid(s: Tables, id: TrackId, year: Option<int>, album: Option<string>, genre: Option<string>)
    requires TablesValid(s)
    ensures TablesValid(SetMetadata(s, id, year, album, genre))
  {
    var r := SetMetadata(s, id, year, album, genre);
    forall k | k in r.tracks ensures r.tracks[k].id == s.tracks[k].id && r.tracks[k].spotifyId == s.tracks[k].spotifyId {
    }
  }

  // ---------------------------------------------------------------- create_pack

  /** `INSERT INTO packs (...) RETURNING id`, with `tags or []`. */
  function CreatePackSpec(s: Tables, name: string, description: Option<string>, tags: Option<seq<string>>): (r: (Tables, PackId))
    requires TablesValid(s)
    ensures TablesValid(r.0)
    ensures r.1 !in s.packs && r.0.packs == s.packs[r.1 := Pack(name, description, tags.GetOr([]))]
    ensures r.0.(packs := s.packs, nextPackId := s.nextPackId) == s
  {
    (s.(packs := s.packs[s.nextPackId := Pack(name, description, tags.GetOr([]))], nextPackId := s.nextPackId + 1),
     s.nextPackId)
  }

  // ---------------------------------------------------------------- the connection

  /**
   * The database behind `get_db_connection`. `snapshot` holds the committed
   * state while a transaction is open: the body's writes are kept on commit
   * and the snapshot is put back on rollback.
   */
  class Database {
    var tracks: map<string, TrackRow>
    var nextTrackId: TrackId
    var links: map<(PackId, TrackId), nat>
    var packs: map<PackId, Pack>
    var nextPackId: PackId
    var artists: map<string, ArtistRow>
    var snapshot: Option<Tables>

    function State(): Tables
      reads this
    {
      Tables(tracks, nextTrackId, links, packs, nextPackId, artists)
    }

    predicate Valid()
      reads this
    {
      TablesValid(State())
    }

    constructor ()
      ensures State() == Tables(map[], 0, map[], map[], 0, map[]) && snapshot.None? && Valid()
    {
      tracks, nextTrackId, links, packs, nextPackId, artists := map[], 0, map[], map[], 0, map[];
      snapshot := None;
    }

    method SetState(t: Tables)
      modifies this
      ensures State() == t && snapshot == old(snapshot)
    {
      tracks, nextTrackId, links, packs, nextPackId, artists := t.tracks, t.nextTrackId, t.links, t.packs, t.nextPackId, t.artists;
    }

    /** Opening the connection: later writes can still be undone. */
    method Begin()
      requires snapshot.None?
      modifies this
      ensures State() == old(State()) && snapshot == Some(old(State()))
    {
      snapshot := Some(State());
    }

    /** `conn.commit()`: the body completed and its writes are kept. */
    method Commit()
      requires snapshot.Some?
      modifies this
      ensures State() == old(State()) && snapshot.None?
    {
      snapshot := None;
    }

    /** `conn.rollback()`: the body raised and every write since `Begin` is discarded. */
    method Rollback()
      requires snapshot.Some?
      modifies this
      ensures State() == old(snapshot.value) && snapshot.None?
    {
      SetState(snapshot.value);
      snapshot := None;
    }

    /**
     * `add_tracks_to_pack`: upsert the batch by Spotify ID, look up the
     * internal IDs, link each found track to the pack at its 1-based list
     * position unless the link exists, and report the number of link tuples
     * built. Statements 0, 1 and 2 are the upsert (in pages of `PageSize`
     * rows), the lookup and the link insert; the upsert also raises when a
     * page repeats a Spotify ID. If a statement raises, the transaction is
     * rolled back.
     */
    method AddTracksToPack(packId: PackId, batch: seq<TrackIn>, now: int, fault: Fault) returns (r: Result<nat, DbError>)
      requires Valid() && snapshot.None?
      modifies this
      ensures Valid() && snapshot.None?
      ensures batch == [] ==> r == Ok(0) && State() == old(State())
      ensures r.Err? <==> batch != [] && (!PagesDistinct(batch) || fault.Raises(0) || fault.Raises(1) || fault.Raises(2))
      ensures r.Err? ==> State() == old(State())
      ensures r.Ok? ==> r.value == |batch| && State() == AddTracksSpec(old(State()), packId, batch, now)
    {
      if batch == [] {
        return Ok(0);
      }
      ghost var s0 := State();
      Begin();
      ExecuteUpsert(batch, now);
      if fault.Raises(0) || !PagesDistinct(batch) {
        Rollback();
        return Err(StatementFailed(0));
      }
      if fault.Raises(1) {
        Rollback();
        return Err(StatementFailed(1));
      }
      var lookup := IdLookup(State(), batch);
      var vals := LinkValues(packId, batch, lookup);
      LookupFindsAll(s0, packId, batch, now);
      ExecuteLinkInsert(vals);
      if fault.Raises(2) {
        Rollback();
        return Err(StatementFailed(2));
      }
      AddTracksValid(s0, packId, batch, now);
      Commit();
      return Ok(|vals|);
    }

    /** The upsert statement, applied row by row. */
    method ExecuteUpsert(batch: seq<TrackIn>, now: int)
      modifies this
      ensures State() == UpsertAll(old(State()), batch, now) && snapshot == old(snapshot)
    {
      ghost var s0 := State();
      var i := 0;
      while i < |batch|
        invariant 0 <= i <= |batch|
        invariant State() == UpsertAll(s0, batch[..i], now) && snapshot == old(snapshot)
      {
        var t := batch[i];
        ghost var before := State();
        UpsertAllStep(s0, batch, now, i);
        if t.spotifyId in tracks {
          tracks := tracks[t.spotifyId := Merge(tracks[t.spotifyId], t, now)];
        } else {
          tracks := tracks[t.spotifyId := NewRow(nextTrackId, t, now)];
          nextTrackId := nextTrackId + 1;
        }
        assert State() == UpsertOne(before, t, now);
        i := i + 1;
      }
      assert batch[..i] == batch;
    }

    /** The link insert statement, applied tuple by tuple; an existing key is left alone. */
    method ExecuteLinkInsert(vals: seq<Link>)
      modifies this
      ensures State() == old(State()).(links := InsertLinks(old(links), vals)) && snapshot == old(snapshot)
    {
      var j := 0;
      while j < |vals|
        invariant 0 <= j <= |vals|
        invariant State() == old(State()).(links := InsertLinks(old(links), vals[..j])) && snapshot == old(snapshot)
      {
        var key := (vals[j].pack, vals[j].track);
        if key !in links {
          links := links[key := vals[j].position];
        }
        assert vals[..j + 1][..j] == vals[..j];
        j := j + 1;
      }
      assert vals[..j] == vals;
    }

    /**
     * `update_track_metadata`: one UPDATE, statement 0. The three columns of
     * the row with internal ID `id` take the arguments even when they are NULL.
     */
    method UpdateTrackMetadata(id: TrackId, year: Option<int>, album: Option<string>, genre: Option<string>, fault: Fault)
      returns (r: Result<(), DbError>)
      requires Valid() && snapshot.None?
      modifies this
      ensures Valid() && snapshot.None?
      ensures r.Err? <==> fault.Raises(0)
      ensures r.Ok? ==> State() == SetMetadata(old(State()), id, year, album, genre)
      ensures r.Err? ==> State() == old(State())
    {
      Begin();
      SetMetadataValid(State(), id, year, album, genre);
      SetState(SetMetadata(State(), id, year, album, genre));
      if fault.Raises(0) {
        Rollback();
        return Err(StatementFailed(0));
      }
      Commit();
      return Ok(());
    }

    /** `create_pack`: one INSERT, statement 0, returning the new pack's ID. */
    method CreatePack(name: string, description: Option<string>, tags: Option<seq<string>>, fault: Fault)
      returns (r: Result<PackId, DbError>)
      requires Valid() && snapshot.None?
      modifies this
      ensures Valid() && snapshot.None?
      ensures r.Err? <==> fault.Raises(0)
      ensures r.Ok? ==> (State(), r.value) == CreatePackSpec(old(State()), name, description, tags)
      ensures r.Err? ==> State() == old(State())
    {
      Begin();
      var created := CreatePackSpec(State(), name, description, tags);
      SetState(created.0);
      if fault.Raises(0) {
        Rollback();
        return Err(StatementFailed(0));
      }
      Commit();
      return Ok(created.1);
    }
  }
}
