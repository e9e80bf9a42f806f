/**
 * Deduplication of the artist enrichment CSV: rows are grouped by Spotify
 * artist ID in first-appearance order, and each group keeps one row. A lone
 * row is kept as it is; otherwise the candidates matched exactly are
 * preferred, and among them (or among all when none is exact) the first row
 * with the most followers wins.
 */
module Dedup {
  import opened Common
  import opened Text
  import opened EnrichmentCsv

  /** `max` evaluates `int(followers or 0)` and raises on a cell that is not an integer. */
  datatype DedupError = BadFollowers(spotifyArtistId: string)

  /** `int(c['spotify_followers'] or 0)`; `None` stands for the `ValueError`. */
  function FollowerKey(e: EnrichmentRow): Option<int> {
    if e.followers == [] then Some(0) else PyInt(e.followers)
  }

  predicate Keyed(pool: seq<EnrichmentRow>) {
    forall i :: 0 <= i < |pool| ==> FollowerKey(pool[i]).Some?
  }

  /** The follower count `max` compares; only read once every key of the pool is known to parse. */
  function Followers(e: EnrichmentRow): int {
    FollowerKey(e).GetOr(0)
  }

  /** The follower counts of a pool, position by position. */
  function Counts(pool: seq<EnrichmentRow>): (ks: seq<int>)
    ensures |ks| == |pool| && forall i :: 0 <= i < |pool| ==> ks[i] == Followers(pool[i])
  {
    seq(|pool|, i requires 0 <= i < |pool| => Followers(pool[i]))
  }

  /**
   * `max(..., key=...)`: the position of the first largest count (Python's
   * `max` replaces its answer only on a strictly larger key).
   */
  function ArgMax(ks: seq<int>): (b: nat)
    requires ks != []
    ensures b < |ks|
    ensures forall j :: 0 <= j < |ks| ==> ks[j] <= ks[b]
    ensures forall j :: 0 <= j < b ==> ks[j] < ks[b]
    decreases |ks|
  {
    var n := |ks| - 1;
    if n == 0 then 0
    else
      var b := ArgMax(ks[..n]);
      assert forall j :: 0 <= j < n ==> ks[..n][j] == ks[j];
      if ks[n] > ks[b] then n else b
  }

  /** The first position holding the largest value is the one `ArgMax` picks. */
  lemma ArgMaxFirst(ks: seq<int>, i: nat)
    requires i < |ks| && forall k :: 0 <= k < |ks| ==> ks[k] <= ks[i]
    requires forall k :: 0 <= k < i ==> ks[k] < ks[i]
    ensures ArgMax(ks) == i
  {
    var b := ArgMax(ks);
    assert ks[b] <= ks[i] && ks[i] <= ks[b];
  }

  /** `[c for c in candidates if c['match_type'] == 'exact']` */
  function Exacts(cands: seq<EnrichmentRow>): (r: seq<EnrichmentRow>)
    ensures forall x :: x in r ==> x in cands && x.matchType == Exact
    ensures forall i :: 0 <= i < |cands| && cands[i].matchType == Exact ==> cands[i] in r
    decreases |cands|
  {
    if cands == [] then []
    else
      var n := |cands| - 1;
      var r := Exacts(cands[..n]) + (if cands[n].matchType == Exact then [cands[n]] else []);
      assert forall i :: 0 <= i < n ==> cands[..n][i] == cands[i];
      r
  }

  /** The candidates `max` looks at: the exact ones, or all of them when none is exact. */
  function Pool(cands: seq<EnrichmentRow>): (p: seq<EnrichmentRow>)
    requires cands != []
    ensures p != [] && forall x :: x in p ==> x in cands
  {
    if Exacts(cands) != [] then Exacts(cands) else cands
  }

  /** The row kept for one Spotify artist ID. */
  function Choose(cands: seq<EnrichmentRow>): Result<EnrichmentRow, DedupError>
    requires cands != []
  {
    if |cands| == 1 then Ok(cands[0])
    else
      var pool := Pool(cands);
      if !Keyed(pool) then Err(BadFollowers(cands[0].spotifyArtistId))
      else Ok(pool[ArgMax(Counts(pool))])
  }

  /**
   * A lone row is kept as it is; the kept row is always one of the
   * candidates; among several, the choice fails exactly when a follower cell
   * of the pool is not an integer, and reports the group's ID.
   */
  lemma ChooseSound(cands: seq<EnrichmentRow>)
    requires cands != []
    ensures |cands| == 1 ==> Choose(cands) == Ok(cands[0])
    ensures Choose(cands).Ok? ==> Choose(cands).value in cands
    ensures |cands| > 1 ==> (Choose(cands).Err? <==> !Keyed(Pool(cands)))
    ensures Choose(cands).Err? ==> Choose(cands).error == BadFollowers(cands[0].spotifyArtistId)
  {
  }

  /**
   * Among several candidates, an exact match wins when there is one, and the
   * kept row has the most followers among the exact ones, or among all.
   */
  lemma ChooseBest(cands: seq<EnrichmentRow>)
    requires |cands| > 1 && Choose(cands).Ok?
    ensures Exacts(cands) != [] ==>
      (Choose(cands).value.matchType == Exact &&
       forall x :: x in Exacts(cands) ==> Followers(x) <= Followers(Choose(cands).value))
    ensures Exacts(cands) == [] ==> forall x :: x in cands ==> Followers(x) <= Followers(Choose(cands).value)
  {
    PoolMax(cands);
  }

  /** The kept row holds the most followers of the pool `max` looks at. */
  lemma PoolMax(cands: seq<EnrichmentRow>)
    requires |cands| > 1 && Keyed(Pool(cands))
    ensures Choose(cands) == Ok(Pool(cands)[ArgMax(Counts(Pool(cands)))])
    ensures forall x :: x in Pool(cands) ==> Followers(x) <= Followers(Choose(cands).value)
  {
    var pool := Pool(cands);
    var ks := Counts(pool);
    var b := ArgMax(ks);
    forall x | x in pool ensures Followers(x) <= Followers(pool[b]) {
      var j :| 0 <= j < |pool| && pool[j] == x;
      assert ks[j] <= ks[b];
    }
  }

  /** Ties go to the earliest candidate: the first row holding the maximum is the one kept. */
  lemma ChooseFirstOfBest(cands: seq<EnrichmentRow>, i: nat)
    requires |cands| > 1 && Keyed(Pool(cands)) && i < |Pool(cands)|
    requires forall k :: 0 <= k < |Pool(cands)| ==> Followers(Pool(cands)[k]) <= Followers(Pool(cands)[i])
    requires forall k :: 0 <= k < i ==> Followers(Pool(cands)[k]) < Followers(Pool(cands)[i])
    ensures Choose(cands) == Ok(Pool(cands)[i])
  {
    var pool := Pool(cands);
    var ks := Counts(pool);
    forall k | 0 <= k < |ks| ensures ks[k] <= ks[i] {
    }
    forall k | 0 <= k < i ensures ks[k] < ks[i] {
    }
    ArgMaxFirst(ks, i);
  }

  // ---------------------------------------------------------------- grouping

  /** `by_spotify_id[id]`: the rows with that Spotify artist ID, in input order. */
  function Group(rows: seq<EnrichmentRow>, id: string): (g: seq<EnrichmentRow>)
    ensures forall x :: x in g ==> x in rows && x.spotifyArtistId == id
    decreases |rows|
  {
    if rows == [] then []
    else
      var n := |rows| - 1;
      Group(rows[..n], id) + (if rows[n].spotifyArtistId == id then [rows[n]] else [])
  }

  lemma GroupSnoc(rows: seq<EnrichmentRow>, x: EnrichmentRow, id: string)
    ensures Group(rows + [x], id) == Group(rows, id) + (if x.spotifyArtistId == id then [x] else [])
  {
    assert (rows + [x])[..|rows|] == rows;
  }

  /** Every row lands in the group of its own ID. */
  lemma {:induction false} GroupComplete(rows: seq<EnrichmentRow>, i: nat)
    requires i < |rows|
    ensures rows[i] in Group(rows, rows[i].spotifyArtistId)
    decreases |rows|
  {
    if i < |rows| - 1 {
      GroupComplete(rows[..|rows| - 1], i);
    }
  }

  /** The keys of `by_spotify_id`, in first-appearance order. */
  function Keys(rows: seq<EnrichmentRow>): (ks: seq<string>)
    ensures Distinct(ks)
    ensures forall k :: k in ks <==> Group(rows, k) != []
    decreases |rows|
  {
    if rows == [] then []
    else
      var n := |rows| - 1;
      var prev := Keys(rows[..n]);
      var id := rows[n].spotifyArtistId;
      assert forall k :: Group(rows, k) == Group(rows[..n], k) + (if id == k then [rows[n]] else []);
      if id in prev then prev else prev + [id]
  }

  lemma KeysSnoc(rows: seq<EnrichmentRow>, x: EnrichmentRow)
    ensures Keys(rows + [x]) == Keys(rows) + (if x.spotifyArtistId in Keys(rows) then [] else [x.spotifyArtistId])
  {
    assert (rows + [x])[..|rows|] == rows;
  }

  /**
   * First-appearance order: the IDs met in the first `n` rows come first,
   * in the same order.
   */
  lemma {:induction false} KeysPrefix(rows: seq<EnrichmentRow>, n: nat)
    requires n <= |rows|
    ensures |Keys(rows[..n])| <= |Keys(rows)| && Keys(rows[..n]) == Keys(rows)[..|Keys(rows[..n])|]
    decreases |rows|
  {
    if n < |rows| {
      var m := |rows| - 1;
      assert rows[..m][..n] == rows[..n];
      KeysPrefix(rows[..m], n);
      LastSplit(rows);
      KeysSnoc(rows[..m], rows[m]);
    } else {
      assert rows[..n] == rows;
    }
  }

  /** Total size of the groups of `ks`. */
  function SumGroups(rows: seq<EnrichmentRow>, ks: seq<string>): nat
    decreases |ks|
  {
    if ks == [] then 0 else SumGroups(rows, ks[..|ks| - 1]) + |Group(rows, ks[|ks| - 1])|
  }

  lemma {:induction false} SumGroupsSnocRow(rows: seq<EnrichmentRow>, x: EnrichmentRow, ks: seq<string>)
    requires Distinct(ks)
    ensures SumGroups(rows + [x], ks) == SumGroups(rows, ks) + (if x.spotifyArtistId in ks then 1 else 0)
    decreases |ks|
  {
    if ks != [] {
      var n := |ks| - 1;
      assert Distinct(ks[..n]);
      SumGroupsSnocRow(rows, x, ks[..n]);
      GroupSnoc(rows, x, ks[n]);
      assert ks == ks[..n] + [ks[n]];
      assert x.spotifyArtistId in ks <==> x.spotifyArtistId in ks[..n] || x.spotifyArtistId == ks[n];
      assert ks[n] !in ks[..n];
    }
  }

  lemma SumGroupsSnocKey(rows: seq<EnrichmentRow>, ks: seq<string>, k: string)
    ensures SumGroups(rows, ks + [k]) == SumGroups(rows, ks) + |Group(rows, k)|
  {
    assert (ks + [k])[..|ks|] == ks;
  }

  /** The groups together hold every row exactly once. */
  lemma {:induction false} GroupSizes(rows: seq<EnrichmentRow>)
    ensures SumGroups(rows, Keys(rows)) == |rows|
    decreases |rows|
  {
    if rows != [] {
      var n := |rows| - 1;
      var x := rows[n];
      var p := rows[..n];
      assert rows == p + [x];
      GroupSizes(p);
      KeysSnoc(p, x);
      SumGroupsSnocRow(p, x, Keys(p));
      if x.spotifyArtistId !in Keys(p) {
        SumGroupsSnocKey(rows, Keys(p), x.spotifyArtistId);
        GroupSnoc(p, x, x.spotifyArtistId);
        assert Group(p, x.spotifyArtistId) == [];
      }
    }
  }

  // ---------------------------------------------------------------- selection

  /** `by_spotify_id` read in key order: the group of each key. */
  function GroupsOf(rows: seq<EnrichmentRow>, ks: seq<string>): (gs: seq<seq<EnrichmentRow>>)
    ensures |gs| == |ks| && forall i :: 0 <= i < |ks| ==> gs[i] == Group(rows, ks[i])
  {
    seq(|ks|, i requires 0 <= i < |ks| => Group(rows, ks[i]))
  }

  predicate AllNonEmpty(gs: seq<seq<EnrichmentRow>>) {
    forall i :: 0 <= i < |gs| ==> gs[i] != []
  }

  /** `max` applied to each group, in key order. */
  function Choices(gs: seq<seq<EnrichmentRow>>): (cs: seq<Result<EnrichmentRow, DedupError>>)
    requires AllNonEmpty(gs)
    ensures |cs| == |gs|
  {
    seq(|gs|, i requires 0 <= i < |gs| => Choose(gs[i]))
  }

  lemma ChoicesAt(gs: seq<seq<EnrichmentRow>>, i: nat)
    requires AllNonEmpty(gs) && i < |gs|
    ensures Choices(gs)[i] == Choose(gs[i])
  {
  }

  lemma KeysGroups(rows: seq<EnrichmentRow>)
    ensures AllNonEmpty(GroupsOf(rows, Keys(rows)))
  {
    var ks := Keys(rows);
    forall i | 0 <= i < |ks| ensures Group(rows, ks[i]) != [] {
      assert ks[i] in ks;
    }
  }

  /** The deduplicated rows the script writes, or the error that stops it first. */
  function DedupSpec(rows: seq<EnrichmentRow>): Result<seq<EnrichmentRow>, DedupError> {
    KeysGroups(rows);
    Collect(Choices(GroupsOf(rows, Keys(rows))))
  }

  /** The row chosen for a group carries the group's ID and is an input row. */
  lemma ChosenFromGroup(rows: seq<EnrichmentRow>, k: string)
    requires Group(rows, k) != [] && Choose(Group(rows, k)).Ok?
    ensures Choose(Group(rows, k)).value.spotifyArtistId == k && Choose(Group(rows, k)).value in rows
  {
    ChooseSound(Group(rows, k));
  }

  /**
   * One row per distinct Spotify artist ID, in first-appearance order; each
   * kept row is an input row, unchanged, and is the choice for its group.
   */
  lemma DedupOnePerId(rows: seq<EnrichmentRow>)
    requires DedupSpec(rows).Ok?
    ensures |DedupSpec(rows).value| == |Keys(rows)|
    ensures forall i :: 0 <= i < |Keys(rows)| ==>
      Choose(Group(rows, Keys(rows)[i])) == Ok(DedupSpec(rows).value[i]) &&
      DedupSpec(rows).value[i].spotifyArtistId == Keys(rows)[i] &&
      DedupSpec(rows).value[i] in rows
  {
    var ks := Keys(rows);
    KeysGroups(rows);
    var gs := GroupsOf(rows, ks);
    var cs := Choices(gs);
    assert DedupSpec(rows) == Collect(cs);
    var kept := Collect(cs).value;
    CollectAll(cs);
    forall i | 0 <= i < |ks|
      ensures Choose(Group(rows, ks[i])) == Ok(kept[i])
      ensures kept[i].spotifyArtistId == ks[i] && kept[i] in rows
    {
      ChoicesAt(gs, i);
      ChosenFromGroup(rows, ks[i]);
    }
  }

  /** The run fails exactly when some group of several rows has an unreadable follower count. */
  lemma DedupFails(rows: seq<EnrichmentRow>)
    ensures DedupSpec(rows).Err? <==>
      exists k :: k in Keys(rows) && |Group(rows, k)| > 1 && !Keyed(Pool(Group(rows, k)))
  {
    if DedupSpec(rows).Err? {
      DedupFailsAt(rows);
    } else {
      DedupSucceeds(rows);
    }
  }

  lemma DedupFailsAt(rows: seq<EnrichmentRow>)
    requires DedupSpec(rows).Err?
    ensures exists k :: k in Keys(rows) && |Group(rows, k)| > 1 && !Keyed(Pool(Group(rows, k)))
  {
    var ks := Keys(rows);
    KeysGroups(rows);
    var gs := GroupsOf(rows, ks);
    var cs := Choices(gs);
    CollectAll(cs);
    var i :| 0 <= i < |ks| && cs[i].Err?;
    ChoicesAt(gs, i);
    ChooseSound(Group(rows, ks[i]));
    assert ks[i] in ks;
  }

  lemma DedupSucceeds(rows: seq<EnrichmentRow>)
    requires DedupSpec(rows).Ok?
    ensures forall k :: k in Keys(rows) && |Group(rows, k)| > 1 ==> Keyed(Pool(Group(rows, k)))
  {
    var ks := Keys(rows);
    KeysGroups(rows);
    var gs := GroupsOf(rows, ks);
    var cs := Choices(gs);
    CollectAll(cs);
    forall k | k in ks && |Group(rows, k)| > 1 ensures Keyed(Pool(Group(rows, k))) {
      var i :| 0 <= i < |ks| && ks[i] == k;
      ChoicesAt(gs, i);
      ChooseSound(Group(rows, k));
    }
  }

  // ---------------------------------------------------------------- the script

  /** The first loop of `main`: fills `by_spotify_id`, whose keys keep insertion order. */
  method GroupRows(rows: seq<EnrichmentRow>) returns (order: seq<string>, groups: map<string, seq<EnrichmentRow>>)
    ensures order == Keys(rows)
    ensures forall k :: k in groups <==> k in order
    ensures forall k :: k in groups ==> groups[k] == Group(rows, k)
  {
    order := [];
    groups := map[];
    ghost var done: seq<EnrichmentRow> := [];
    var i := 0;
    while i < |rows|
      invariant 0 <= i <= |rows| && done == rows[..i]
      invariant order == Keys(done)
      invariant forall k :: k in groups <==> k in order
      invariant forall k :: k in groups ==> groups[k] == Group(done, k)
    {
      var e := rows[i];
      var id := e.spotifyArtistId;
      KeysSnoc(done, e);
      forall k ensures Group(done + [e], k) == Group(done, k) + (if id == k then [e] else []) {
        GroupSnoc(done, e, k);
      }
      if id in groups {
        groups := groups[id := groups[id] + [e]];
      } else {
        order := order + [id];
        groups := groups[id := [e]];
      }
      TakeSnoc(rows, i);
      done := done + [e];
      i := i + 1;
    }
    assert rows[..i] == rows;
  }

  /** The body of the second loop for one group: the lone row, or `max` over the pool. */
  method ChooseRow(cands: seq<EnrichmentRow>) returns (r: Result<EnrichmentRow, DedupError>)
    requires cands != []
    ensures r == Choose(cands)
  {
    if |cands| == 1 {
      return Ok(cands[0]);
    }
    var pool := Exacts(cands);
    if pool == [] {
      pool := cands;
    }
    if !Keyed(pool) {
      return Err(BadFollowers(cands[0].spotifyArtistId));
    }
    return Ok(pool[ArgMax(Counts(pool))]);
  }

  /** Number of rows held by a list of groups. */
  function TotalSize(gs: seq<seq<EnrichmentRow>>): nat
    decreases |gs|
  {
    if gs == [] then 0 else TotalSize(gs[..|gs| - 1]) + |gs[|gs| - 1]|
  }

  lemma TotalSizeSnoc(gs: seq<seq<EnrichmentRow>>, g: seq<EnrichmentRow>)
    ensures TotalSize(gs + [g]) == TotalSize(gs) + |g|
  {
    assert (gs + [g])[..|gs|] == gs;
  }

  lemma {:induction false} TotalSizeGroups(rows: seq<EnrichmentRow>, ks: seq<string>)
    ensures TotalSize(GroupsOf(rows, ks)) == SumGroups(rows, ks)
    decreases |ks|
  {
    if ks != [] {
      var n := |ks| - 1;
      TotalSizeGroups(rows, ks[..n]);
      assert GroupsOf(rows, ks)[..n] == GroupsOf(rows, ks[..n]);
    }
  }

  /**
   * The second loop of `main` over `by_spotify_id.items()`: one kept row per
   * group, and the count of rows dropped.
   */
  method KeepOnePerGroup(gs: seq<seq<EnrichmentRow>>) returns (r: Result<(seq<EnrichmentRow>, nat), DedupError>)
    requires AllNonEmpty(gs)
    ensures r.Err? ==> Collect(Choices(gs)) == Err(r.error)
    ensures r.Ok? ==> Collect(Choices(gs)) == Ok(r.value.0) && r.value.1 + |gs| == TotalSize(gs)
  {
    ghost var cs := Choices(gs);
    var kept: seq<EnrichmentRow> := [];
    var removed: nat := 0;
    var j := 0;
    while j < |gs|
      invariant 0 <= j <= |gs|
      invariant Collect(cs[..j]) == Ok(kept)
      invariant removed + j == TotalSize(gs[..j])
    {
      var cands := gs[j];
      var c := ChooseRow(cands);
      ChoicesAt(gs, j);
      assert Collect(cs[..j + 1]) == if c.Err? then Err(c.error) else Ok(kept + [c.value]) by {
        TakeSnoc(cs, j);
        CollectSnoc(cs[..j], cs[j]);
      }
      assert TotalSize(gs[..j + 1]) == TotalSize(gs[..j]) + |cands| by {
        TakeSnoc(gs, j);
        TotalSizeSnoc(gs[..j], cands);
      }
      if c.Err? {
        CollectStops(cs, j + 1);
        return Err(c.error);
      }
      kept := kept + [c.value];
      removed := removed + |cands| - 1;
      j := j + 1;
    }
    assert cs[..j] == cs && gs[..j] == gs;
    return Ok((kept, removed));
  }

  /**
   * `main` between reading and writing the CSV: group the rows, then keep one
   * row per key and count the rows removed.
   */
  method Deduplicate(rows: seq<EnrichmentRow>) returns (r: Result<(seq<EnrichmentRow>, nat), DedupError>)
    ensures r.Err? ==> DedupSpec(rows) == Err(r.error)
    ensures r.Ok? ==> DedupSpec(rows) == Ok(r.value.0) && r.value.1 == |rows| - |r.value.0|
  {
    var order, groups := GroupRows(rows);
    var gs := seq(|order|, j requires 0 <= j < |order| => groups[order[j]]);
    assert gs == GroupsOf(rows, Keys(rows)) by {
      assert forall j :: 0 <= j < |order| ==> order[j] in order;
    }
    KeysGroups(rows);
    GroupSizes(rows);
    TotalSizeGroups(rows, order);
    r := KeepOnePerGroup(gs);
  }
}
