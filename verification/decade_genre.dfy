/**
 * Packs by decade and genre, built from the tracks of the "Every Track
 * Star" pack: each track with a release year and a primary genre is filed
 * under (decade, normalised genre), the groups are ranked by size, and every
 * group of at least ten tracks becomes a pack of its own.
 */
module DecadeGenre {
  import opened Common
  import opened Text
  import opened Db
  import opened Grouping
  import opened Sorting
  import opened Publish
  import opened Catalog

  // ---------------------------------------------------------------- get_decade

  /** `get_decade(year)`: `None` for a year of 0, otherwise the decade as "1970s". */
  function Decade(year: int): (r: Option<string>)
    ensures r.Some? <==> year != 0
  {
    if year == 0 then None else Some(ShowInt((year / 10) * 10) + "s")
  }

  /** The decade printed is the multiple of ten at or below the year (floor division). */
  lemma DecadeOfYear(year: int, d: int)
    requires year != 0 && d % 10 == 0 && d <= year < d + 10
    ensures Decade(year) == Some(ShowInt(d) + "s")
  {
    var q := d / 10;
    assert d == 10 * q;
    assert year == 10 * q + (year - d);
    assert year / 10 == q;
  }

  /** Two years share a decade string exactly when they fall in the same ten-year span. */
  lemma SameDecade(y1: int, y2: int)
    requires y1 != 0 && y2 != 0
    ensures Decade(y1) == Decade(y2) <==> y1 / 10 == y2 / 10
  {
    var a, b := ShowInt((y1 / 10) * 10), ShowInt((y2 / 10) * 10);
    if Decade(y1) == Decade(y2) {
      assert a == (a + "s")[..|a + "s"| - 1];
      assert b == (b + "s")[..|b + "s"| - 1];
      PyIntShowInt((y1 / 10) * 10);
      PyIntShowInt((y2 / 10) * 10);
      assert (y1 / 10) * 10 == (y2 / 10) * 10;
    }
  }

  // ---------------------------------------------------------------- normalize_genre

  /** The keyword table, searched in this order; the first keyword inside the genre wins. */
  const GenreMap: seq<(string, string)> := [
    ("hip hop", "Hip Hop"), ("rap", "Hip Hop"), ("r&b", "R&B"), ("rnb", "R&B"),
    ("soul", "Soul"), ("funk", "Funk"), ("rock", "Rock"), ("pop", "Pop"),
    ("jazz", "Jazz"), ("blues", "Blues"), ("country", "Country"), ("folk", "Folk"),
    ("electronic", "Electronic"), ("indie", "Indie"), ("alternative", "Alternative"),
    ("metal", "Metal"), ("punk", "Punk"), ("disco", "Disco"), ("reggae", "Reggae")]

  function KeywordIn(lower: string): nat -> bool {
    (k: nat) => k < |GenreMap| && Contains(lower, GenreMap[k].0)
  }

  /**
   * `normalize_genre(genre)`: `None` for an empty genre, the value of the
   * first keyword found in the lower-cased genre, or else the genre in title
   * case.
   */
  function NormalizeGenre(genre: string): (r: Option<string>)
    ensures r.Some? <==> genre != []
  {
    if genre == [] then None
    else match FirstWhere(KeywordIn(Lower(genre)), 0, |GenreMap|)
      case Some(k) => Some(GenreMap[k].1)
      case None => Some(TitleCase(genre))
  }

  /** The first keyword of the table found in the genre decides its name. */
  lemma NormalizeKeyword(genre: string, k: nat)
    requires genre != [] && k < |GenreMap| && Contains(Lower(genre), GenreMap[k].0)
    requires forall j :: 0 <= j < k ==> !Contains(Lower(genre), GenreMap[j].0)
    ensures NormalizeGenre(genre) == Some(GenreMap[k].1)
  {
    var m := KeywordIn(Lower(genre));
    forall j: nat | j < k ensures !m(j) {
      assert !Contains(Lower(genre), GenreMap[j].0);
    }
    assert m(k);
    FirstWhereIs(m, 0, |GenreMap|, k);
  }

  /** A genre holding no keyword is title-cased. */
  lemma NormalizeFallback(genre: string)
    requires genre != [] && forall k :: 0 <= k < |GenreMap| ==> !Contains(Lower(genre), GenreMap[k].0)
    ensures NormalizeGenre(genre) == Some(TitleCase(genre))
  {
    var m := KeywordIn(Lower(genre));
    forall k: nat ensures !m(k) {
      if k < |GenreMap| {
        assert !Contains(Lower(genre), GenreMap[k].0);
      }
    }
  }

  /** Genres differing only in case get the same name. */
  lemma NormalizeIgnoresCase(a: string, b: string)
    requires Lower(a) == Lower(b)
    ensures NormalizeGenre(a) == NormalizeGenre(b)
  {
    assert |a| == |Lower(a)| == |b|;
    TitleCaseOfLower(a, b);
  }

  /** A title-cased name is its own normalisation. */
  lemma NormalizeFallbackStable(genre: string)
    requires genre != [] && NormalizeGenre(genre) == Some(TitleCase(genre))
    ensures NormalizeGenre(TitleCase(genre)) == NormalizeGenre(genre)
  {
    LowerTitleCase(genre);
    NormalizeIgnoresCase(TitleCase(genre), genre);
  }

  /** A keyword may sit inside a longer genre: "trap" is filed under Hip Hop through "rap". */
  lemma TrapIsHipHop()
    ensures NormalizeGenre("trap") == Some("Hip Hop")
  {
    var lower := Lower("trap");
    assert lower == "trap";
    assert lower[1..4] == "rap";
    assert OccursAt(lower, "rap", 1);
    ContainsAt(lower, "rap", 1);
    assert !Contains(lower, "hip hop");
    NormalizeKeyword("trap", 1);
  }

  // ---------------------------------------------------------------- grouping

  type Key = (string, string)

  /** `if year`: present and not 0. */
  predicate HasYear(t: TrackIn) {
    t.releaseYear.Some? && t.releaseYear.value != 0
  }

  predicate HasGenre(t: TrackIn) {
    Truthy(t.primaryGenre)
  }

  predicate MissingYear(t: TrackIn) {
    !HasYear(t)
  }

  predicate MissingGenre(t: TrackIn) {
    !HasGenre(t)
  }

  /** The `(decade, genre)` key a track is filed under, if any. */
  function KeyOf(t: TrackIn): (r: Option<Key>)
  {
    if HasYear(t) && HasGenre(t) then
      var decade := Decade(t.releaseYear.value);
      var genre := NormalizeGenre(t.primaryGenre.value);
      if decade.Some? && genre.Some? then Some((decade.value, genre.value)) else None
    else None
  }

  /** A track is filed exactly when it has both a year and a genre, and then under their decade and name. */
  lemma KeyOfDefined(t: TrackIn)
    ensures KeyOf(t).Some? <==> HasYear(t) && HasGenre(t)
    ensures KeyOf(t).Some? ==>
      Decade(t.releaseYear.value) == Some(KeyOf(t).value.0) && NormalizeGenre(t.primaryGenre.value) == Some(KeyOf(t).value.1)
  {
  }

  datatype Stats = Stats(total: nat, withMetadata: nat, missingYear: nat, missingGenre: nat)

  function StatsOf(tracks: seq<TrackIn>): Stats {
    Stats(|tracks|, CountWhere(tracks, HasKey(KeyOf)), CountWhere(tracks, MissingYear), CountWhere(tracks, MissingGenre))
  }

  /**
   * The counters account for every track: it is filed or misses a year or a
   * genre (or both), and the filed tracks are exactly the groups' contents.
   */
  lemma {:induction false} StatsAccount(tracks: seq<TrackIn>)
    ensures var st := StatsOf(tracks);
      st.total <= st.withMetadata + st.missingYear + st.missingGenre
      && st.withMetadata + st.missingYear <= st.total && st.withMetadata + st.missingGenre <= st.total
      && st.withMetadata == Size(Groups(tracks, KeyOf))
    decreases |tracks|
  {
    GroupsSize(tracks, KeyOf);
    if tracks != [] {
      var n := |tracks| - 1;
      StatsAccount(tracks[..n]);
      KeyOfDefined(tracks[n]);
    }
  }

  /** One more track: it joins its group, or is counted as missing what it lacks. */
  lemma TallySnoc(tracks: seq<TrackIn>, t: TrackIn)
    ensures Groups(tracks + [t], KeyOf) ==
      if KeyOf(t).Some? then Append(Groups(tracks, KeyOf), KeyOf(t).value, t) else Groups(tracks, KeyOf)
    ensures var st := StatsOf(tracks);
      StatsOf(tracks + [t]) == Stats(st.total + 1,
        st.withMetadata + (if KeyOf(t).Some? then 1 else 0),
        st.missingYear + (if HasYear(t) then 0 else 1),
        st.missingGenre + (if HasGenre(t) then 0 else 1))
  {
    GroupsSnoc(tracks, t, KeyOf);
    CountWhereSnoc(tracks, t, HasKey(KeyOf));
    CountWhereSnoc(tracks, t, MissingYear);
    CountWhereSnoc(tracks, t, MissingGenre);
  }

  lemma TallyStep(tracks: seq<TrackIn>, i: nat)
    requires i < |tracks|
    ensures var t := tracks[i];
      Groups(tracks[..i + 1], KeyOf) ==
        if KeyOf(t).Some? then Append(Groups(tracks[..i], KeyOf), KeyOf(t).value, t) else Groups(tracks[..i], KeyOf)
    ensures var t := tracks[i]; var st := StatsOf(tracks[..i]);
      StatsOf(tracks[..i + 1]) == Stats(st.total + 1,
        st.withMetadata + (if KeyOf(t).Some? then 1 else 0),
        st.missingYear + (if HasYear(t) then 0 else 1),
        st.missingGenre + (if HasGenre(t) then 0 else 1))
  {
    TakeSnoc(tracks, i);
    TallySnoc(tracks[..i], tracks[i]);
  }

  /** The loop over the tracks: the `defaultdict` of groups and the counters. */
  method Tally(tracks: seq<TrackIn>) returns (groups: seq<Group<Key, TrackIn>>, stats: Stats)
    ensures groups == Groups(tracks, KeyOf)
    ensures stats == StatsOf(tracks)
  {
    groups := [];
    stats := Stats(|tracks|, 0, 0, 0);
    for i := 0 to |tracks|
      invariant groups == Groups(tracks[..i], KeyOf)
      invariant stats == StatsOf(tracks[..i]).(total := |tracks|)
    {
      TallyStep(tracks, i);
      groups, stats := TallyTrack(groups, stats, tracks[i]);
    }
    TakeAll(tracks);
  }

  /** The body of the loop: the track joins its group, or the counters note what it lacks. */
  method TallyTrack(groups0: seq<Group<Key, TrackIn>>, stats0: Stats, track: TrackIn)
    returns (groups: seq<Group<Key, TrackIn>>, stats: Stats)
    ensures groups == if KeyOf(track).Some? then Append(groups0, KeyOf(track).value, track) else groups0
    ensures stats == Stats(stats0.total,
      stats0.withMetadata + (if KeyOf(track).Some? then 1 else 0),
      stats0.missingYear + (if HasYear(track) then 0 else 1),
      stats0.missingGenre + (if HasGenre(track) then 0 else 1))
  {
    groups, stats := groups0, stats0;
    if HasYear(track) && HasGenre(track) {
      var decade := Decade(track.releaseYear.value);
      var genre := NormalizeGenre(track.primaryGenre.value);
      if decade.Some? && genre.Some? {
        groups := Append(groups, (decade.value, genre.value), track);
        stats := stats.(withMetadata := stats.withMetadata + 1);
      }
    } else {
      if !HasYear(track) {
        stats := stats.(missingYear := stats.missingYear + 1);
      }
      if !HasGenre(track) {
        stats := stats.(missingGenre := stats.missingGenre + 1);
      }
    }
  }

  /**
   * As written, the listing carries no genre: no track is filed, every one
   * counts as missing a genre, and no group (hence no pack) comes out.
   */
  lemma {:induction false} AsWrittenFilesNothing(rows: seq<TrackRow>)
    ensures var ts := ListedAsWritten(rows);
      Groups(ts, KeyOf) == [] && StatsOf(ts).withMetadata == 0 && StatsOf(ts).missingGenre == |rows|
    decreases |rows|
  {
    var ts := ListedAsWritten(rows);
    if rows != [] {
      var n := |rows| - 1;
      AsWrittenFilesNothing(rows[..n]);
      assert ts == ListedAsWritten(rows[..n]) + [ts[n]];
      GroupsSnoc(ListedAsWritten(rows[..n]), ts[n], KeyOf);
      CountWhereSnoc(ListedAsWritten(rows[..n]), ts[n], HasKey(KeyOf));
      CountWhereSnoc(ListedAsWritten(rows[..n]), ts[n], MissingGenre);
    }
  }

  /** With the genre selected, a track is filed exactly when its row has a year and a genre. */
  lemma ListedFiles(rows: seq<TrackRow>, i: nat)
    requires i < |rows|
    ensures KeyOf(Listed(rows)[i]).Some? <==>
      (rows[i].releaseYear.Some? && rows[i].releaseYear.value != 0 && Truthy(rows[i].primaryGenre))
    ensures KeyOf(Listed(rows)[i]).Some? ==>
      Decade(rows[i].releaseYear.value) == Some(KeyOf(Listed(rows)[i]).value.0)
      && NormalizeGenre(rows[i].primaryGenre.value) == Some(KeyOf(Listed(rows)[i]).value.1)
  {
    KeyOfDefined(Listed(rows)[i]);
  }

  // ---------------------------------------------------------------- ranking

  function MemberCount(g: Group<Key, TrackIn>): int {
    |g.members|
  }

  const MinTracks := 10

  /** `sorted_groups` by size, largest first, and then the groups of at least `MinTracks`. */
  function Eligible(groups: seq<Group<Key, TrackIn>>): seq<Group<Key, TrackIn>> {
    Filter(SortDesc(groups, MemberCount), AtLeast(MemberCount, MinTracks))
  }

  /**
   * The eligible groups are the groups of at least `MinTracks`, largest
   * first, and groups of equal size keep the order their keys first appeared.
   */
  lemma EligibleCorrect(groups: seq<Group<Key, TrackIn>>)
    ensures SortedDesc(Eligible(groups), MemberCount)
    ensures forall g :: g in Eligible(groups) <==> g in groups && |g.members| >= MinTracks
    ensures forall v :: WithKey(Eligible(groups), MemberCount, v) == if v >= MinTracks then WithKey(groups, MemberCount, v) else []
  {
    var sorted := SortDesc(groups, MemberCount);
    SortDescCorrect(groups, MemberCount);
    SortDescPermutes(groups, MemberCount);
    FilterSorted(sorted, MemberCount, AtLeast(MemberCount, MinTracks));
    forall g ensures g in Eligible(groups) <==> g in groups && |g.members| >= MinTracks {
      assert g in sorted <==> g in multiset(groups);
      if g in groups && |g.members| >= MinTracks {
        FilterHas(sorted, AtLeast(MemberCount, MinTracks), g);
      }
    }
    forall v ensures WithKey(Eligible(groups), MemberCount, v) == if v >= MinTracks then WithKey(groups, MemberCount, v) else [] {
      FilterWithKey(sorted, MemberCount, MinTracks, v);
    }
  }

  // ---------------------------------------------------------------- creating the packs

  /** Name "1970s Rock", a description naming both, tags `[decade, genre.lower()]`. */
  function PlanOf(g: Group<Key, TrackIn>): PackPlan {
    var (decade, genre) := g.key;
    PackPlan(decade + " " + genre, "A collection of " + genre + " tracks from the " + decade,
             [decade, Lower(genre)], g.members)
  }

  function Plans(tracks: seq<TrackIn>): (ps: seq<PackPlan>)
    ensures |ps| == |Eligible(Groups(tracks, KeyOf))|
  {
    var es := Eligible(Groups(tracks, KeyOf));
    seq(|es|, i requires 0 <= i < |es| => PlanOf(es[i]))
  }

  /**
   * The `i`-th plan is the `i`-th eligible group's pack: named "{decade}
   * {genre}", tagged with the decade and the lower-cased genre, holding the
   * group's tracks, at least `MinTracks` of them.
   */
  lemma PlansNamed(tracks: seq<TrackIn>, i: nat)
    requires i < |Plans(tracks)|
    ensures var g := Eligible(Groups(tracks, KeyOf))[i]; var p := Plans(tracks)[i];
      p.name == g.key.0 + " " + g.key.1 && p.tags == [g.key.0, Lower(g.key.1)]
      && p.members == g.members && |p.members| >= MinTracks
  {
    var es := Eligible(Groups(tracks, KeyOf));
    EligibleCorrect(Groups(tracks, KeyOf));
    assert es[i] in es;
  }

  datatype Created = Created(name: string, trackCount: nat)

  /** `created_packs`: name and track count of each attempt that got through. */
  function CreatedList(plans: seq<PackPlan>, createFaults: nat -> Fault, addFaults: nat -> Fault): (r: seq<Created>)
    ensures |r| <= |plans|
    ensures forall c :: c in r ==> exists i :: 0 <= i < |plans| && c == Created(plans[i].name, |plans[i].members|)
    decreases |plans|
  {
    if plans == [] then []
    else
      var n := |plans| - 1;
      var before := CreatedList(plans[..n], createFaults, addFaults);
      assert forall c :: c in before ==> exists i :: 0 <= i < |plans| && c == Created(plans[i].name, |plans[i].members|) by {
        forall c | c in before ensures exists i :: 0 <= i < |plans| && c == Created(plans[i].name, |plans[i].members|) {
          var i :| 0 <= i < n && c == Created(plans[..n][i].name, |plans[..n][i].members|);
          assert plans[..n][i] == plans[i];
        }
      }
      before + if Succeeds(plans[n], n, createFaults, addFaults) then [Created(plans[n].name, |plans[n].members|)] else []
  }

  /** The creation loop; a failed attempt is reported and skipped. */
  method CreatePacks(db: Database, plans: seq<PackPlan>, now: int, createFaults: nat -> Fault, addFaults: nat -> Fault)
    returns (created: seq<Created>)
    requires db.Valid() && db.snapshot.None?
    modifies db
    ensures db.Valid() && db.snapshot.None?
    ensures db.State() == CreateAll(old(db.State()), plans, now, createFaults, addFaults)
    ensures created == CreatedList(plans, createFaults, addFaults)
  {
    created := [];
    for i := 0 to |plans|
      invariant db.Valid() && db.snapshot.None?
      invariant db.State() == CreateAll(old(db.State()), plans[..i], now, createFaults, addFaults)
      invariant created == CreatedList(plans[..i], createFaults, addFaults)
    {
      var p := plans[i];
      var r := Publish.CreateAndFill(db, p.name, Some(p.description), Some(p.tags), p.members, now, createFaults(i), addFaults(i));
      if r.Ok? {
        created := created + [Created(p.name, r.value.1)];
      }
      assert plans[..i + 1][..i] == plans[..i];
    }
    assert plans[..|plans|] == plans;
  }

  // ---------------------------------------------------------------- main

  /** `input(...).strip().lower() == 'yes'` */
  predicate Confirmed(response: string) {
    Lower(Strip(response)) == "yes"
  }

  datatype Outcome = NoSourcePack | Cancelled(stats: Stats, eligible: nat) | Finished(stats: Stats, created: seq<Created>)

  /**
   * `main()`: the pack listing, the tracks of each pack and the answer to the
   * prompt are inputs; the faults say which statements of the `i`-th attempt
   * raise.
   */
  method DecadeGenreMain(db: Database, packs: seq<PackListing>, packTracks: PackId -> seq<TrackRow>, response: string,
                         now: int, createFaults: nat -> Fault, addFaults: nat -> Fault)
    returns (r: Outcome)
    requires db.Valid() && db.snapshot.None?
    modifies db
    ensures db.Valid() && db.snapshot.None?
    ensures SourceIndex(packs).None? ==> r == NoSourcePack && db.State() == old(db.State())
    ensures SourceIndex(packs).Some? ==>
      var tracks := Listed(packTracks(packs[SourceIndex(packs).value].id));
      var plans := Plans(tracks);
      (!Confirmed(response) ==> r == Cancelled(StatsOf(tracks), |plans|) && db.State() == old(db.State()))
      && (Confirmed(response) ==>
            r == Finished(StatsOf(tracks), CreatedList(plans, createFaults, addFaults))
            && db.State() == CreateAll(old(db.State()), plans, now, createFaults, addFaults))
  {
    var source := FindSourcePack(packs);
    if source.None? {
      return NoSourcePack;
    }
    var tracks := Listed(packTracks(packs[source.value].id));
    var groups, stats := Tally(tracks);
    var eligible := Eligible(groups);
    var plans := seq(|eligible|, i requires 0 <= i < |eligible| => PlanOf(eligible[i]));
    assert plans == Plans(tracks);
    if !Confirmed(response) {
      return Cancelled(stats, |plans|);
    }
    var created := CreatePacks(db, plans, now, createFaults, addFaults);
    return Finished(stats, created);
  }
}
