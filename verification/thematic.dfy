/**
 * Thematic packs: the tracks of the "Every Track Star" pack that have a
 * year and a genre list are bucketed by decade, and for each decade of the
 * theme table, each theme becomes a pack of the decade's tracks carrying one
 * of its genres, when there are at least ten of them. Every such pack is
 * checked for artist concentration.
 */
module Thematic {
  import opened Common
  import opened Text
  import opened Db
  import opened Grouping
  import opened Sorting
  import opened Publish
  import opened Catalog
  import DecadeGenre

  // ---------------------------------------------------------------- genres

  /** `normalize_genre(genre)`: lower-cased, and `None` for an empty genre. */
  function NormalizeGenre(genre: string): (r: Option<string>)
    ensures r.None? <==> genre == []
  {
    if genre == [] then None else Some(Lower(genre))
  }

  /** Two non-empty genres normalise alike exactly when they agree up to case. */
  lemma NormalizeGenreCaseless(a: string, b: string)
    requires a != [] && b != []
    ensures NormalizeGenre(a) == NormalizeGenre(b) <==> Lower(a) == Lower(b)
  {
  }

  /** One entry of the theme table. */
  datatype PackConfig = PackConfig(name: string, genres: seq<string>, description: string)

  /** The themes of one decade of the table. */
  datatype Theme = Theme(decade: string, packs: seq<PackConfig>)

  function Normalized(genres: seq<string>): (r: seq<Option<string>>)
    ensures |r| == |genres| && forall i :: 0 <= i < |genres| ==> r[i] == NormalizeGenre(genres[i])
  {
    seq(|genres|, i requires 0 <= i < |genres| => NormalizeGenre(genres[i]))
  }

  /** `any(tg in pack_genres for tg in track_genres)` */
  predicate Matches(t: TrackIn, c: PackConfig) {
    exists tg :: tg in Normalized(t.genres.GetOr([])) && tg in Normalized(c.genres)
  }

  function MatchesConfig(c: PackConfig): TrackIn -> bool {
    (t: TrackIn) => Matches(t, c)
  }

  /**
   * With a theme whose genres are all non-empty, a track matches exactly
   * when one of its non-empty genres equals one of the theme's up to case.
   */
  lemma MatchesIff(t: TrackIn, c: PackConfig)
    requires forall j :: 0 <= j < |c.genres| ==> c.genres[j] != []
    ensures Matches(t, c) <==> exists i, j :: (0 <= i < |t.genres.GetOr([])| && 0 <= j < |c.genres|
      && t.genres.GetOr([])[i] != [] && Lower(t.genres.GetOr([])[i]) == Lower(c.genres[j]))
  {
    var gs := t.genres.GetOr([]);
    var ts, ps := Normalized(gs), Normalized(c.genres);
    if Matches(t, c) {
      var tg :| tg in ts && tg in ps;
      var i :| 0 <= i < |ts| && ts[i] == tg;
      var j :| 0 <= j < |ps| && ps[j] == tg;
      assert gs[i] != [] && Lower(gs[i]) == Lower(c.genres[j]);
    }
    if exists i, j :: 0 <= i < |gs| && 0 <= j < |c.genres| && gs[i] != [] && Lower(gs[i]) == Lower(c.genres[j]) {
      var i, j :| 0 <= i < |gs| && 0 <= j < |c.genres| && gs[i] != [] && Lower(gs[i]) == Lower(c.genres[j]);
      assert ts[i] == ps[j] && ts[i] in ts && ps[j] in ps;
    }
  }

  /** `name.lower().replace(' & ', '-').replace(' ', '-')` */
  function GenreTag(name: string): string {
    ReplaceAll(ReplaceAll(Lower(name), " & ", "-"), " ", "-")
  }

  /** The tag has no blank and is no longer than the theme name. */
  lemma GenreTagShape(name: string)
    ensures ' ' !in GenreTag(name) && |GenreTag(name)| <= |name|
  {
    var once := ReplaceAll(Lower(name), " & ", "-");
    ReplaceRemoves(once, ' ', "-");
    ReplaceShrinks(Lower(name), " & ", "-");
    ReplaceShrinks(once, " ", "-");
  }

  // ---------------------------------------------------------------- artist diversity

  function ArtistOf(t: TrackIn): Option<string> {
    Some(t.artist)
  }

  /** The `artist_counts` dict: each artist once, in order of first appearance, with its number of tracks. */
  function Counts(gs: seq<Group<string, TrackIn>>): (cs: seq<(string, nat)>)
    ensures |cs| == |gs| && forall i :: 0 <= i < |gs| ==> cs[i] == (gs[i].key, |gs[i].members|)
  {
    seq(|gs|, i requires 0 <= i < |gs| => (gs[i].key, |gs[i].members|))
  }

  /** `artist_counts[artist] += 1` on a `defaultdict(int)`. */
  function Bump(cs: seq<(string, nat)>, artist: string): seq<(string, nat)>
    decreases |cs|
  {
    if cs == [] then [(artist, 1)]
    else if cs[0].0 == artist then [(artist, cs[0].1 + 1)] + cs[1..]
    else [cs[0]] + Bump(cs[1..], artist)
  }

  lemma CountsCons(g: Group<string, TrackIn>, gs: seq<Group<string, TrackIn>>)
    ensures Counts([g] + gs) == [(g.key, |g.members|)] + Counts(gs)
  {
  }

  /** Counting an artist once more is appending a track to its group. */
  lemma {:induction false} BumpAppend(gs: seq<Group<string, TrackIn>>, artist: string, t: TrackIn)
    ensures Counts(Append(gs, artist, t)) == Bump(Counts(gs), artist)
    decreases |gs|
  {
    if gs != [] {
      assert gs == [gs[0]] + gs[1..];
      CountsCons(gs[0], gs[1..]);
      if gs[0].key != artist {
        BumpAppend(gs[1..], artist, t);
        CountsCons(gs[0], Append(gs[1..], artist, t));
      } else {
        CountsCons(Group(artist, gs[0].members + [t]), gs[1..]);
      }
    }
  }

  function ArtistCounts(tracks: seq<TrackIn>): seq<(string, nat)> {
    Counts(Groups(tracks, ArtistOf))
  }

  /** The counting loop of `check_artist_diversity`. */
  method CountArtists(tracks: seq<TrackIn>) returns (counts: seq<(string, nat)>)
    ensures counts == ArtistCounts(tracks)
  {
    counts := [];
    for i := 0 to |tracks|
      invariant counts == ArtistCounts(tracks[..i])
    {
      counts := Bump(counts, tracks[i].artist);
      TakeSnoc(tracks, i);
      GroupsSnoc(tracks[..i], tracks[i], ArtistOf);
      BumpAppend(Groups(tracks[..i], ArtistOf), tracks[i].artist, tracks[i]);
    }
    assert tracks[..|tracks|] == tracks;
  }

  function ByArtist(artist: string): TrackIn -> bool {
    (t: TrackIn) => t.artist == artist
  }

  /**
   * Each artist of the input is counted once, and with the number of its
   * tracks.
   */
  lemma ArtistCountsCorrect(tracks: seq<TrackIn>)
    ensures var cs := ArtistCounts(tracks);
      (forall i, j :: 0 <= i < j < |cs| ==> cs[i].0 != cs[j].0)
      && (forall i :: 0 <= i < |cs| ==> cs[i].1 == CountWhere(tracks, ByArtist(cs[i].0)) && cs[i].1 > 0)
      && (forall t :: t in tracks ==> exists i :: 0 <= i < |cs| && cs[i].0 == t.artist)
  {
    var cs := ArtistCounts(tracks);
    var gs := Groups(tracks, ArtistOf);
    KeysOfSound(tracks, ArtistOf);
    forall i | 0 <= i < |cs| ensures cs[i].1 == CountWhere(tracks, ByArtist(cs[i].0)) && cs[i].1 > 0 {
      MembersCount(tracks, ArtistOf, cs[i].0);
      CountWhereSame(tracks, Where(ArtistOf, cs[i].0), ByArtist(cs[i].0));
    }
    forall t | t in tracks ensures exists i :: 0 <= i < |cs| && cs[i].0 == t.artist {
      GroupsPartition(tracks, ArtistOf, t);
    }
  }

  /** Counting with two tests that agree everywhere gives the same number. */
  lemma {:induction false} CountWhereSame(s: seq<TrackIn>, p: TrackIn -> bool, q: TrackIn -> bool)
    requires forall x :: p(x) == q(x)
    ensures CountWhere(s, p) == CountWhere(s, q)
    decreases |s|
  {
    if s != [] {
      CountWhereSame(s[..|s| - 1], p, q);
    }
  }

  function CountOf(c: (string, nat)): int {
    c.1
  }

  /** `sorted(artist_counts.items(), key=count, reverse=True)[:5]` */
  function TopArtists(counts: seq<(string, nat)>): seq<(string, nat)> {
    Take(SortDesc(counts, CountOf), 5)
  }

  /** The largest share one artist may have, in percent (`max_percentage=0.15`). */
  const MaxShare := 15

  /** `count / total > max_percentage`, in exact arithmetic. */
  function Concentrated(total: nat): ((string, nat)) -> bool {
    (c: (string, nat)) => c.1 * 100 > MaxShare * total
  }

  /** The report: `warnings` and `top_artists` as (artist, count) pairs; the percentages are left to the printer. */
  datatype Diversity = Diversity(totalArtists: nat, totalTracks: nat, topArtists: seq<(string, nat)>, warnings: seq<(string, nat)>)

  function DiversityOf(tracks: seq<TrackIn>): Diversity {
    var top := TopArtists(ArtistCounts(tracks));
    Diversity(|ArtistCounts(tracks)|, |tracks|, top, Filter(top, Concentrated(|tracks|)))
  }

  /** `check_artist_diversity(tracks)` */
  method CheckArtistDiversity(tracks: seq<TrackIn>) returns (d: Diversity)
    ensures d == DiversityOf(tracks)
  {
    var counts := CountArtists(tracks);
    var total := |tracks|;
    var top := TopArtists(counts);
    var warnings := [];
    for i := 0 to |top|
      invariant warnings == Filter(top[..i], Concentrated(total))
    {
      if top[i].1 * 100 > MaxShare * total {
        warnings := warnings + [top[i]];
      }
      TakeSnoc(top, i);
      FilterSnoc(top[..i], top[i], Concentrated(total));
    }
    assert top[..|top|] == top;
    return Diversity(|counts|, total, top, warnings);
  }

  /**
   * At most five top artists, the largest counts first, each one of the
   * counted artists; no artist left out has more tracks than one listed.
   */
  lemma TopArtistsCorrect(counts: seq<(string, nat)>)
    ensures var top := TopArtists(counts);
      |top| == (if |counts| < 5 then |counts| else 5)
      && SortedDesc(top, CountOf)
      && (forall c :: c in top ==> c in counts)
      && (forall c, u :: c in counts && c !in top && u in top ==> u.1 >= c.1)
  {
    TopSorted(counts, CountOf, 5);
    TopMaximal(counts, CountOf, 5);
  }

  /** An artist of the top five is warned about exactly when its share is above 15%. */
  lemma WarningsCorrect(tracks: seq<TrackIn>)
    ensures var d := DiversityOf(tracks);
      forall c :: c in d.warnings <==> c in d.topArtists && c.1 * 100 > MaxShare * |tracks|
  {
    var d := DiversityOf(tracks);
    forall c ensures c in d.warnings <==> c in d.topArtists && c.1 * 100 > MaxShare * |tracks| {
      if c in d.topArtists && c.1 * 100 > MaxShare * |tracks| {
        FilterHas(d.topArtists, Concentrated(|tracks|), c);
      }
    }
  }

  // ---------------------------------------------------------------- bucketing by decade

  /** `if year and genres`: a year other than 0 and a non-empty genre list. */
  predicate Bucketed(t: TrackIn) {
    DecadeGenre.HasYear(t) && t.genres.Some? && t.genres.value != []
  }

  /** The decade a track is bucketed under, if any. */
  function DecadeKey(t: TrackIn): (r: Option<string>)
    ensures r.Some? <==> Bucketed(t)
    ensures r.Some? ==> DecadeGenre.Decade(t.releaseYear.value) == r
  {
    if Bucketed(t) then DecadeGenre.Decade(t.releaseYear.value) else None
  }

  /** The loop that fills `tracks_by_decade`. */
  method Bucket(tracks: seq<TrackIn>) returns (byDecade: seq<Group<string, TrackIn>>)
    ensures byDecade == Groups(tracks, DecadeKey)
  {
    byDecade := [];
    for i := 0 to |tracks|
      invariant byDecade == Groups(tracks[..i], DecadeKey)
    {
      var track := tracks[i];
      if DecadeGenre.HasYear(track) && track.genres.Some? && track.genres.value != [] {
        var decade := DecadeGenre.Decade(track.releaseYear.value);
        if decade.Some? {
          byDecade := Append(byDecade, decade.value, track);
        }
      }
      TakeSnoc(tracks, i);
      GroupsSnoc(tracks[..i], track, DecadeKey);
    }
    assert tracks[..|tracks|] == tracks;
  }

  // ---------------------------------------------------------------- the plans

  const MinTracks := 10

  /** The pack one theme of one decade becomes. */
  function PlanFor(decade: string, c: PackConfig, matching: seq<TrackIn>): PackPlan {
    PackPlan(decade + " " + c.name, c.description, [Lower(decade), GenreTag(c.name)], matching)
  }

  /** The decade's tracks carrying one of the theme's genres. */
  function Matching(tracks: seq<TrackIn>, decade: string, c: PackConfig): seq<TrackIn> {
    Filter(Members(tracks, DecadeKey, decade), MatchesConfig(c))
  }

  /** The pack a theme adds to the run: none below `MinTracks` matching tracks. */
  function ThemeStep(tracks: seq<TrackIn>, decade: string, c: PackConfig): seq<PackPlan> {
    var matching := Matching(tracks, decade, c);
    if |matching| < MinTracks then [] else [PlanFor(decade, c, matching)]
  }

  /** The packs attempted for the first themes of one decade: those with at least `MinTracks` matching tracks. */
  function ThemePlans(tracks: seq<TrackIn>, decade: string, configs: seq<PackConfig>): seq<PackPlan>
    decreases |configs|
  {
    if configs == [] || Members(tracks, DecadeKey, decade) == [] then []
    else
      var n := |configs| - 1;
      ThemePlans(tracks, decade, configs[..n]) + ThemeStep(tracks, decade, configs[n])
  }

  lemma ThemePlansNext(tracks: seq<TrackIn>, decade: string, configs: seq<PackConfig>, k: nat)
    requires Members(tracks, DecadeKey, decade) != [] && k < |configs|
    ensures ThemePlans(tracks, decade, configs[..k + 1]) == ThemePlans(tracks, decade, configs[..k]) + ThemeStep(tracks, decade, configs[k])
  {
    assert configs[..k + 1][..k] == configs[..k];
  }

  /** The packs attempted for the decades of the table, in order. */
  function AllPlans(tracks: seq<TrackIn>, themes: seq<Theme>): seq<PackPlan>
    decreases |themes|
  {
    if themes == [] then []
    else
      var n := |themes| - 1;
      AllPlans(tracks, themes[..n]) + ThemePlans(tracks, themes[n].decade, themes[n].packs)
  }

  /** Every pack attempted has at least `MinTracks` tracks, each bucketed under the pack's decade and matching its theme. */
  lemma {:induction false} ThemePlansSound(tracks: seq<TrackIn>, decade: string, configs: seq<PackConfig>)
    ensures forall p :: p in ThemePlans(tracks, decade, configs) ==>
      |p.members| >= MinTracks
      && exists c :: c in configs && p == PlanFor(decade, c, Matching(tracks, decade, c))
    decreases |configs|
  {
    if configs != [] && Members(tracks, DecadeKey, decade) != [] {
      var n := |configs| - 1;
      ThemePlansSound(tracks, decade, configs[..n]);
      forall p | p in ThemePlans(tracks, decade, configs)
        ensures |p.members| >= MinTracks && exists c :: c in configs && p == PlanFor(decade, c, Matching(tracks, decade, c))
      {
        if p in ThemePlans(tracks, decade, configs[..n]) {
          var c :| c in configs[..n] && p == PlanFor(decade, c, Matching(tracks, decade, c));
          assert c in configs;
        } else {
          assert configs[n] in configs;
        }
      }
    }
  }

  /** The members of a plan for a theme are tracks of that decade carrying one of its genres. */
  lemma MatchingSound(tracks: seq<TrackIn>, decade: string, c: PackConfig)
    ensures forall t :: t in Matching(tracks, decade, c) ==> t in tracks && Bucketed(t) && DecadeKey(t) == Some(decade) && Matches(t, c)
  {
  }

  /** A theme with enough matching tracks adds its pack. */
  lemma ThemeStepAttempts(tracks: seq<TrackIn>, decade: string, c: PackConfig)
    requires |Matching(tracks, decade, c)| >= MinTracks
    ensures ThemeStep(tracks, decade, c) == [PlanFor(decade, c, Matching(tracks, decade, c))]
  {
  }

  /** The packs of the first themes come first among the packs of all of them. */
  lemma {:induction false} ThemePlansPrefix(tracks: seq<TrackIn>, decade: string, configs: seq<PackConfig>, m: nat)
    requires m <= |configs|
    ensures ThemePlans(tracks, decade, configs[..m]) <= ThemePlans(tracks, decade, configs)
    decreases |configs|
  {
    if m < |configs| {
      var n := |configs| - 1;
      ThemePlansPrefix(tracks, decade, configs[..n], m);
      assert configs[..n][..m] == configs[..m];
      ThemePlansLast(tracks, decade, configs);
      PrefixTrans(ThemePlans(tracks, decade, configs[..m]), ThemePlans(tracks, decade, configs[..n]),
                  ThemePlans(tracks, decade, configs));
    } else {
      assert configs[..m] == configs;
    }
  }

  lemma ThemePlansLast(tracks: seq<TrackIn>, decade: string, configs: seq<PackConfig>)
    requires configs != []
    ensures ThemePlans(tracks, decade, configs[..|configs| - 1]) <= ThemePlans(tracks, decade, configs)
  {
    var n := |configs| - 1;
    if Members(tracks, DecadeKey, decade) != [] {
      PrefixAppend(ThemePlans(tracks, decade, configs[..n]), ThemePlans(tracks, decade, configs[..n]), ThemeStep(tracks, decade, configs[n]));
    }
  }

  /** A theme with at least `MinTracks` matching tracks in its decade is attempted. */
  lemma ThemePlansComplete(tracks: seq<TrackIn>, decade: string, configs: seq<PackConfig>, k: nat)
    requires k < |configs| && |Matching(tracks, decade, configs[k])| >= MinTracks
    ensures PlanFor(decade, configs[k], Matching(tracks, decade, configs[k])) in ThemePlans(tracks, decade, configs)
  {
    ThemeStepAttempts(tracks, decade, configs[k]);
    ThemePlansNext(tracks, decade, configs, k);
    ThemePlansPrefix(tracks, decade, configs, k + 1);
  }

  /** Every theme of every decade of the table with enough matching tracks is attempted. */
  lemma AllPlansComplete(tracks: seq<TrackIn>, themes: seq<Theme>, d: nat, k: nat)
    requires d < |themes| && k < |themes[d].packs|
    requires |Matching(tracks, themes[d].decade, themes[d].packs[k])| >= MinTracks
    ensures PlanFor(themes[d].decade, themes[d].packs[k], Matching(tracks, themes[d].decade, themes[d].packs[k]))
      in AllPlans(tracks, themes)
  {
    ThemePlansComplete(tracks, themes[d].decade, themes[d].packs, k);
    AllPlansHas(tracks, themes, d, PlanFor(themes[d].decade, themes[d].packs[k], Matching(tracks, themes[d].decade, themes[d].packs[k])));
  }

  /** The plans of every decade of the table are among the table's plans. */
  lemma {:induction false} AllPlansHas(tracks: seq<TrackIn>, themes: seq<Theme>, d: nat, p: PackPlan)
    requires d < |themes| && p in ThemePlans(tracks, themes[d].decade, themes[d].packs)
    ensures p in AllPlans(tracks, themes)
    decreases |themes|
  {
    var n := |themes| - 1;
    var before := AllPlans(tracks, themes[..n]);
    var last := ThemePlans(tracks, themes[n].decade, themes[n].packs);
    assert AllPlans(tracks, themes) == before + last;
    if d < n {
      assert themes[..n][d] == themes[d];
      AllPlansHas(tracks, themes[..n], d, p);
      assert p in before;
    } else {
      assert p in last;
    }
  }

  // ---------------------------------------------------------------- creating the packs

  datatype Created = Created(name: string, trackCount: nat, diversity: Diversity)

  /** `created_packs` */
  function CreatedList(plans: seq<PackPlan>, createFaults: nat -> Fault, addFaults: nat -> Fault): (r: seq<Created>)
    decreases |plans|
  {
    if plans == [] then []
    else
      var n := |plans| - 1;
      CreatedList(plans[..n], createFaults, addFaults) + Entry(plans[n], n, createFaults, addFaults)
  }

  /** What the `i`-th attempt adds to `created_packs`: its entry when it succeeds. */
  function Entry(p: PackPlan, i: nat, createFaults: nat -> Fault, addFaults: nat -> Fault): seq<Created> {
    if Succeeds(p, i, createFaults, addFaults) then [Created(p.name, |p.members|, DiversityOf(p.members))] else []
  }

  lemma CreatedListSnoc(plans: seq<PackPlan>, p: PackPlan, createFaults: nat -> Fault, addFaults: nat -> Fault)
    ensures CreatedList(plans + [p], createFaults, addFaults) == CreatedList(plans, createFaults, addFaults)
      + Entry(p, |plans|, createFaults, addFaults)
  {
    var q := plans + [p];
    assert q[..|q| - 1] == plans && q[|q| - 1] == p;
  }

  /** `total_tracks_added` */
  function Added(cs: seq<Created>): nat
    decreases |cs|
  {
    if cs == [] then 0 else Added(cs[..|cs| - 1]) + cs[|cs| - 1].trackCount
  }

  lemma AddedSnoc(cs: seq<Created>, c: Created)
    ensures Added(cs + [c]) == Added(cs) + c.trackCount
  {
    assert (cs + [c])[..|cs|] == cs;
  }

  /** Each created pack is reported with the number of tracks it was given, which is at least `MinTracks`. */
  lemma {:induction false} CreatedListSound(tracks: seq<TrackIn>, themes: seq<Theme>, createFaults: nat -> Fault, addFaults: nat -> Fault)
    ensures forall c :: c in CreatedList(AllPlans(tracks, themes), createFaults, addFaults) ==> c.trackCount >= MinTracks
    decreases |themes|
  {
    if themes != [] {
      var n := |themes| - 1;
      var d := themes[n].decade;
      CreatedListSound(tracks, themes[..n], createFaults, addFaults);
      ThemePlansSound(tracks, d, themes[n].packs);
      CreatedListAppend(AllPlans(tracks, themes[..n]), ThemePlans(tracks, d, themes[n].packs), createFaults, addFaults);
    }
  }

  /** The report for a longer run extends the report for its start with entries for plans of the rest. */
  lemma {:induction false} CreatedListAppend(a: seq<PackPlan>, b: seq<PackPlan>, createFaults: nat -> Fault, addFaults: nat -> Fault)
    ensures forall c :: c in CreatedList(a + b, createFaults, addFaults) ==>
      c in CreatedList(a, createFaults, addFaults) || exists p :: p in b && c.trackCount == |p.members|
    decreases |b|
  {
    if b == [] {
      assert a + b == a;
    } else {
      var n := |b| - 1;
      CreatedListAppend(a, b[..n], createFaults, addFaults);
      assert a + b == (a + b[..n]) + [b[n]];
      CreatedListSnoc(a + b[..n], b[n], createFaults, addFaults);
      forall c | c in CreatedList(a + b, createFaults, addFaults)
        ensures c in CreatedList(a, createFaults, addFaults) || exists p :: p in b && c.trackCount == |p.members|
      {
        if c !in CreatedList(a + b[..n], createFaults, addFaults) {
          assert b[n] in b;
        } else if c !in CreatedList(a, createFaults, addFaults) {
          var p :| p in b[..n] && c.trackCount == |p.members|;
          assert p in b;
        }
      }
    }
  }

  // ---------------------------------------------------------------- main

  datatype Outcome = NoSourcePack | Finished(created: seq<Created>, totalAdded: nat)

  /**
   * `main()`: the pack listing, the tracks of each pack and the theme table
   * (its decades in the order `sorted` gives them) are inputs; the faults say
   * which statements of the `i`-th attempt raise. The tracks are the dicts of
   * `get_pack_tracks` as written, without `primary_genre`, which the themes
   * do not read.
   */
  method ThematicMain(db: Database, packs: seq<PackListing>, packTracks: PackId -> seq<TrackRow>, themes: seq<Theme>,
                      now: int, createFaults: nat -> Fault, addFaults: nat -> Fault)
    returns (r: Outcome)
    requires db.Valid() && db.snapshot.None?
    modifies db
    ensures db.Valid() && db.snapshot.None?
    ensures SourceIndex(packs).None? ==> r == NoSourcePack && db.State() == old(db.State())
    ensures SourceIndex(packs).Some? ==>
      var plans := AllPlans(ListedAsWritten(packTracks(packs[SourceIndex(packs).value].id)), themes);
      r == Finished(CreatedList(plans, createFaults, addFaults), Added(CreatedList(plans, createFaults, addFaults)))
      && db.State() == CreateAll(old(db.State()), plans, now, createFaults, addFaults)
  {
    var source := FindSourcePack(packs);
    if source.None? {
      return NoSourcePack;
    }
    var tracks := ListedAsWritten(packTracks(packs[source.value].id));
    var byDecade := Bucket(tracks);
    ghost var start := db.State();
    ghost var done: seq<PackPlan> := [];
    var created: seq<Created> := [];
    var total := 0;
    var attempts := 0;
    for d := 0 to |themes|
      invariant db.Valid() && db.snapshot.None?
      invariant done == AllPlans(tracks, themes[..d]) && attempts == |done|
      invariant db.State() == CreateAll(start, done, now, createFaults, addFaults)
      invariant created == CreatedList(done, createFaults, addFaults) && total == Added(created)
    {
      var theme := themes[d];
      assert themes[..d + 1][..d] == themes[..d];
      var decadeTracks := Lookup(byDecade, theme.decade);
      LookupGroups(tracks, DecadeKey, theme.decade);
      if decadeTracks == [] {
        assert ThemePlans(tracks, theme.decade, theme.packs) == [];
        continue;
      }
      done, attempts, created, total := RunTheme(db, tracks, theme, decadeTracks, now, createFaults, addFaults,
                                                 start, done, attempts, created, total);
    }
    assert themes[..|themes|] == themes;
    return Finished(created, total);
  }

  /**
   * The loop over the themes of one decade, carrying the run's progress:
   * the packs attempted so far (`done`, one attempt each), the packs
   * created and the tracks added.
   */
  method RunTheme(db: Database, tracks: seq<TrackIn>, theme: Theme, decadeTracks: seq<TrackIn>, now: int,
                  createFaults: nat -> Fault, addFaults: nat -> Fault,
                  ghost start: Tables, ghost done0: seq<PackPlan>, attempts0: nat, created0: seq<Created>, total0: nat)
    returns (ghost done: seq<PackPlan>, attempts: nat, created: seq<Created>, total: nat)
    requires db.Valid() && db.snapshot.None? && TablesValid(start)
    requires decadeTracks == Members(tracks, DecadeKey, theme.decade) && decadeTracks != []
    requires attempts0 == |done0| && db.State() == CreateAll(start, done0, now, createFaults, addFaults)
    requires created0 == CreatedList(done0, createFaults, addFaults) && total0 == Added(created0)
    modifies db
    ensures db.Valid() && db.snapshot.None?
    ensures done == done0 + ThemePlans(tracks, theme.decade, theme.packs) && attempts == |done|
    ensures db.State() == CreateAll(start, done, now, createFaults, addFaults)
    ensures created == CreatedList(done, createFaults, addFaults) && total == Added(created)
  {
    done, attempts, created, total := done0, attempts0, created0, total0;
    for k := 0 to |theme.packs|
      invariant db.Valid() && db.snapshot.None?
      invariant done == done0 + ThemePlans(tracks, theme.decade, theme.packs[..k]) && attempts == |done|
      invariant db.State() == CreateAll(start, done, now, createFaults, addFaults)
      invariant created == CreatedList(done, createFaults, addFaults) && total == Added(created)
    {
      done, attempts, created, total := AttemptConfig(db, tracks, theme.decade, theme.packs, k, decadeTracks, now,
                                                      createFaults, addFaults, start, done0, done, attempts, created, total);
    }
    TakeAll(theme.packs);
  }

  /** Theme `k` of a decade, attempted when enough tracks match it, with the run's progress carried on. */
  method AttemptConfig(db: Database, tracks: seq<TrackIn>, decade: string, configs: seq<PackConfig>, k: nat,
                       decadeTracks: seq<TrackIn>, now: int, createFaults: nat -> Fault, addFaults: nat -> Fault,
                       ghost start: Tables, ghost base: seq<PackPlan>, ghost done0: seq<PackPlan>,
                       attempts0: nat, created0: seq<Created>, total0: nat)
    returns (ghost done: seq<PackPlan>, attempts: nat, created: seq<Created>, total: nat)
    requires db.Valid() && db.snapshot.None? && TablesValid(start)
    requires decadeTracks == Members(tracks, DecadeKey, decade) && decadeTracks != [] && k < |configs|
    requires done0 == base + ThemePlans(tracks, decade, configs[..k])
    requires attempts0 == |done0| && db.State() == CreateAll(start, done0, now, createFaults, addFaults)
    requires created0 == CreatedList(done0, createFaults, addFaults) && total0 == Added(created0)
    modifies db
    ensures db.Valid() && db.snapshot.None?
    ensures done == base + ThemePlans(tracks, decade, configs[..k + 1]) && attempts == |done|
    ensures db.State() == CreateAll(start, done, now, createFaults, addFaults)
    ensures created == CreatedList(done, createFaults, addFaults) && total == Added(created)
  {
    var config := configs[k];
    ghost var p := PlanFor(decade, config, Matching(tracks, decade, config));
    AttemptStep(start, done0, p, now, createFaults, addFaults);
    done := ThemePlansStep(tracks, decade, configs, k, base, done0);
    attempts, created, total := TryTheme(db, tracks, decade, config, decadeTracks, now, createFaults, addFaults,
                                         attempts0, created0, total0);
  }

  /** The packs attempted once theme `k` is done: one more exactly when enough tracks match it. */
  lemma ThemePlansStep(tracks: seq<TrackIn>, decade: string, configs: seq<PackConfig>, k: nat,
                       base: seq<PackPlan>, done0: seq<PackPlan>) returns (done: seq<PackPlan>)
    requires Members(tracks, DecadeKey, decade) != [] && k < |configs|
    requires done0 == base + ThemePlans(tracks, decade, configs[..k])
    ensures done == base + ThemePlans(tracks, decade, configs[..k + 1])
    ensures ThemeStep(tracks, decade, configs[k]) == [] ==> done == done0
    ensures ThemeStep(tracks, decade, configs[k]) != [] ==>
      done == done0 + [PlanFor(decade, configs[k], Matching(tracks, decade, configs[k]))]
  {
    ThemePlansNext(tracks, decade, configs, k);
    var step := ThemeStep(tracks, decade, configs[k]);
    done := done0 + step;
    if step == [] {
      assert done == done0;
    }
  }

  /** One more attempt of the run: the tables, the created list and the total it leads to. */
  lemma AttemptStep(start: Tables, done: seq<PackPlan>, p: PackPlan, now: int, createFaults: nat -> Fault, addFaults: nat -> Fault)
    requires TablesValid(start)
    ensures CreateAll(start, done + [p], now, createFaults, addFaults)
      == Attempt(CreateAll(start, done, now, createFaults, addFaults), p.name, Some(p.description), Some(p.tags), p.members,
                 now, createFaults(|done|), addFaults(|done|))
    ensures CreatedList(done + [p], createFaults, addFaults)
      == CreatedList(done, createFaults, addFaults) + Entry(p, |done|, createFaults, addFaults)
    ensures Added(CreatedList(done + [p], createFaults, addFaults))
      == Added(CreatedList(done, createFaults, addFaults)) + (if Succeeds(p, |done|, createFaults, addFaults) then |p.members| else 0)
  {
    CreateAllSnoc(start, done, p, now, createFaults, addFaults);
    CreatedListSnoc(done, p, createFaults, addFaults);
    var cs := CreatedList(done, createFaults, addFaults);
    var e := Entry(p, |done|, createFaults, addFaults);
    if e != [] {
      AddedSnoc(cs, e[0]);
    } else {
      assert cs + e == cs;
    }
  }

  /**
   * One theme of a decade: skipped below `MinTracks` matching tracks,
   * otherwise checked for diversity and attempted as the next pack of the
   * run, the `attempts0`-th; a success appends its entry and adds its
   * tracks to the total.
   */
  method TryTheme(db: Database, tracks: seq<TrackIn>, decade: string, config: PackConfig, decadeTracks: seq<TrackIn>,
                  now: int, createFaults: nat -> Fault, addFaults: nat -> Fault,
                  attempts0: nat, created0: seq<Created>, total0: nat)
    returns (attempts: nat, created: seq<Created>, total: nat)
    requires db.Valid() && db.snapshot.None?
    requires decadeTracks == Members(tracks, DecadeKey, decade)
    modifies db
    ensures db.Valid() && db.snapshot.None?
    ensures ThemeStep(tracks, decade, config) == [] ==>
      db.State() == old(db.State()) && attempts == attempts0 && created == created0 && total == total0
    ensures ThemeStep(tracks, decade, config) != [] ==>
      var p := PlanFor(decade, config, Matching(tracks, decade, config));
      db.State() == Attempt(old(db.State()), p.name, Some(p.description), Some(p.tags), p.members, now,
                            createFaults(attempts0), addFaults(attempts0))
      && attempts == attempts0 + 1 && created == created0 + Entry(p, attempts0, createFaults, addFaults)
      && total == total0 + (if Succeeds(p, attempts0, createFaults, addFaults) then |p.members| else 0)
  {
    attempts, created, total := attempts0, created0, total0;
    var packName := decade + " " + config.name;
    var matching := MatchingTracks(decadeTracks, config);
    if |matching| < MinTracks {
      return;
    }
    var diversity := CheckArtistDiversity(matching);
    var tags := [Lower(decade), GenreTag(config.name)];
    var attempt := CreateAndFill(db, packName, Some(config.description), Some(tags), matching, now,
                                 createFaults(attempts), addFaults(attempts));
    if attempt.Ok? {
      var entry := Created(packName, attempt.value.1, diversity);
      created := created + [entry];
      total := total + entry.trackCount;
    }
    attempts := attempts + 1;
  }

  /** The loop that collects `matching_tracks`. */
  method MatchingTracks(decadeTracks: seq<TrackIn>, c: PackConfig) returns (matching: seq<TrackIn>)
    ensures matching == Filter(decadeTracks, MatchesConfig(c))
  {
    matching := [];
    var packGenres := Normalized(c.genres);
    for i := 0 to |decadeTracks|
      invariant matching == Filter(decadeTracks[..i], MatchesConfig(c))
    {
      var track := decadeTracks[i];
      FilterStep(decadeTracks, i, MatchesConfig(c));
      var trackGenres := Normalized(track.genres.GetOr([]));
      if exists tg :: tg in trackGenres && tg in packGenres {
        matching := matching + [track];
      }
    }
    TakeAll(decadeTracks);
  }
}
