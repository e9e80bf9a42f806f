/**
 * The channel scraper: command-line options, the "already processed" check
 * against the packs loaded at start, and one pack per video whose description
 * yields a track list with at least one Spotify match. Pages and the catalog
 * are oracles: the page text and `<title>` text per video URL, the search
 * answers of the client, and which database statement raises.
 */
module ScrapeChannel {
  import opened Common
  import opened Text
  import opened Db
  import Parser
  import Spotify
  import Youtube
  import Publish

  // ---------------------------------------------------------------- already processed

  /** `video_already_processed`: some pack's non-empty description contains the URL. */
  function AlreadyProcessed(url: string, packs: seq<Pack>): (r: bool)
    ensures r <==> exists i :: 0 <= i < |packs| && Truthy(packs[i].description) && Contains(packs[i].description.value, url)
    decreases |packs|
  {
    if packs == [] then false
    else if Truthy(packs[0].description) && Contains(packs[0].description.value, url) then true
    else
      var r := AlreadyProcessed(url, packs[1..]);
      assert r ==> exists i :: 0 <= i < |packs| && Truthy(packs[i].description) && Contains(packs[i].description.value, url) by {
        if r {
          var i :| 0 <= i < |packs[1..]| && Truthy(packs[1..][i].description) && Contains(packs[1..][i].description.value, url);
          assert packs[i + 1] == packs[1..][i];
        }
      }
      assert (exists i :: 0 <= i < |packs| && Truthy(packs[i].description) && Contains(packs[i].description.value, url)) ==> r by {
        if exists i :: 0 <= i < |packs| && Truthy(packs[i].description) && Contains(packs[i].description.value, url) {
          var i :| 0 <= i < |packs| && Truthy(packs[i].description) && Contains(packs[i].description.value, url);
          assert i > 0 && packs[1..][i - 1] == packs[i];
        }
      }
      r
  }

  // ---------------------------------------------------------------- one video

  const DescriptionHead: string := "Track list from Track Star episode\n\nSource: "

  /** The description of a pack created from a video. */
  function PackDescription(url: string): string {
    DescriptionHead + url
  }

  /** `"Track Star - " + guest`, else the video title, else `"Track Star Pack"`. */
  function PackName(episode: Option<Parser.EpisodeInfo>, title: Option<string>): string {
    if episode.Some? && episode.value.guest != [] then "Track Star - " + episode.value.guest
    else if Truthy(title) then title.value
    else "Track Star Pack"
  }

  /** The name never comes out empty; the guest takes precedence over the title. */
  lemma PackNameCases(episode: Option<Parser.EpisodeInfo>, title: Option<string>)
    ensures PackName(episode, title) != []
    ensures episode.Some? && episode.value.guest != [] ==> PackName(episode, title) == "Track Star - " + episode.value.guest
    ensures (episode.None? || episode.value.guest == []) && Truthy(title) ==> PackName(episode, title) == title.value
    ensures (episode.None? || episode.value.guest == []) && !Truthy(title) ==> PackName(episode, title) == "Track Star Pack"
  {
  }

  /** A pack created from a video is found by the check for that video afterwards. */
  lemma CreatedPackIsFound(url: string, packs: seq<Pack>, name: string, tags: seq<string>)
    ensures AlreadyProcessed(url, packs + [Pack(name, Some(PackDescription(url)), tags)])
  {
    var d := PackDescription(url);
    assert d[|DescriptionHead|..|DescriptionHead| + |url|] == url;
    ContainsAt(d, url, |DescriptionHead|);
    var all := packs + [Pack(name, Some(d), tags)];
    assert all[|packs|].description == Some(d);
  }

  /** A parsed line as the dictionary the batch search reads. */
  function Request(t: Parser.ParsedTrack): Spotify.TrackRequest {
    Spotify.TrackRequest(Some(t.title), Some(t.artist))
  }

  function Requests(tracks: seq<Parser.ParsedTrack>): (rs: seq<Spotify.TrackRequest>)
    ensures |rs| == |tracks| && forall i :: 0 <= i < |tracks| ==> rs[i] == Request(tracks[i])
  {
    seq(|tracks|, i requires 0 <= i < |tracks| => Request(tracks[i]))
  }

  /** What `process_video` creates: the pack's name and description, and the tracks it links. */
  datatype Plan = Plan(name: string, description: string, batch: seq<TrackIn>)

  /**
   * The first three steps of `process_video`, and the pack name: `None` when
   * there is no description, no parsed track or no Spotify match.
   */
  function PlanFor(url: string, page: Option<string>, titleTag: Option<string>,
                   search: string -> Spotify.SearchAnswer): Option<Plan>
  {
    var d := Youtube.Description(page);
    if !Truthy(d) then None
    else
      var tracks := Parser.TrackListOf(d.value);
      if tracks == [] then None
      else
        var found := Spotify.BatchResults(search, Requests(tracks));
        if found == [] then None
        else Some(Plan(PackName(Parser.ExtractEpisodeInfo(d.value), Youtube.VideoTitle(titleTag)),
                       PackDescription(url), Publish.AsTrackIns(found)))
  }

  /**
   * A video yields a pack exactly when all three steps succeed; the pack's
   * description names the video's URL and it links at least one track.
   */
  lemma PlanForSound(url: string, page: Option<string>, titleTag: Option<string>, search: string -> Spotify.SearchAnswer)
    ensures PlanFor(url, page, titleTag, search).Some? <==>
      Truthy(Youtube.Description(page)) &&
      Parser.TrackListOf(Youtube.Description(page).value) != [] &&
      Spotify.BatchResults(search, Requests(Parser.TrackListOf(Youtube.Description(page).value))) != []
    ensures PlanFor(url, page, titleTag, search).Some? ==>
      PlanFor(url, page, titleTag, search).value.description == PackDescription(url) &&
      PlanFor(url, page, titleTag, search).value.batch != [] &&
      PlanFor(url, page, titleTag, search).value.name != []
    ensures Youtube.Description(page).None? ==> PlanFor(url, page, titleTag, search).None?
  {
    if PlanFor(url, page, titleTag, search).Some? {
      var d := Youtube.Description(page).value;
      PackNameCases(Parser.ExtractEpisodeInfo(d), Youtube.VideoTitle(titleTag));
    }
  }

  /**
   * `process_video`. `Ok(false)` when a step finds nothing, with no write;
   * an error when `create_pack` or `add_tracks_to_pack` raises, in which case
   * an empty pack may stay behind.
   */
  method ProcessVideo(db: Database, url: string, page: Option<string>, titleTag: Option<string>,
                      client: Spotify.SpotifyClient, now: int, createFault: Fault, addFault: Fault)
    returns (r: Result<bool, DbError>)
    requires db.Valid() && db.snapshot.None?
    modifies db
    ensures db.Valid() && db.snapshot.None?
    ensures var plan := PlanFor(url, page, titleTag, client.search);
      (r == Ok(false) <==> plan.None?)
      && (plan.None? ==> db.State() == old(db.State()))
      && (plan.Some? && createFault.Raises(0) ==> r.Err? && db.State() == old(db.State()))
      && (plan.Some? && !createFault.Raises(0) && r.Err? ==>
            db.State() == CreatePackSpec(old(db.State()), plan.value.name, Some(plan.value.description), None).0)
      && (plan.Some? ==> (r.Err? <==> createFault.Raises(0) || Publish.FillFails(plan.value.batch, addFault)))
      && (r == Ok(true) <==> plan.Some? && !createFault.Raises(0) && !Publish.FillFails(plan.value.batch, addFault))
      && (r == Ok(true) ==> (plan.Some? &&
            db.State() == Publish.Published(old(db.State()), plan.value.name, Some(plan.value.description), None, plan.value.batch, now)))
  {
    var description := Youtube.Description(page);
    if !Truthy(description) {
      return Ok(false);
    }
    var tracks, _ := Parser.ParseTrackList(description.value);
    if tracks == [] {
      return Ok(false);
    }
    var found := client.SearchTracksBatch(Requests(tracks));
    if found == [] {
      return Ok(false);
    }
    var name := PackName(Parser.ExtractEpisodeInfo(description.value), Youtube.VideoTitle(titleTag));
    ghost var plan := Plan(name, PackDescription(url), Publish.AsTrackIns(found));
    assert PlanFor(url, page, titleTag, client.search) == Some(plan);
    var published := Publish.CreateAndFill(db, name, Some(PackDescription(url)), None, Publish.AsTrackIns(found), now, createFault, addFault);
    if published.Err? {
      return Err(published.error);
    }
    return Ok(true);
  }

  // ---------------------------------------------------------------- options

  datatype Options = Options(limit: Option<int>, skipExisting: bool)

  datatype UsageError = LimitNotANumber | UnknownOption(arg: string)

  /** The option loop from position `i` on, with the options read so far. */
  function ParseArgsFrom(args: seq<string>, i: nat, opts: Options): Result<Options, UsageError>
    requires i <= |args|
    decreases |args| - i
  {
    if i == |args| then Ok(opts)
    else if args[i] == "--limit" && i + 1 < |args| then
      match PyInt(args[i + 1])
      case None => Err(LimitNotANumber)
      case Some(n) => ParseArgsFrom(args, i + 2, opts.(limit := Some(n)))
    else if args[i] == "--allow-duplicates" then ParseArgsFrom(args, i + 1, opts.(skipExisting := false))
    else Err(UnknownOption(args[i]))
  }

  const Defaults: Options := Options(None, true)

  function ParseArgs(args: seq<string>): Result<Options, UsageError> {
    ParseArgsFrom(args, 0, Defaults)
  }

  /**
   * No option: no limit, and videos already processed are skipped;
   * `--allow-duplicates` turns the skipping off.
   */
  lemma ParseArgsDefaults()
    ensures ParseArgs([]) == Ok(Options(None, true))
    ensures ParseArgs(["--allow-duplicates"]) == Ok(Options(None, false))
  {
    var a := ["--allow-duplicates"];
    assert a[0] != "--limit" by { assert a[0][2] != "--limit"[2]; }
  }

  /** `--limit N` sets the limit to the number `N` spells. */
  lemma ParseArgsSetsLimit(n: int)
    ensures ParseArgs(["--limit", ShowInt(n)]) == Ok(Options(Some(n), true))
  {
    PyIntShowInt(n);
    var a := ["--limit", ShowInt(n)];
    assert a[0] == "--limit" && PyInt(a[1]) == Some(n);
    assert ParseArgsFrom(a, 0, Defaults) == ParseArgsFrom(a, 2, Defaults.(limit := Some(n)));
    assert ParseArgsFrom(a, 2, Options(Some(n), true)) == Ok(Options(Some(n), true));
  }

  /** A `--limit` with nothing after it, and any other word, are usage errors. */
  lemma ParseArgsRejects(other: string)
    requires other != "--limit" && other != "--allow-duplicates"
    ensures ParseArgs(["--limit"]) == Err(UnknownOption("--limit"))
    ensures ParseArgs([other]) == Err(UnknownOption(other))
  {
    var a := ["--limit"];
    assert a[0] != "--allow-duplicates" by { assert a[0][2] != "--allow-duplicates"[2]; }
    var b := [other];
    assert b[0] == other;
  }

  /** A later `--limit` wins, and every limit that is set came from a number in the arguments. */
  lemma {:induction false} ParseArgsLimit(args: seq<string>, i: nat, opts: Options)
    requires i <= |args|
    requires ParseArgsFrom(args, i, opts).Ok?
    ensures var o := ParseArgsFrom(args, i, opts).value;
      o.limit != opts.limit ==> exists j :: i <= j < |args| - 1 && args[j] == "--limit" && PyInt(args[j + 1]) == o.limit
    ensures ParseArgsFrom(args, i, opts).value.skipExisting ==> opts.skipExisting
    decreases |args| - i
  {
    if i < |args| {
      if args[i] == "--limit" && i + 1 < |args| {
        var n := PyInt(args[i + 1]).value;
        ParseArgsLimit(args, i + 2, opts.(limit := Some(n)));
      } else {
        ParseArgsLimit(args, i + 1, opts.(skipExisting := false));
      }
    }
  }

  /** The `while i < len(args)` loop of `main`. */
  method ReadOptions(args: seq<string>) returns (r: Result<Options, UsageError>)
    ensures r == ParseArgs(args)
  {
    var limit: Option<int> := None;
    var skipExisting := true;
    var i := 0;
    while i < |args|
      invariant 0 <= i <= |args|
      invariant ParseArgs(args) == ParseArgsFrom(args, i, Options(limit, skipExisting))
      decreases |args| - i
    {
      ghost var opts := Options(limit, skipExisting);
      if args[i] == "--limit" && i + 1 < |args| {
        var n := PyInt(args[i + 1]);
        if n.None? {
          return Err(LimitNotANumber);
        }
        assert ParseArgsFrom(args, i, opts) == ParseArgsFrom(args, i + 2, opts.(limit := n));
        limit := n;
        i := i + 2;
      } else if args[i] == "--allow-duplicates" {
        assert ParseArgsFrom(args, i, opts) == ParseArgsFrom(args, i + 1, opts.(skipExisting := false));
        skipExisting := false;
        i := i + 1;
      } else {
        return Err(UnknownOption(args[i]));
      }
    }
    return Ok(Options(limit, skipExisting));
  }

  // ---------------------------------------------------------------- main

  datatype Counts = Counts(success: nat, skipped: nat, failed: nat)

  datatype Outcome = BadUsage(UsageError) | NoVideos | NoClient | Done(counts: Counts)

  /** Whether a video is skipped: skipping is on and a pack loaded at start already names it. */
  function Skips(skipExisting: bool, existing: seq<Pack>): string -> bool {
    (u: string) => skipExisting && AlreadyProcessed(u, existing)
  }

  /**
   * Whether a video of the run ends as a success: it is not skipped, it
   * yields a plan, and neither `create_pack` nor `add_tracks_to_pack` raises.
   */
  predicate Publishes(u: string, skipExisting: bool, existing: seq<Pack>, search: string -> Spotify.SearchAnswer,
                      pages: string -> Option<string>, titles: string -> Option<string>,
                      createFaults: string -> Fault, addFaults: string -> Fault)
  {
    !(skipExisting && AlreadyProcessed(u, existing))
    && var plan := PlanFor(u, pages(u), titles(u), search);
    plan.Some? && !createFaults(u).Raises(0) && !Publish.FillFails(plan.value.batch, addFaults(u))
  }

  function Succeeds(skipExisting: bool, existing: seq<Pack>, search: string -> Spotify.SearchAnswer,
                    pages: string -> Option<string>, titles: string -> Option<string>,
                    createFaults: string -> Fault, addFaults: string -> Fault): string -> bool
  {
    (u: string) => Publishes(u, skipExisting, existing, search, pages, titles, createFaults, addFaults)
  }

  /**
   * `main`: read the options, load the packs, list the channel's videos,
   * connect to Spotify, and process each video not already processed, each
   * one ending as a success, a skip or a failure. The packs are loaded once,
   * so a video listed twice is processed twice.
   */
  method ScrapeMain(db: Database, args: seq<string>, existing: seq<Pack>, channel: Youtube.ChannelPage,
                    client: Result<Spotify.SpotifyClient, Spotify.ConfigError>,
                    pages: string -> Option<string>, titles: string -> Option<string>, now: int,
                    createFaults: string -> Fault, addFaults: string -> Fault)
    returns (r: Outcome)
    requires db.Valid() && db.snapshot.None?
    requires forall p :: p in existing <==> p in db.packs.Values
    modifies db
    ensures db.Valid() && db.snapshot.None?
    ensures ParseArgs(args).Err? <==> r.BadUsage?
    ensures r.Done? ==>
      var urls := Youtube.ChannelVideos(channel, ParseArgs(args).value.limit);
      r.counts.success + r.counts.skipped + r.counts.failed == |urls|
      && r.counts.skipped == CountWhere(urls, Skips(ParseArgs(args).value.skipExisting, existing))
      && client.Ok?
      && r.counts.success == CountWhere(urls, Succeeds(ParseArgs(args).value.skipExisting, existing, client.value.search,
                                                       pages, titles, createFaults, addFaults))
    ensures ParseArgs(args).Ok? ==>
      var urls := Youtube.ChannelVideos(channel, ParseArgs(args).value.limit);
      (r.NoVideos? <==> urls == []) && (r.NoClient? <==> urls != [] && client.Err?)
    ensures !r.Done? ==> db.State() == old(db.State())
  {
    var opts := ReadOptions(args);
    if opts.Err? {
      return BadUsage(opts.error);
    }
    var skipExisting := opts.value.skipExisting;
    var urls := Youtube.ExtractChannelVideos(channel, opts.value.limit);
    if urls == [] {
      return NoVideos;
    }
    if client.Err? {
      return NoClient;
    }
    var success, skipped, failed := ProcessVideos(db, urls, skipExisting, existing, client.value, pages, titles, now,
                                                  createFaults, addFaults);
    return Done(Counts(success, skipped, failed));
  }

  /** The loop of `main` over the listed videos. */
  method ProcessVideos(db: Database, urls: seq<string>, skipExisting: bool, existing: seq<Pack>,
                       client: Spotify.SpotifyClient, pages: string -> Option<string>, titles: string -> Option<string>,
                       now: int, createFaults: string -> Fault, addFaults: string -> Fault)
    returns (success: nat, skipped: nat, failed: nat)
    requires db.Valid() && db.snapshot.None?
    modifies db
    ensures db.Valid() && db.snapshot.None?
    ensures success + skipped + failed == |urls| && skipped == CountWhere(urls, Skips(skipExisting, existing))
    ensures success == CountWhere(urls, Succeeds(skipExisting, existing, client.search, pages, titles, createFaults, addFaults))
  {
    ghost var succeeds := Succeeds(skipExisting, existing, client.search, pages, titles, createFaults, addFaults);
    success, skipped, failed := 0, 0, 0;
    for i := 0 to |urls|
      invariant db.Valid() && db.snapshot.None?
      invariant success + skipped + failed == i
      invariant skipped == CountWhere(urls[..i], Skips(skipExisting, existing))
      invariant success == CountWhere(urls[..i], succeeds)
    {
      CountWhereStep(urls, i, Skips(skipExisting, existing));
      CountWhereStep(urls, i, succeeds);
      var skip, ok := VisitVideo(db, urls[i], skipExisting, existing, client, pages, titles, now, createFaults, addFaults);
      if skip {
        skipped := skipped + 1;
      } else if ok {
        success := success + 1;
      } else {
        failed := failed + 1;
      }
    }
    TakeAll(urls);
  }

  /** The body of the loop: one video is skipped, or processed and then a success or a failure. */
  method VisitVideo(db: Database, url: string, skipExisting: bool, existing: seq<Pack>,
                    client: Spotify.SpotifyClient, pages: string -> Option<string>, titles: string -> Option<string>,
                    now: int, createFaults: string -> Fault, addFaults: string -> Fault)
    returns (skip: bool, ok: bool)
    requires db.Valid() && db.snapshot.None?
    modifies db
    ensures db.Valid() && db.snapshot.None?
    ensures skip == (skipExisting && AlreadyProcessed(url, existing)) && !(skip && ok)
    ensures ok == Publishes(url, skipExisting, existing, client.search, pages, titles, createFaults, addFaults)
  {
    if skipExisting && AlreadyProcessed(url, existing) {
      return true, false;
    }
    var r := ProcessVideo(db, url, pages(url), titles(url), client, now, createFaults(url), addFaults(url));
    ghost var plan := PlanFor(url, pages(url), titles(url), client.search);
    assert Publishes(url, skipExisting, existing, client.search, pages, titles, createFaults, addFaults)
      == (plan.Some? && !createFaults(url).Raises(0) && !Publish.FillFails(plan.value.batch, addFaults(url)));
    return false, r == Ok(true);
  }
}
