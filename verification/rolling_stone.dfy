/**
 * The Rolling Stone scraper: each heading text on the list page is read as a
 * song by three patterns tried in order, the songs are capped by `--limit`,
 * searched on Spotify and saved as one pack. Selecting the heading elements
 * out of the HTML is not modelled: the page arrives as the texts of the
 * selected elements, or `None` when fetching it raised.
 *
 * The patterns are Python regular expressions matched at the start of the
 * text. Their backtracking order is written out: a lazy group tries lengths
 * from the shortest up (`FirstWhere`), a greedy `\s*` gives back characters
 * from the longest down (`LastWhere`), `.` matches anything but a line
 * break, `\s` matches a line break too.
 */
module RollingStone {
  import opened Common
  import opened Text
  import opened Db
  import Spotify
  import Publish

  datatype Song = Song(title: string, artist: string)

  predicate IsQuote(c: char) {
    c == '\'' || c == '"'
  }

  /** `[-–—]`: hyphen-minus, en dash, em dash. */
  predicate IsDash(c: char) {
    c == '-' || c == '\U{2013}' || c == '\U{2014}'
  }

  // ---------------------------------------------------------------- regex pieces

  /** Where the line starting at `i` ends: the first line break at or after `i`, or the end of the text. */
  function LineEnd(s: string, i: nat): (r: nat)
    requires i <= |s|
    ensures i <= r <= |s| && (r < |s| ==> s[r] == '\n') && forall j :: i <= j < r ==> s[j] != '\n'
    decreases |s| - i
  {
    if i == |s| || s[i] == '\n' then i else LineEnd(s, i + 1)
  }

  /** Where a greedy `\s*` starting at `i` stops. */
  function SpaceEnd(s: string, i: nat): (r: nat)
    requires i <= |s|
    ensures i <= r <= |s| && (r < |s| ==> !IsSpace(s[r])) && forall j :: i <= j < r ==> IsSpace(s[j])
    decreases |s| - i
  {
    if i == |s| || !IsSpace(s[i]) then i else SpaceEnd(s, i + 1)
  }

  function IsQuoteAt(s: string): nat -> bool {
    (j: nat) => j < |s| && IsQuote(s[j])
  }

  /** `(.+?)['"]` from `i`: the first quote after at least one character, on the same line. */
  function QuoteEnd(s: string, i: nat): Option<nat>
    requires i <= |s|
  {
    FirstWhere(IsQuoteAt(s), i + 1, LineEnd(s, i))
  }

  function StartsGroup(s: string): nat -> bool {
    (t: nat) => t < |s| && s[t] != '\n'
  }

  /** `\s*(.+)` from `i`: where the final group starts, the whitespace run giving back characters until one is left for `.+`. */
  function TailStart(s: string, i: nat): Option<nat>
    requires i <= |s|
  {
    LastWhere(StartsGroup(s), i, SpaceEnd(s, i) + 1)
  }

  /** What `.+` starting at `t` takes: the rest of that line. */
  function RestOfLine(s: string, t: nat): string
    requires t <= |s|
  {
    s[t..LineEnd(s, t)]
  }

  // ---------------------------------------------------------------- pattern 1: Artist, 'Title'

  /** `(.+?),\s*['"](.+?)['"]` matches with the first group `s[..k]`. */
  predicate CommaMatch(s: string, k: nat) {
    1 <= k < |s| && k <= LineEnd(s, 0) && s[k] == ','
    && var q := SpaceEnd(s, k + 1); q < |s| && IsQuote(s[q]) && QuoteEnd(s, q + 1).Some?
  }

  function CommaSong(s: string, k: nat): Song
    requires CommaMatch(s, k)
  {
    var q := SpaceEnd(s, k + 1);
    var e := QuoteEnd(s, q + 1).value;
    Song(Strip(s[q + 1..e]), Strip(s[..k]))
  }

  function CommaAt(s: string): nat -> bool {
    (k: nat) => CommaMatch(s, k)
  }

  function CommaForm(s: string): Option<Song> {
    match FirstWhere(CommaAt(s), 1, |s|)
    case None => None
    case Some(k) => Some(CommaSong(s, k))
  }

  // ---------------------------------------------------------------- pattern 2: 'Title' - Artist

  /** `.*?[-–—]\s*(.+)` matches from `p` with the dash at `j`. */
  predicate DashMatch(s: string, p: nat, j: nat) {
    p <= j < |s| && j < LineEnd(s, p) && IsDash(s[j]) && TailStart(s, j + 1).Some?
  }

  function DashAt(s: string, p: nat): nat -> bool {
    (j: nat) => DashMatch(s, p, j)
  }

  function FirstDash(s: string, p: nat): Option<nat>
    requires p <= |s|
  {
    FirstWhere(DashAt(s, p), p, |s|)
  }

  /** `['"](.+?)['"].*?[-–—]\s*(.+)` matches with the first group ending at `e`. */
  predicate QuotedMatch(s: string, e: nat) {
    2 <= e < |s| && IsQuote(s[0]) && e < LineEnd(s, 1) && IsQuote(s[e]) && FirstDash(s, e + 1).Some?
  }

  function QuotedSong(s: string, e: nat): Song
    requires QuotedMatch(s, e)
  {
    var j := FirstDash(s, e + 1).value;
    var t := TailStart(s, j + 1).value;
    Song(Strip(s[1..e]), Strip(RestOfLine(s, t)))
  }

  function QuotedAt(s: string): nat -> bool {
    (e: nat) => QuotedMatch(s, e)
  }

  function QuotedForm(s: string): Option<Song> {
    match FirstWhere(QuotedAt(s), 2, |s|)
    case None => None
    case Some(e) => Some(QuotedSong(s, e))
  }

  // ---------------------------------------------------------------- pattern 3: Artist - Title

  /** `(.+?)\s*[-–—]\s*(.+)` matches with the first group `s[..k]`. */
  predicate PlainMatch(s: string, k: nat) {
    1 <= k <= LineEnd(s, 0)
    && var r := SpaceEnd(s, k); r < |s| && IsDash(s[r]) && TailStart(s, r + 1).Some?
  }

  function PlainSong(s: string, k: nat): Song
    requires PlainMatch(s, k)
  {
    var r := SpaceEnd(s, k);
    var t := TailStart(s, r + 1).value;
    Song(Strip(RestOfLine(s, t)), Strip(s[..k]))
  }

  function PlainAt(s: string): nat -> bool {
    (k: nat) => PlainMatch(s, k)
  }

  function PlainForm(s: string): Option<Song> {
    match FirstWhere(PlainAt(s), 1, |s| + 1)
    case None => None
    case Some(k) => Some(PlainSong(s, k))
  }

  /** `re.match(r'^\d+$', title)` or `re.match(r'^\d{4}', title)` on a stripped title. */
  predicate NumericTitle(title: string) {
    (title != [] && AllDigits(title)) || (|title| >= 4 && AllDigits(title[..4]))
  }

  // ---------------------------------------------------------------- one element

  /**
   * The song one heading text gives: the first pattern that matches decides;
   * the third applies only to texts under 200 characters and not to numeric
   * titles.
   */
  function Classify(text: string): Option<Song> {
    var comma := CommaForm(text);
    if comma.Some? then comma
    else
      var quoted := QuotedForm(text);
      if quoted.Some? then quoted
      else if |text| < 200 then
        var plain := PlainForm(text);
        if plain.Some? && !NumericTitle(plain.value.title) then plain else None
      else None
  }

  /** A text the comma form matches is read by it, at its first match. */
  lemma ClassifyComma(text: string, k: nat)
    requires CommaMatch(text, k) && forall k': nat :: 1 <= k' < k ==> !CommaMatch(text, k')
    ensures Classify(text) == Some(CommaSong(text, k))
  {
    FirstWhereIs(CommaAt(text), 1, |text|, k);
  }

  /** A text only the quoted form matches is read by it, at its first match. */
  lemma ClassifyQuoted(text: string, e: nat)
    requires forall k: nat :: !CommaMatch(text, k)
    requires QuotedMatch(text, e) && forall e': nat :: 2 <= e' < e ==> !QuotedMatch(text, e')
    ensures Classify(text) == Some(QuotedSong(text, e))
  {
    NoComma(text);
    FirstWhereIs(QuotedAt(text), 2, |text|, e);
  }

  /**
   * A text neither of the first two forms matches is read by the plain form
   * only when it is under 200 characters and the title is not numeric.
   */
  lemma ClassifyPlain(text: string, k: nat)
    requires forall k: nat :: !CommaMatch(text, k)
    requires forall e: nat :: !QuotedMatch(text, e)
    requires PlainMatch(text, k) && forall k': nat :: 1 <= k' < k ==> !PlainMatch(text, k')
    ensures Classify(text) == if |text| < 200 && !NumericTitle(PlainSong(text, k).title) then Some(PlainSong(text, k)) else None
  {
    NoComma(text);
    NoQuoted(text);
    PlainFirst(text, k);
  }

  lemma PlainFirst(text: string, k: nat)
    requires PlainMatch(text, k) && forall k': nat :: 1 <= k' < k ==> !PlainMatch(text, k')
    ensures PlainForm(text) == Some(PlainSong(text, k))
  {
    PlainFirstWhere(text, k);
  }

  lemma PlainFirstWhere(text: string, k: nat)
    requires PlainMatch(text, k) && forall k': nat :: 1 <= k' < k ==> !PlainMatch(text, k')
    ensures FirstWhere(PlainAt(text), 1, |text| + 1) == Some(k)
  {
    forall j: nat | 1 <= j < k ensures !PlainAt(text)(j) {
      assert !PlainMatch(text, j);
    }
    assert PlainAt(text)(k);
    FirstWhereIs(PlainAt(text), 1, |text| + 1, k);
  }

  /** A text no form matches gives no song. */
  lemma ClassifyNone(text: string)
    requires forall k: nat :: !CommaMatch(text, k)
    requires forall e: nat :: !QuotedMatch(text, e)
    requires forall k: nat :: !PlainMatch(text, k)
    ensures Classify(text).None?
  {
    NoComma(text);
    NoQuoted(text);
    forall k: nat ensures !PlainAt(text)(k) {
    }
  }

  const JayZ: string := "Jay-Z - Song"

  /**
   * The plain form's first group is lazy, so a hyphen inside the artist's
   * name splits there: "Jay-Z - Song" is read as artist "Jay", title "Z - Song".
   */
  lemma HyphenatedArtist()
    ensures Classify(JayZ) == Some(Song("Z - Song", "Jay"))
  {
    JayZNoComma();
    JayZNoQuoted();
    JayZPlain();
    ClassifyPlain(JayZ, 3);
  }

  lemma JayZNoComma()
    ensures forall k: nat :: !CommaMatch(JayZ, k)
  {
    forall k: nat ensures !CommaMatch(JayZ, k) {
      if 1 <= k < |JayZ| { assert JayZ[k] != ','; }
    }
  }

  lemma JayZNoQuoted()
    ensures forall e: nat :: !QuotedMatch(JayZ, e)
  {
    assert !IsQuote(JayZ[0]);
  }

  lemma JayZPlain()
    ensures PlainMatch(JayZ, 3) && forall k': nat :: 1 <= k' < 3 ==> !PlainMatch(JayZ, k')
    ensures PlainSong(JayZ, 3) == Song("Z - Song", "Jay")
    ensures !NumericTitle("Z - Song")
  {
    JayZMatch();
    JayZSong();
    assert "Z - Song"[0] == 'Z';
    NotNumeric("Z - Song");
  }

  /** A title that does not start with a digit is kept. */
  lemma NotNumeric(title: string)
    requires title != [] && !IsDigit(title[0])
    ensures !NumericTitle(title)
  {
    if |title| >= 4 {
      assert title[..4][0] == title[0];
    }
  }

  lemma JayZMatch()
    ensures PlainMatch(JayZ, 3) && forall k': nat :: 1 <= k' < 3 ==> !PlainMatch(JayZ, k')
  {
    JayZLines();
    assert SpaceEnd(JayZ, 1) == 1 && SpaceEnd(JayZ, 2) == 2 && SpaceEnd(JayZ, 3) == 3;
    JayZTail();
  }

  lemma JayZSong()
    requires PlainMatch(JayZ, 3)
    ensures PlainSong(JayZ, 3) == Song("Z - Song", "Jay")
  {
    JayZLines();
    assert SpaceEnd(JayZ, 3) == 3;
    JayZTail();
    JayZStripped();
  }

  lemma JayZLines()
    ensures LineEnd(JayZ, 0) == 12 && LineEnd(JayZ, 4) == 12
  {
    assert forall j :: 0 <= j < |JayZ| ==> JayZ[j] != '\n';
  }

  lemma JayZTail()
    ensures TailStart(JayZ, 4) == Some(4)
  {
    assert SpaceEnd(JayZ, 4) == 4;
    assert StartsGroup(JayZ)(4);
  }

  lemma JayZStripped()
    ensures Strip(JayZ[4..12]) == "Z - Song" && Strip(JayZ[..3]) == "Jay"
  {
    JayZParts();
    StripOfStripped(JayZ[4..12]);
    StripOfStripped(JayZ[..3]);
  }

  lemma JayZParts()
    ensures JayZ[4..12] == "Z - Song" && JayZ[..3] == "Jay"
    ensures IsStripped(JayZ[4..12]) && IsStripped(JayZ[..3])
  {
    var title, artist := JayZ[4..12], JayZ[..3];
    assert title[0] == 'Z' && title[7] == 'g' && artist[0] == 'J' && artist[2] == 'y';
  }

  lemma NoComma(text: string)
    requires forall k: nat :: !CommaMatch(text, k)
    ensures CommaForm(text).None?
  {
    forall k: nat ensures !CommaAt(text)(k) {
    }
  }

  lemma NoQuoted(text: string)
    requires forall e: nat :: !QuotedMatch(text, e)
    ensures QuotedForm(text).None?
  {
    forall e: nat ensures !QuotedAt(text)(e) {
    }
  }

  // ---------------------------------------------------------------- the element loop

  /** What each element text gives. */
  function Readings(texts: seq<string>): (rs: seq<Option<Song>>)
    ensures |rs| == |texts| && forall i :: 0 <= i < |texts| ==> rs[i] == Classify(texts[i])
  {
    seq(|texts|, i requires 0 <= i < |texts| => Classify(texts[i]))
  }

  /** Every song the readings give, in page order. */
  function AllSongs(rs: seq<Option<Song>>): seq<Song>
    decreases |rs|
  {
    if rs == [] then []
    else (if rs[0].Some? then [rs[0].value] else []) + AllSongs(rs[1..])
  }

  /** The element loop, from the songs kept so far: it stops right after the song that reaches a truthy limit. */
  function SongsFrom(rs: seq<Option<Song>>, limit: Option<int>, acc: seq<Song>): seq<Song>
    decreases |rs|
  {
    if rs == [] then acc
    else match rs[0]
      case None => SongsFrom(rs[1..], limit, acc)
      case Some(song) =>
        var next := acc + [song];
        if LimitReached(limit, |next|) then next else SongsFrom(rs[1..], limit, next)
  }

  /** `scrape_rolling_stone_top_500`: a page that could not be fetched gives no song. */
  function Scraped(page: Option<seq<string>>, limit: Option<int>): seq<Song> {
    if page.None? then [] else SongsFrom(Readings(page.value), limit, [])
  }

  function Min(a: nat, b: nat): nat {
    if a < b then a else b
  }

  /** How many songs a truthy limit lets through: the check runs after each append, so a negative limit lets one through. */
  function Cap(limit: Option<int>, available: nat): nat {
    if limit.None? || limit.value == 0 then available
    else Min(available, if limit.value < 1 then 1 else limit.value)
  }

  /**
   * The loop keeps every song when the limit is missing or 0, and otherwise
   * the first `limit` songs.
   */
  lemma {:induction false} SongsFromCapped(rs: seq<Option<Song>>, limit: Option<int>, acc: seq<Song>)
    requires acc == [] || !LimitReached(limit, |acc|)
    ensures var all := acc + AllSongs(rs);
      SongsFrom(rs, limit, acc) == all[..Cap(limit, |all|)]
    decreases |rs|
  {
    var all := acc + AllSongs(rs);
    if rs == [] {
      assert all == acc;
    } else if rs[0].None? {
      SongsFromCapped(rs[1..], limit, acc);
    } else {
      var next := acc + [rs[0].value];
      assert all == next + AllSongs(rs[1..]);
      if LimitReached(limit, |next|) {
        assert all[..|next|] == next;
      } else {
        SongsFromCapped(rs[1..], limit, next);
      }
    }
  }

  /** The songs scraped are the first ones the page gives, as many as the limit lets through. */
  lemma ScrapedCapped(page: Option<seq<string>>, limit: Option<int>)
    ensures page.Some? ==> var all := AllSongs(Readings(page.value));
      Scraped(page, limit) == all[..Cap(limit, |all|)]
    ensures page.None? ==> Scraped(page, limit) == []
  {
    if page.Some? {
      SongsFromCapped(Readings(page.value), limit, []);
      assert [] + AllSongs(Readings(page.value)) == AllSongs(Readings(page.value));
    }
  }

  /** The loop over the element texts. */
  method ScrapeTop500(page: Option<seq<string>>, limit: Option<int>) returns (songs: seq<Song>)
    ensures songs == Scraped(page, limit)
  {
    if page.None? {
      return [];
    }
    var texts := page.value;
    ghost var rs := Readings(texts);
    songs := [];
    var i := 0;
    while i < |texts|
      invariant 0 <= i <= |texts|
      invariant SongsFrom(rs, limit, []) == SongsFrom(rs[i..], limit, songs)
      decreases |texts| - i
    {
      assert rs[i..][1..] == rs[i + 1..];
      var song := Classify(texts[i]);
      assert rs[i..][0] == song;
      if song.Some? {
        songs := songs + [song.value];
        if LimitReached(limit, |songs|) {
          return;
        }
      }
      i := i + 1;
    }
    assert rs[i..] == [];
  }

  // ---------------------------------------------------------------- main

  datatype UsageError = LimitNotANumber

  function IsArg(args: seq<string>, arg: string): nat -> bool {
    (j: nat) => j < |args| && args[j] == arg
  }

  /**
   * `--limit` anywhere in the arguments takes the value after its first
   * occurrence; a missing or non-numeric value is an error.
   */
  function LimitOption(argv: seq<string>): Result<Option<int>, UsageError> {
    match FirstWhere(IsArg(argv, "--limit"), 0, |argv|)
    case None => Ok(None)
    case Some(idx) =>
      if idx + 1 < |argv| && PyInt(argv[idx + 1]).Some? then Ok(PyInt(argv[idx + 1])) else Err(LimitNotANumber)
  }

  /** Without `--limit` there is no limit. */
  lemma LimitAbsent(argv: seq<string>)
    requires "--limit" !in argv
    ensures LimitOption(argv) == Ok(None)
  {
    forall j: nat ensures !IsArg(argv, "--limit")(j) {
      if j < |argv| { assert argv[j] in argv; }
    }
  }

  /** `--limit N` sets the limit to `N`. */
  lemma LimitGiven(argv: seq<string>, n: int)
    requires "--limit" !in argv
    ensures LimitOption(argv + ["--limit", ShowInt(n)]) == Ok(Some(n))
  {
    var a := argv + ["--limit", ShowInt(n)];
    forall j: nat | j < |argv| ensures !IsArg(a, "--limit")(j) {
      assert a[j] == argv[j] && argv[j] in argv;
    }
    FirstWhereIs(IsArg(a, "--limit"), 0, |a|, |argv|);
    PyIntShowInt(n);
    assert a[|argv| + 1] == ShowInt(n);
  }

  /** `--limit` with nothing after it is an error. */
  lemma LimitMissingValue(argv: seq<string>)
    requires "--limit" !in argv
    ensures LimitOption(argv + ["--limit"]).Err?
  {
    var b := argv + ["--limit"];
    forall j: nat | j < |argv| ensures !IsArg(b, "--limit")(j) {
      assert b[j] == argv[j] && argv[j] in argv;
    }
    FirstWhereIs(IsArg(b, "--limit"), 0, |b|, |argv|);
  }

  const FullName: string := "Rolling Stone's 500 Greatest Songs of All Time"
  const ListUrl: string := "https://www.rollingstone.com/music/music-lists/best-songs-of-all-time-1224767/"
  const PackDescription: string := "Songs from Rolling Stone's 500 Greatest Songs of All Time list\n\nSource: " + ListUrl

  /** With a truthy limit the pack is named after the number of songs scraped. */
  function PackName(limit: Option<int>, count: nat): string {
    if limit.Some? && limit.value != 0 then "Rolling Stone's Top " + ShowNat(count) + " Songs" else FullName
  }

  function Requests(songs: seq<Song>): (rs: seq<Spotify.TrackRequest>)
    ensures |rs| == |songs| && forall i :: 0 <= i < |songs| ==> rs[i] == Spotify.TrackRequest(Some(songs[i].title), Some(songs[i].artist))
  {
    seq(|songs|, i requires 0 <= i < |songs| => Spotify.TrackRequest(Some(songs[i].title), Some(songs[i].artist)))
  }

  datatype Outcome = BadUsage(UsageError) | NoSongs | NoClient | NoMatches | Failed(error: DbError)
                   | Created(packId: PackId, name: string, added: nat)

  /**
   * `main`: the limit, the songs, the Spotify search and the pack. The
   * client is connected after the songs are scraped, so missing credentials
   * show only then.
   */
  method RollingStoneMain(db: Database, argv: seq<string>, page: Option<seq<string>>,
                          connect: Result<Spotify.SpotifyClient, Spotify.ConfigError>,
                          now: int, createFault: Fault, addFault: Fault)
    returns (r: Outcome)
    requires db.Valid() && db.snapshot.None?
    modifies db
    ensures db.Valid() && db.snapshot.None?
    ensures r.BadUsage? <==> LimitOption(argv).Err?
    ensures LimitOption(argv).Ok? ==>
      var limit := LimitOption(argv).value;
      var songs := Scraped(page, limit);
      (r.NoSongs? <==> songs == [])
      && (r.NoClient? <==> songs != [] && connect.Err?)
      && (songs != [] && connect.Ok? ==>
            var found := Spotify.BatchResults(connect.value.search, Requests(songs));
            var batch := Publish.AsTrackIns(found);
            var name := PackName(limit, |songs|);
            (r.NoMatches? <==> found == [])
            && (r.Failed? <==> found != [] && (createFault.Raises(0) || Publish.FillFails(batch, addFault)))
            && (found != [] ==>
                  db.State() == Publish.Attempt(old(db.State()), name, Some(PackDescription), None, batch, now, createFault, addFault))
            && (r.Created? ==>
                  r.packId == old(db.State()).nextPackId && r.name == name && r.added == |batch|
                  && db.State() == Publish.Published(old(db.State()), name, Some(PackDescription), None, batch, now)))
    ensures !r.Created? && !r.Failed? ==> db.State() == old(db.State())
  {
    var limit := LimitOption(argv);
    if limit.Err? {
      return BadUsage(limit.error);
    }
    var songs := ScrapeTop500(page, limit.value);
    if songs == [] {
      return NoSongs;
    }
    if connect.Err? {
      return NoClient;
    }
    var found := connect.value.SearchTracksBatch(Requests(songs));
    if found == [] {
      return NoMatches;
    }
    var name := PackName(limit.value, |songs|);
    var published := Publish.CreateAndFill(db, name, Some(PackDescription), None, Publish.AsTrackIns(found), now, createFault, addFault);
    if published.Err? {
      return Failed(published.error);
    }
    return Created(published.value.0, name, published.value.1);
  }
}
