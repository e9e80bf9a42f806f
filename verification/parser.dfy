/**
 * The video-description parser: the "Track List:" section of a Track Star
 * description, read line by line as `Title - Artist`, and the guest name
 * taken from a "having ... on the" sentence. The two regular expressions are
 * written out as the leftmost match Python's `re.search` finds; case is
 * ignored for ASCII letters.
 */
module Parser {
  import opened Common
  import opened Text

  // ---------------------------------------------------------------- the header

  /** `s[j..j+|word|]` equals the lower-case `word`, ignoring ASCII case. */
  predicate WordAt(s: string, j: nat, word: string) {
    j + |word| <= |s| && Lower(s[j..j + |word|]) == word
  }

  /** End of the run of whitespace that starts at `q` (what a greedy `\s*` consumes). */
  function SpaceRunEnd(s: string, q: nat): (w: nat)
    requires q <= |s|
    ensures q <= w <= |s| && AllSpace(s[q..w]) && (w == |s| || !IsSpace(s[w]))
    decreases |s| - q
  {
    if q < |s| && IsSpace(s[q]) then
      var w := SpaceRunEnd(s, q + 1);
      assert s[q..w] == [s[q]] + s[q + 1..w];
      w
    else q
  }

  /** The last index in `[lo, hi)` holding a newline. */
  function LastNewline(s: string, lo: nat, hi: nat): (r: Option<nat>)
    requires lo <= hi <= |s|
    ensures r.Some? ==> (lo <= r.value < hi && s[r.value] == '\n'
                         && forall k :: r.value < k < hi ==> s[k] != '\n')
    ensures r.None? ==> forall k :: lo <= k < hi ==> s[k] != '\n'
    decreases hi - lo
  {
    if hi == lo then None
    else if s[hi - 1] == '\n' then Some(hi - 1)
    else LastNewline(s, lo, hi - 1)
  }

  /**
   * Where the captured group starts if `Track ?List:?\s*\n` matches at `c`:
   * the optional space and colon are taken when present, and `\s*\n` ends at
   * the last newline of the whitespace run that follows.
   */
  function HeaderAt(s: string, c: nat): (g: Option<nat>)
    ensures g.Some? ==> WordAt(s, c, "track") && c < g.value <= |s| && s[g.value - 1] == '\n'
  {
    if !WordAt(s, c, "track") then None
    else
      var p := if c + 5 < |s| && s[c + 5] == ' ' then c + 6 else c + 5;
      if !WordAt(s, p, "list") then None
      else
        var q := if p + 4 < |s| && s[p + 4] == ':' then p + 5 else p + 4;
        var w := SpaceRunEnd(s, q);
        match LastNewline(s, q, w)
        case None => None
        case Some(k) => Some(k + 1)
  }

  /** `(?:\n\n|$)` matches at `e`: a blank line, the end, or a final newline. */
  predicate SectionEndAt(s: string, e: nat) {
    OccursAt(s, "\n\n", e) || e == |s| || (e + 1 == |s| && s[e] == '\n')
  }

  /** Where the lazy `(.*?)` starting at `g` stops. */
  function SectionEnd(s: string, g: nat): (e: nat)
    requires g <= |s|
    ensures g <= e <= |s| && SectionEndAt(s, e)
    ensures forall k :: g <= k < e ==> !SectionEndAt(s, k)
    decreases |s| - g
  {
    if SectionEndAt(s, g) then g else SectionEnd(s, g + 1)
  }

  /** The leftmost position at or after `from` where the header matches. */
  function FindHeader(s: string, from: nat): (r: Option<nat>)
    ensures r.Some? ==> from <= r.value && HeaderAt(s, r.value).Some?
    ensures r.Some? ==> forall c :: from <= c < r.value ==> HeaderAt(s, c).None?
    ensures r.None? ==> forall c :: from <= c ==> HeaderAt(s, c).None?
    decreases |s| - from
  {
    if HeaderAt(s, from).Some? then Some(from)
    else if from >= |s| then
      assert forall c :: from <= c ==> HeaderAt(s, c).None? by {
        forall c | from <= c ensures HeaderAt(s, c).None? {
          assert !WordAt(s, c, "track");
        }
      }
      None
    else FindHeader(s, from + 1)
  }

  /**
   * `match.group(1)`: the text after the header line up to the first blank
   * line or the end. The optional "This Episode's " before "Track" never
   * moves the leftmost match, since that prefix holds no "track".
   */
  function TrackListSection(s: string): (r: Option<string>)
    ensures r.None? <==> forall c :: HeaderAt(s, c).None?
    ensures r.Some? ==> forall j :: !OccursAt(r.value, "\n\n", j)
  {
    match FindHeader(s, 0)
    case None => None
    case Some(c) =>
      var g := HeaderAt(s, c).value;
      var e := SectionEnd(s, g);
      SectionNoBlank(s, g);
      Some(s[g..e])
  }

  /** The section the lazy match takes holds no blank line. */
  lemma SectionNoBlank(s: string, g: nat)
    requires g <= |s|
    ensures forall j :: !OccursAt(s[g..SectionEnd(s, g)], "\n\n", j)
  {
    var e := SectionEnd(s, g);
    var sec := s[g..e];
    forall j: nat | OccursAt(sec, "\n\n", j) ensures false {
      assert s[g + j..g + j + 2] == sec[j..j + 2];
      assert SectionEndAt(s, g + j);
    }
  }

  // ---------------------------------------------------------------- the lines

  datatype ParsedTrack = ParsedTrack(title: string, artist: string, raw: string)

  datatype LineOutcome = Skipped | Unparsed(line: string) | Parsed(track: ParsedTrack)

  /** Lines that are headers or links rather than tracks. */
  predicate IsSkippable(line: string) {
    line == [] || StartsWith(line, "Watch more") || StartsWith(line, "http") || StartsWith(line, "#")
  }

  /**
   * One line of the section: stripped, skipped when empty or a header/link,
   * split at its first " - " into a stripped title and artist (the artist may
   * itself hold " - "), dropped silently when either is empty, and reported
   * when it has no " - " at all.
   */
  function ParseLine(line: string): (r: LineOutcome)
    ensures r.Parsed? ==> (!IsSkippable(Strip(line)) && r.track.raw == Strip(line)
                           && r.track.title != [] && r.track.artist != [])
    ensures r.Unparsed? <==> !IsSkippable(Strip(line)) && !Contains(Strip(line), " - ")
    ensures r.Unparsed? ==> r.line == Strip(line)
    ensures IsSkippable(Strip(line)) ==> r.Skipped?
  {
    var l := Strip(line);
    if IsSkippable(l) then Skipped
    else match SplitOnce(l, " - ")
      case None => Unparsed(l)
      case Some((a, b)) =>
        var title := Strip(a);
        var artist := Strip(b);
        if title == [] || artist == [] then Skipped
        else Parsed(ParsedTrack(title, artist, l))
  }

  /**
   * A parsed line is cut at its first " - ": the title is the stripped text
   * before it and the artist the stripped rest, which may hold " - " again.
   */
  lemma ParsedLineSplit(line: string)
    requires ParseLine(line).Parsed?
    ensures var l := Strip(line); var t := ParseLine(line).track;
      exists a, b :: l == a + " - " + b && !Contains(a, " - ") && t.title == Strip(a) && t.artist == Strip(b)
  {
    var l := Strip(line);
    var (a, b) := SplitOnce(l, " - ").value;
    assert l[..|a|] == a;
    forall j: nat | OccursAt(a, " - ", j) ensures false {
      OccursInPrefix(l, " - ", j, |a|);
    }
  }

  function TrackOf(o: LineOutcome): seq<ParsedTrack> {
    if o.Parsed? then [o.track] else []
  }

  function WarningOf(o: LineOutcome): seq<string> {
    if o.Unparsed? then [o.line] else []
  }

  /** The tracks of a sequence of lines, in line order. */
  function ParseLines(lines: seq<string>): (r: seq<ParsedTrack>)
    ensures |r| <= |lines|
    ensures forall t :: t in r ==> t.title != [] && t.artist != [] && IsStripped(t.raw)
    decreases |lines|
  {
    if lines == [] then []
    else
      var n := |lines| - 1;
      ParseLines(lines[..n]) + TrackOf(ParseLine(lines[n]))
  }

  /** The lines reported as unparsable, in line order. */
  function UnparsedLines(lines: seq<string>): (r: seq<string>)
    ensures |r| <= |lines|
    decreases |lines|
  {
    if lines == [] then []
    else
      var n := |lines| - 1;
      UnparsedLines(lines[..n]) + WarningOf(ParseLine(lines[n]))
  }

  /** Parsing two runs of lines one after the other gives their tracks one after the other. */
  lemma {:induction false} ParseLinesAppend(a: seq<string>, b: seq<string>)
    ensures ParseLines(a + b) == ParseLines(a) + ParseLines(b)
    decreases |b|
  {
    if b != [] {
      var n := |b| - 1;
      var o := TrackOf(ParseLine(b[n]));
      assert (a + b)[..|a + b| - 1] == a + b[..n] && (a + b)[|a + b| - 1] == b[n];
      assert ParseLines(a + b) == ParseLines(a + b[..n]) + o;
      ParseLinesAppend(a, b[..n]);
      assert ParseLines(b) == ParseLines(b[..n]) + o;
    } else {
      assert a + b == a;
    }
  }

  /** The lines of the section: `group.strip().split('\n')`. */
  function SectionLines(sec: string): seq<string> {
    Split(Strip(sec), '\n')
  }

  /** What `parse_track_list` returns. */
  function TrackListOf(description: string): seq<ParsedTrack> {
    match TrackListSection(description)
    case None => []
    case Some(sec) => ParseLines(SectionLines(sec))
  }

  lemma ParseStep(lines: seq<string>, i: nat)
    requires i < |lines|
    ensures ParseLines(lines[..i + 1]) == ParseLines(lines[..i]) + TrackOf(ParseLine(lines[i]))
    ensures UnparsedLines(lines[..i + 1]) == UnparsedLines(lines[..i]) + WarningOf(ParseLine(lines[i]))
  {
    assert lines[..i + 1][..i] == lines[..i];
  }

  /** `parse_track_list`: the loop over the section's lines. */
  method ParseTrackList(description: string) returns (tracks: seq<ParsedTrack>, unparsed: seq<string>)
    ensures TrackListSection(description).None? ==> tracks == [] && unparsed == []
    ensures tracks == TrackListOf(description)
    ensures TrackListSection(description).Some? ==>
      unparsed == UnparsedLines(SectionLines(TrackListSection(description).value))
  {
    tracks, unparsed := [], [];
    var section := TrackListSection(description);
    if section.None? {
      return;
    }
    tracks, unparsed := ParseSectionLines(SectionLines(section.value));
  }

  /** The loop of `parse_track_list` over the section's lines. */
  method ParseSectionLines(lines: seq<string>) returns (tracks: seq<ParsedTrack>, unparsed: seq<string>)
    ensures tracks == ParseLines(lines) && unparsed == UnparsedLines(lines)
  {
    tracks, unparsed := [], [];
    var i := 0;
    while i < |lines|
      invariant 0 <= i <= |lines|
      invariant tracks == ParseLines(lines[..i]) && unparsed == UnparsedLines(lines[..i])
    {
      ParseStep(lines, i);
      var outcome := ParseLine(lines[i]);
      tracks := tracks + TrackOf(outcome);
      unparsed := unparsed + WarningOf(outcome);
      i := i + 1;
    }
    assert lines[..i] == lines;
  }

  /** The first " - " of `title + " - " + artist` is the one between them when the title has no dash. */
  lemma SplitFormatted(title: string, artist: string)
    requires '-' !in title
    ensures SplitOnce(title + " - " + artist, " - ") == Some((title, artist))
  {
    var l := title + " - " + artist;
    var m := |title|;
    assert l[m..m + 3] == " - ";
    forall k: nat | k < m ensures !OccursAt(l, " - ", k) {
      if k + 3 <= |l| {
        assert l[k..k + 3][1] == l[k + 1];
        if k + 1 < m {
          assert l[k + 1] == title[k + 1];
        }
      }
    }
    IndexOfFirst(l, " - ", m);
    assert l[..m] == title && l[m + 3..] == artist;
  }

  lemma StrippedFormatted(title: string, artist: string)
    requires title != [] && artist != [] && IsStripped(title) && IsStripped(artist)
    ensures Strip(title + " - " + artist) == title + " - " + artist
  {
    var l := title + " - " + artist;
    assert l[0] == title[0] && l[|l| - 1] == artist[|artist| - 1];
    StripOfStripped(l);
  }

  /**
   * Formatting a title and an artist as a line and parsing it gives them back,
   * when the title holds no dash and the line does not look like a header.
   */
  lemma FormatThenParse(title: string, artist: string)
    requires title != [] && artist != [] && IsStripped(title) && IsStripped(artist)
    requires '-' !in title && !IsSkippable(title + " - " + artist)
    ensures ParseLine(title + " - " + artist) == Parsed(ParsedTrack(title, artist, title + " - " + artist))
  {
    StrippedFormatted(title, artist);
    SplitFormatted(title, artist);
    StripOfStripped(title);
    StripOfStripped(artist);
  }

  /** A line that starts with none of 'W', 'h' and '#' is no header or link. */
  lemma NotSkippable(line: string)
    requires line != [] && line[0] != 'W' && line[0] != 'h' && line[0] != '#'
    ensures !IsSkippable(line)
  {
    assert !StartsWith(line, "Watch more") by {
      if 10 <= |line| { assert line[0..10][0] == line[0]; }
    }
    assert !StartsWith(line, "http") by {
      if 4 <= |line| { assert line[0..4][0] == line[0]; }
    }
    assert line[0..1][0] == line[0];
  }

  /** A line without a dash has no " - " and is reported, unless it looks like a header. */
  lemma NoDashReported(line: string)
    requires IsStripped(line) && !IsSkippable(line) && '-' !in line
    ensures ParseLine(line) == Unparsed(line)
  {
    StripOfStripped(line);
    MissingChar(line, " - ", '-');
  }

  lemma ExampleTrackLine(title: string, artist: string)
    requires title != [] && artist != [] && IsStripped(title) && IsStripped(artist) && '-' !in title
    requires title[0] != 'W' && title[0] != 'h' && title[0] != '#'
    ensures ParseLine(title + " - " + artist) == Parsed(ParsedTrack(title, artist, title + " - " + artist))
  {
    NotSkippable(title + " - " + artist);
    FormatThenParse(title, artist);
  }

  /** Three lines parse to the outcomes of each line, in order. */
  lemma ParseThreeLines(x: string, y: string, z: string)
    ensures ParseLines([x, y, z]) == TrackOf(ParseLine(x)) + TrackOf(ParseLine(y)) + TrackOf(ParseLine(z))
    ensures UnparsedLines([x, y, z]) == WarningOf(ParseLine(x)) + WarningOf(ParseLine(y)) + WarningOf(ParseLine(z))
  {
    var lines := [x, y, z];
    assert lines[..2] == [x, y] && [x, y][..1] == [x] && [x][..0] == [];
    assert ParseLines([x]) == TrackOf(ParseLine(x)) by {
      assert ParseLines([x]) == ParseLines([]) + TrackOf(ParseLine(x));
    }
    assert UnparsedLines([x]) == WarningOf(ParseLine(x)) by {
      assert UnparsedLines([x]) == UnparsedLines([]) + WarningOf(ParseLine(x));
    }
  }

  lemma ExampleFirst()
    ensures ParseLine("Song A - Artist A") == Parsed(ParsedTrack("Song A", "Artist A", "Song A - Artist A"))
  {
    assert "Song A - Artist A" == "Song A" + " - " + "Artist A";
    ExampleTrackLine("Song A", "Artist A");
  }

  lemma ExampleBad()
    ensures ParseLine("badline") == Unparsed("badline")
  {
    NotSkippable("badline");
    NoDashReported("badline");
  }

  lemma ExampleLast()
    ensures ParseLine("Song B - Artist B") == Parsed(ParsedTrack("Song B", "Artist B", "Song B - Artist B"))
  {
    assert "Song B - Artist B" == "Song B" + " - " + "Artist B";
    ExampleTrackLine("Song B", "Artist B");
  }

  /** A bad line between two track lines leaves both tracks, in order. */
  lemma BadLineTracks(x: string, y: string, z: string, tx: ParsedTrack, tz: ParsedTrack)
    requires TrackOf(ParseLine(x)) == [tx] && TrackOf(ParseLine(y)) == [] && TrackOf(ParseLine(z)) == [tz]
    ensures ParseLines([x, y, z]) == [tx, tz]
  {
    ParseThreeLines(x, y, z);
    PairAround([tx], TrackOf(ParseLine(y)), [tz]);
  }

  /** A bad line between two track lines is the only one reported. */
  lemma BadLineReported(x: string, y: string, z: string)
    requires WarningOf(ParseLine(x)) == [] && WarningOf(ParseLine(y)) == [y] && WarningOf(ParseLine(z)) == []
    ensures UnparsedLines([x, y, z]) == [y]
  {
    ParseThreeLines(x, y, z);
    EmptyAround(WarningOf(ParseLine(x)), [y], WarningOf(ParseLine(z)));
  }

  lemma PairAround<T>(a: seq<T>, b: seq<T>, c: seq<T>)
    requires |a| == 1 && b == [] && |c| == 1
    ensures a + b + c == [a[0], c[0]]
  {
  }

  lemma EmptyAround<T>(a: seq<T>, b: seq<T>, c: seq<T>)
    requires a == [] && c == []
    ensures a + b + c == b
  {
  }

  /** Worked example: a section whose middle line has no " - " gives two tracks and reports the bad line. */
  lemma ExampleLines()
    ensures ParseLines(["Song A - Artist A", "badline", "Song B - Artist B"])
      == [ParsedTrack("Song A", "Artist A", "Song A - Artist A"), ParsedTrack("Song B", "Artist B", "Song B - Artist B")]
    ensures UnparsedLines(["Song A - Artist A", "badline", "Song B - Artist B"]) == ["badline"]
  {
    ExampleFirst();
    ExampleBad();
    ExampleLast();
    BadLineTracks("Song A - Artist A", "badline", "Song B - Artist B",
      ParsedTrack("Song A", "Artist A", "Song A - Artist A"), ParsedTrack("Song B", "Artist B", "Song B - Artist B"));
    BadLineReported("Song A - Artist A", "badline", "Song B - Artist B");
  }

  // ---------------------------------------------------------------- the guest

  predicate GuestExcluded(c: char) {
    c == '.' || c == '!' || c == '?' || c == '\n'
  }

  /** `(?:on the|tell us|discuss)` matches at `e`. */
  predicate GuestStopAt(s: string, e: nat) {
    WordAt(s, e, "on the") || WordAt(s, e, "tell us") || WordAt(s, e, "discuss")
  }

  /**
   * Where the lazy `[^\.!?\n]+?` stops when it has consumed up to `e`: the
   * first position from `e` on where a stop phrase starts, provided no
   * excluded character comes first.
   */
  function GuestEnd(s: string, e: nat): (r: Option<nat>)
    ensures r.Some? ==> (e <= r.value <= |s| && GuestStopAt(s, r.value)
                         && forall k :: e <= k < r.value ==> k < |s| && !GuestExcluded(s[k]) && !GuestStopAt(s, k))
    decreases |s| - e
  {
    if GuestStopAt(s, e) then Some(e)
    else if e < |s| && !GuestExcluded(s[e]) then GuestEnd(s, e + 1)
    else None
  }

  /** The group `having ([A-Z][^\.!?\n]+?)(?:...)` captures when it matches at `h`. */
  function GuestAt(s: string, h: nat): (r: Option<string>)
    ensures r.Some? ==> |r.value| >= 2 && IsLetter(r.value[0])
  {
    if WordAt(s, h, "having ") && h + 8 < |s| && IsLetter(s[h + 7]) && !GuestExcluded(s[h + 8]) then
      match GuestEnd(s, h + 9)
      case None => None
      case Some(e) => Some(s[h + 7..e])
    else None
  }

  /** `guest_pattern.search`: the group of the leftmost match at or after `from`. */
  function FindGuest(s: string, from: nat): (r: Option<string>)
    ensures r.None? ==> forall h :: from <= h ==> GuestAt(s, h).None?
    ensures r.Some? ==> exists h :: from <= h && GuestAt(s, h) == r
    decreases |s| - from
  {
    if GuestAt(s, from).Some? then GuestAt(s, from)
    else if from >= |s| then
      assert forall h :: from <= h ==> GuestAt(s, h).None? by {
        forall h | from <= h ensures GuestAt(s, h).None? {
          assert !WordAt(s, h, "having ");
        }
      }
      None
    else FindGuest(s, from + 1)
  }

  datatype EpisodeInfo = EpisodeInfo(guest: string)

  /**
   * `extract_episode_info`: the stripped guest name when the pattern
   * matches, and no record at all otherwise (never a record without a name).
   */
  function ExtractEpisodeInfo(description: string): (r: Option<EpisodeInfo>)
    ensures r.Some? <==> FindGuest(description, 0).Some?
    ensures r.Some? ==> (r.value.guest != [] && IsStripped(r.value.guest)
                         && r.value.guest == Strip(FindGuest(description, 0).value))
  {
    match FindGuest(description, 0)
    case None => None
    case Some(g) =>
      var name := Strip(g);
      assert name != [] by {
        assert !IsSpace(g[0]);
        assert AllSpace(g[..StripStart(g)]);
      }
      Some(EpisodeInfo(name))
  }
}
