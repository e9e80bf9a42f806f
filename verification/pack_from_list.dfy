/**
 * The song-file reader of `create_pack_from_list.py`: one song per line,
 * written "Title - Artist". The file is given as its sequence of lines;
 * a line keeps its 1-based number whether or not it yields a song.
 */
module PackFromList {
  import opened Text
  import Parser

  datatype Song = Song(title: string, artist: string, line: nat)

  /** The two warnings the reader prints. */
  datatype Warning = EmptyField(line: nat) | NoSeparator(line: nat, text: string)

  datatype LineOutcome = Ignored | Accepted(song: Song) | Warned(warning: Warning)

  /** Blank lines and comments. */
  predicate IsIgnored(line: string) {
    line == [] || StartsWith(line, "#")
  }

  /**
   * Line number `num`: stripped; ignored when blank or a comment; split at
   * its first " - " into a stripped title and artist; a warning when either
   * is empty or when there is no " - " at all.
   */
  function ParseLine(line: string, num: nat): (r: LineOutcome)
    ensures r.Ignored? <==> IsIgnored(Strip(line))
    ensures r.Accepted? ==> (r.song.line == num && r.song.title != [] && r.song.artist != []
                             && IsStripped(r.song.title) && IsStripped(r.song.artist))
    ensures r.Warned? ==> r.warning.line == num
    ensures (r.Warned? && r.warning.NoSeparator?) <==> !IsIgnored(Strip(line)) && !Contains(Strip(line), " - ")
    ensures r.Warned? && r.warning.NoSeparator? ==> r.warning.text == Strip(line)
  {
    var l := Strip(line);
    if IsIgnored(l) then Ignored
    else match SplitOnce(l, " - ")
      case None => Warned(NoSeparator(num, l))
      case Some((a, b)) =>
        var title := Strip(a);
        var artist := Strip(b);
        if title == [] || artist == [] then Warned(EmptyField(num))
        else Accepted(Song(title, artist, num))
  }

  /**
   * An accepted line is cut at its first " - ": the title is the stripped
   * text before it and the artist the stripped rest, which may hold " - "
   * again.
   */
  lemma AcceptedSplit(line: string, num: nat)
    requires ParseLine(line, num).Accepted?
    ensures var l := Strip(line); var s := ParseLine(line, num).song;
      exists a, b :: l == a + " - " + b && !Contains(a, " - ") && s.title == Strip(a) && s.artist == Strip(b)
  {
    var l := Strip(line);
    var (a, b) := SplitOnce(l, " - ").value;
    assert l[..|a|] == a;
    forall j: nat | OccursAt(a, " - ", j) ensures false {
      OccursInPrefix(l, " - ", j, |a|);
    }
  }

  /** A line whose title does not start with '#' is no comment. */
  lemma FormattedNotIgnored(title: string, artist: string)
    requires title != [] && title[0] != '#'
    ensures !IsIgnored(title + " - " + artist)
  {
    var l := title + " - " + artist;
    assert l[0] == title[0];
    assert l[0..1][0] == l[0];
  }

  /**
   * A line written as "Title - Artist" reads back as that song, with its
   * line number, when the title holds no dash and the line is no comment.
   */
  lemma ParseFormatted(title: string, artist: string, num: nat)
    requires title != [] && artist != [] && IsStripped(title) && IsStripped(artist)
    requires '-' !in title && !IsIgnored(title + " - " + artist)
    ensures ParseLine(title + " - " + artist, num) == Accepted(Song(title, artist, num))
  {
    Parser.StrippedFormatted(title, artist);
    Parser.SplitFormatted(title, artist);
    StripOfStripped(title);
    StripOfStripped(artist);
  }

  function SongOf(o: LineOutcome): seq<Song> {
    if o.Accepted? then [o.song] else []
  }

  function WarningOf(o: LineOutcome): seq<Warning> {
    if o.Warned? then [o.warning] else []
  }

  /** The songs of the file, in line order; the line at index `i` is line `i + 1`. */
  function Songs(lines: seq<string>): (r: seq<Song>)
    ensures |r| <= |lines|
    decreases |lines|
  {
    if lines == [] then []
    else
      var n := |lines| - 1;
      Songs(lines[..n]) + SongOf(ParseLine(lines[n], n + 1))
  }

  /** The warnings printed, in line order. */
  function Warnings(lines: seq<string>): (r: seq<Warning>)
    ensures |r| <= |lines|
    decreases |lines|
  {
    if lines == [] then []
    else
      var n := |lines| - 1;
      Warnings(lines[..n]) + WarningOf(ParseLine(lines[n], n + 1))
  }

  /** Every song comes from the physical line it names, and has a non-empty title and artist. */
  lemma {:induction false} SongsSound(lines: seq<string>)
    ensures forall s :: s in Songs(lines) ==>
      1 <= s.line <= |lines| && ParseLine(lines[s.line - 1], s.line) == Accepted(s) && s.title != [] && s.artist != []
    decreases |lines|
  {
    if lines != [] {
      var n := |lines| - 1;
      var before := lines[..n];
      var o := ParseLine(lines[n], n + 1);
      SongsSound(before);
      assert Songs(lines) == Songs(before) + SongOf(o);
      forall s | s in Songs(lines)
        ensures 1 <= s.line <= |lines| && ParseLine(lines[s.line - 1], s.line) == Accepted(s) && s.title != [] && s.artist != []
      {
        if s in Songs(before) {
          assert lines[s.line - 1] == before[s.line - 1];
        } else {
          assert s == o.song && s.line == n + 1;
        }
      }
    }
  }

  /** The songs follow the file's order. */
  lemma {:induction false} SongsOrdered(lines: seq<string>)
    ensures forall i, j :: 0 <= i < j < |Songs(lines)| ==> Songs(lines)[i].line < Songs(lines)[j].line
    decreases |lines|
  {
    if lines != [] {
      var n := |lines| - 1;
      var before := lines[..n];
      var o := ParseLine(lines[n], n + 1);
      SongsOrdered(before);
      SongsSound(before);
      var ss := Songs(lines);
      assert ss == Songs(before) + SongOf(o);
      forall i, j | 0 <= i < j < |ss| ensures ss[i].line < ss[j].line {
        if j >= |Songs(before)| {
          assert ss[i] in Songs(before) && ss[j] == o.song;
        } else {
          assert ss[i] == Songs(before)[i] && ss[j] == Songs(before)[j];
        }
      }
    }
  }

  /** A line that reads as a song is in the result. */
  lemma {:induction false} SongsComplete(lines: seq<string>, i: nat)
    requires i < |lines| && ParseLine(lines[i], i + 1).Accepted?
    ensures ParseLine(lines[i], i + 1).song in Songs(lines)
    decreases |lines|
  {
    var n := |lines| - 1;
    if i < n {
      SongsComplete(lines[..n], i);
      assert lines[..n][i] == lines[i];
    } else {
      assert i == n;
    }
  }

  /** Every line gives at most one of a song and a warning. */
  lemma {:induction false} SongsAndWarnings(lines: seq<string>)
    ensures |Songs(lines)| + |Warnings(lines)| <= |lines|
    decreases |lines|
  {
    if lines != [] {
      SongsAndWarnings(lines[..|lines| - 1]);
    }
  }

  /** `parse_song_list_file`: the loop over the numbered lines. */
  method ParseSongListFile(lines: seq<string>) returns (songs: seq<Song>, warnings: seq<Warning>)
    ensures songs == Songs(lines) && warnings == Warnings(lines)
  {
    songs, warnings := [], [];
    for i := 0 to |lines|
      invariant songs == Songs(lines[..i]) && warnings == Warnings(lines[..i])
    {
      assert lines[..i + 1][..i] == lines[..i];
      var lineNum := i + 1;
      var l := Strip(lines[i]);
      if l == [] || StartsWith(l, "#") {
        continue;
      }
      match SplitOnce(l, " - ")
      case None =>
        warnings := warnings + [NoSeparator(lineNum, l)];
      case Some((a, b)) =>
        var title := Strip(a);
        var artist := Strip(b);
        if title != [] && artist != [] {
          songs := songs + [Song(title, artist, lineNum)];
        } else {
          warnings := warnings + [EmptyField(lineNum)];
        }
    }
    assert lines[..|lines|] == lines;
  }
}
