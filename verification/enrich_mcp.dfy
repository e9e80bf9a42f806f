/**
 * Year and genre extraction of the MCP enrichment script. The catalog's
 * `artist` call is an oracle: what it answers for an artist ID.
 */
module EnrichMcp {
  import opened Common
  import opened Text

  /**
   * One `sp.artist(id)` call: it raises, or it returns a record whose
   * `genres` key may be absent (`None` here).
   */
  datatype ArtistAnswer = Raised | Artist(genres: Option<seq<string>>)

  /** `get_artist_genres`: the artist's genres, `[]` when the key is absent or the call fails. */
  function GetArtistGenres(lookup: string -> ArtistAnswer, artistId: string): (r: seq<string>)
    ensures lookup(artistId).Raised? ==> r == []
    ensures lookup(artistId).Artist? ==> r == lookup(artistId).genres.GetOr([])
  {
    match lookup(artistId)
    case Raised => []
    case Artist(g) => g.GetOr([])
  }

  /** `release_date.split('-')[0]`: the text before the first '-'. */
  function YearText(date: string): (t: string)
    ensures '-' !in t
    ensures exists rest :: date == t + rest && (rest == [] || rest[0] == '-')
  {
    var parts := Split(date, '-');
    JoinSplit(date, '-');
    SplitHead(parts, '-');
    parts[0]
  }

  /** A join starts with its first piece, followed by nothing or the separator. */
  lemma SplitHead(parts: seq<string>, c: char)
    requires |parts| >= 1
    ensures exists rest :: Join(parts, [c]) == parts[0] + rest && (rest == [] || rest[0] == c)
  {
    if |parts| == 1 {
      assert Join(parts, [c]) == parts[0] + [];
    } else {
      var rest := [c] + Join(parts[1..], [c]);
      assert Join(parts, [c]) == parts[0] + rest;
    }
  }

  /**
   * `extract_year`: `None` for a missing or empty date, otherwise the integer
   * before the first '-', kept only inside 1900..2100; an unreadable prefix
   * gives `None` instead of raising.
   */
  function ExtractYear(releaseDate: Option<string>): (r: Option<int>)
    ensures releaseDate.None? || releaseDate == Some([]) ==> r.None?
    ensures r.Some? ==> 1900 <= r.value <= 2100
    ensures r.Some? ==> PyInt(YearText(releaseDate.value)) == r
    ensures releaseDate.Some? && releaseDate.value != [] && PyInt(YearText(releaseDate.value)).None? ==> r.None?
  {
    if releaseDate.None? || releaseDate.value == [] then None
    else
      match PyInt(YearText(releaseDate.value))
      case None => None
      case Some(y) => if 1900 <= y <= 2100 then Some(y) else None
  }

  /** A date that starts with a year in the window, then '-', gives that year. */
  lemma ExtractYearOfDate(year: nat, rest: string)
    requires 1900 <= year <= 2100
    ensures ExtractYear(Some(ShowNat(year) + "-" + rest)) == Some(year)
  {
    var d := ShowNat(year) + "-" + rest;
    assert d == ShowNat(year) + ['-'] + rest;
    FirstPiece(ShowNat(year), '-', rest);
    YearTextIsFirstPiece(d);
    PyIntShowNat(year);
  }

  lemma YearTextIsFirstPiece(date: string)
    ensures YearText(date) == Split(date, '-')[0]
  {
  }

  /** A year outside 1900..2100 is dropped. */
  lemma ExtractYearOutside(year: nat, rest: string)
    requires year < 1900 || year > 2100
    ensures ExtractYear(Some(ShowNat(year) + "-" + rest)) == None
  {
    var d := ShowNat(year) + "-" + rest;
    assert d == ShowNat(year) + ['-'] + rest;
    FirstPiece(ShowNat(year), '-', rest);
    YearTextIsFirstPiece(d);
    PyIntShowNat(year);
  }

  /**
   * `get_primary_genre`: `None` for no artists; otherwise only the first
   * artist is asked, and its first genre, if any, is the answer.
   */
  function GetPrimaryGenre(lookup: string -> ArtistAnswer, artistIds: seq<string>): (r: Option<string>)
    ensures artistIds == [] ==> r.None?
    ensures artistIds != [] ==> (r.None? <==> GetArtistGenres(lookup, artistIds[0]) == [])
    ensures r.Some? ==> r.value == GetArtistGenres(lookup, artistIds[0])[0]
  {
    if artistIds == [] then None
    else
      var genres := GetArtistGenres(lookup, artistIds[0]);
      if genres != [] then Some(genres[0]) else None
  }

  /** Only the first artist is looked up: two catalogs that agree on it give the same genre. */
  lemma PrimaryGenreFirstOnly(a: string -> ArtistAnswer, b: string -> ArtistAnswer, artistIds: seq<string>)
    requires artistIds != [] && a(artistIds[0]) == b(artistIds[0])
    ensures GetPrimaryGenre(a, artistIds) == GetPrimaryGenre(b, artistIds)
  {
  }

  /** A failing catalog gives no genre at all. */
  lemma PrimaryGenreOnFailure(lookup: string -> ArtistAnswer, artistIds: seq<string>)
    requires artistIds != [] && lookup(artistIds[0]).Raised?
    ensures GetPrimaryGenre(lookup, artistIds).None?
  {
  }
}
