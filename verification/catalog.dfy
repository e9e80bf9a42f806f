/**
 * What the pack-generating scripts read back from the database:
 * `get_all_packs` (ID and name of each pack) and `get_pack_tracks` (the
 * track dicts of one pack), and their search for the source pack.
 */
module Catalog {
  import opened Common
  import opened Text
  import opened Db

  /** The dicts `get_pack_tracks` returns, as written: no `primary_genre` key among them. */
  function ListedAsWritten(rows: seq<TrackRow>): (ts: seq<TrackIn>)
    ensures |ts| == |rows|
  {
    seq(|rows|, i requires 0 <= i < |rows| =>
      TrackIn(rows[i].spotifyId, rows[i].title, rows[i].artist, rows[i].albumName, rows[i].releaseYear,
              None, rows[i].genres, None, None))
  }

  /** The listing with the row's `primary_genre` selected as well. */
  function Listed(rows: seq<TrackRow>): (ts: seq<TrackIn>)
    ensures |ts| == |rows|
  {
    seq(|rows|, i requires 0 <= i < |rows| =>
      TrackIn(rows[i].spotifyId, rows[i].title, rows[i].artist, rows[i].albumName, rows[i].releaseYear,
              rows[i].primaryGenre, rows[i].genres, None, None))
  }

  datatype PackListing = PackListing(id: PackId, name: string)

  const SourceMarker := "Every Track Star"

  function NamedSource(packs: seq<PackListing>): nat -> bool {
    (i: nat) => i < |packs| && Contains(packs[i].name, SourceMarker)
  }

  /** The position of the first pack whose name contains the marker. */
  function SourceIndex(packs: seq<PackListing>): Option<nat> {
    FirstWhere(NamedSource(packs), 0, |packs|)
  }

  /** The search loop, which stops at the first match. */
  method FindSourcePack(packs: seq<PackListing>) returns (r: Option<nat>)
    ensures r.Some? ==> (r.value < |packs| && Contains(packs[r.value].name, SourceMarker)
      && forall j :: 0 <= j < r.value ==> !Contains(packs[j].name, SourceMarker))
    ensures r.None? ==> forall j :: 0 <= j < |packs| ==> !Contains(packs[j].name, SourceMarker)
    ensures r == SourceIndex(packs)
  {
    var i := 0;
    while i < |packs|
      invariant i <= |packs|
      invariant forall j :: 0 <= j < i ==> !Contains(packs[j].name, SourceMarker)
    {
      if Contains(packs[i].name, SourceMarker) {
        forall j: nat | j < i ensures !NamedSource(packs)(j) {
          assert !Contains(packs[j].name, SourceMarker);
        }
        assert NamedSource(packs)(i);
        FirstWhereIs(NamedSource(packs), 0, |packs|, i);
        return Some(i);
      }
      i := i + 1;
    }
    forall j: nat ensures !NamedSource(packs)(j) {
      if j < |packs| {
        assert !Contains(packs[j].name, SourceMarker);
      }
    }
    return None;
  }

}
