/**
 * The artist enrichment CSV that the fetch phase writes and the
 * deduplication and apply phases read back: nine text cells per row.
 */
module EnrichmentCsv {

  /** One CSV row, every cell as the text `csv.DictReader` yields. */
  datatype EnrichmentRow = EnrichmentRow(
    artistId: string,
    dbName: string,
    spotifyArtistId: string,
    matchedName: string,
    genres: string,
    followers: string,
    imageUrl: string,
    popularity: string,
    matchType: string)

  const Exact: string := "exact"
  const Fuzzy: string := "fuzzy"
}
