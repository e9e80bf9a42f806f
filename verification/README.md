# trackstargame batch scripts, modelled in Dafny

The trackstargame repository builds music-trivia "packs": named, tagged
lists of tracks kept in a PostgreSQL database. Batch scripts scrape track
lists from YouTube descriptions, Rolling Stone pages, Spotify playlists and
plain text files. They match songs against the Spotify catalog, upsert the
tracks, and link them to packs. Other scripts backfill and enrich track and
artist metadata. The last group generates decade/genre and thematic packs from
the catalog.

This project models the logic of those scripts and proves properties of it.

- The database is a `Database` class. Its state is a value of in-memory
  tables: `tracks` keyed by Spotify ID, `pack_tracks` keyed by (pack, track)
  and holding the position, `packs`, and `artists`.
- A transaction keeps a snapshot. Commit drops the snapshot and rollback
  restores it.
- A storage fault is an input, `Fault`, that names the statement which raises.
- Spotify, YouTube and HTTP calls are function-valued parameters (oracles).
  Printing, sleeping, prompts and file I/O are left out.
- Each script's loops are methods. Each method is proved against a function of
  its inputs, and lemmas about those functions state what the script promises.

Modules, one per source file, plus shared helpers:

| module | file |
|---|---|
| `Common`, `Text`, `Grouping`, `Sorting`, `Batching` | shared: options/results, string operations with Python's meaning, `defaultdict(list)` grouping, stable sorting, list chunking |
| `Db` | `scripts/utils/db.py` |
| `Parser` | `scripts/utils/parser.py` |
| `Spotify` | `scripts/utils/spotify.py` |
| `Youtube` | `scripts/utils/youtube.py` |
| `Publish`, `Catalog` | pack creation followed by `add_tracks_to_pack`, as several scripts do it; the pack listing |
| `Backfill` | `scripts/backfill_track_metadata.py` |
| `FetchMetadata` | `scripts/fetch_spotify_metadata.py` |
| `EnrichMcp` | `scripts/enrich_existing_tracks_mcp.py` |
| `Dedup` | `scripts/deduplicate_enrichment.py` |
| `EnrichmentCsv`, `ApplyEnrichment` | `scripts/apply_artist_enrichment.py` |
| `FetchArtist` | `scripts/fetch_artist_metadata.py` |
| `DecadeGenre` | `scripts/generate_decade_genre_packs.py` |
| `Thematic` | `scripts/generate_thematic_packs.py` |
| `PackFromList` | `scripts/create_pack_from_list.py` |
| `ScrapeChannel` | `scripts/scrape_channel.py` |
| `RollingStone` | `scripts/scrape_rolling_stone.py` |
| `EnrichExisting` | `scripts/enrich_existing_tracks.py` |

## Model

| member | source | states |
|---|---|---|
| `Db.Merge` | scripts/utils/db.py:111-121 | on a conflict, title and artist take the incoming values and `updated_at` becomes now; each of the six optional columns takes a non-null incoming value, and a NULL incoming value (`COALESCE`) keeps the stored value, so a stored value is never erased; the internal ID, the Spotify ID and the image URL are kept |
| `Db.MergeIdempotent` | scripts/utils/db.py:111-121 | merging the same incoming values a second time changes nothing more |
| `Db.MergeNewRow` | scripts/utils/db.py:109-121 | a freshly inserted row is already what a second upsert of the same entry produces |
| `Db.UpsertAllFrame` | scripts/utils/db.py:106-124 | after the upsert, the Spotify IDs with a row are those that had one plus those of the batch; rows outside the batch are unchanged; the ID counter never goes down; links, packs and artists are untouched |
| `Db.UpsertAllKeys` | scripts/utils/db.py:106-124 | the upsert adds exactly the batch's unseen Spotify IDs as rows and touches no other table |
| `Db.UpsertAllKeeps` | scripts/utils/db.py:106-124 | a row whose Spotify ID is not in the batch is left as it was |
| `Db.UpsertRow` | scripts/utils/db.py:106-124 | with distinct Spotify IDs, each batch entry ends with exactly one row: its stored row merged with the entry, or a new row built from the entry with an internal ID not used before |
| `Db.UpsertAllValid` | scripts/utils/db.py:106-124 | the upsert keeps the table invariant: rows keyed by their own Spotify ID, internal IDs unique and below the counter, links to existing IDs at positions of at least 1 |
| `Db.UpsertExisting` | scripts/utils/db.py:106-124 | upserting Spotify IDs that all have rows allocates no internal ID and keeps every row's internal ID |
| `Db.UpsertFixed` | scripts/utils/db.py:106-124 | upserting entries whose rows already equal the merge result leaves the tables unchanged |
| `Db.PagesDistinctIds` | scripts/utils/db.py:106-124 | distinct Spotify IDs pass every page of the upsert; a batch of at most 100 entries passes exactly when its IDs are distinct |
| `Db.PagesDistinctAppend` | scripts/utils/db.py:106-124 | a batch split after whole pages passes exactly when both parts pass, so a repeat across pages is accepted |
| `Db.AddTracksLinked` | scripts/utils/db.py:106-155 | after the three statements every batch entry has a row, and that row's internal ID is linked to the pack, repeats included |
| `Db.IdLookup` | scripts/utils/db.py:126-138 | the lookup dictionary holds exactly the batch's Spotify IDs that have a row |
| `Db.LinkValues` | scripts/utils/db.py:140-145 | the link tuples number at most the batch entries; each names the pack and a position between 1 and the batch length |
| `Db.LinkValuesAllFound` | scripts/utils/db.py:140-145 | when every entry is found by the lookup, entry i gives the tuple at index i, with the entry's internal ID and position i + 1 |
| `Db.InsertLinks` | scripts/utils/db.py:147-155 | `ON CONFLICT DO NOTHING`: existing links keep their position, and every tuple's (pack, track) key ends up linked |
| `Db.InsertLinksExisting` | scripts/utils/db.py:147-155 | inserting tuples whose keys all exist already changes nothing |
| `Db.InsertLinksAbsent` | scripts/utils/db.py:147-155 | a key that neither the table nor any tuple carries stays absent |
| `Db.InsertLinksPosition` | scripts/utils/db.py:147-155 | a new key takes the position of the first tuple that carries it |
| `Db.LookupFindsAll` | scripts/utils/db.py:126-160 | every upserted ID is found by the lookup, so the number of link tuples, and thus the returned count, is the batch length whatever number of links was new |
| `Db.AddTracksValid` | scripts/utils/db.py:67-160 | a successful `add_tracks_to_pack` keeps the table invariant |
| `Db.AddTracksPositions` | scripts/utils/db.py:141-155 | after `add_tracks_to_pack` the track at batch index i is linked to the pack; a link that existed keeps its original position and a new one gets position i + 1 |
| `Db.LookupAfterExisting` | scripts/utils/db.py:126-138 | upserting IDs that all have rows does not change what the lookup finds |
| `Db.RerunLookup` | scripts/utils/db.py:126-138 | a second run of the same batch finds the same internal IDs as the first |
| `Db.AddTracksRerunLinks` | scripts/utils/db.py:147-155 | re-running the same batch at any later time leaves `pack_tracks` unchanged |
| `Db.AddTracksIdempotent` | scripts/utils/db.py:67-160 | re-running the same batch in the same transaction, at the same time, changes no table at all |
| `Db.SetMetadata` | scripts/utils/db.py:178-187 | the row with the given internal ID gets the three given values, NULLs included; its other columns, every other row and the other tables stay as they were |
| `Db.SetMetadataValid` | scripts/utils/db.py:178-187 | the metadata update keeps the table invariant |
| `Db.CreatePackSpec` | scripts/utils/db.py:50-59 | the new pack gets a fresh ID with the given name and description and `tags or []`; the existing packs and every other table are kept, and the invariant holds |
| `Db.Database.Begin` | scripts/utils/db.py:24-26 | opening a connection keeps the state and records it as the snapshot |
| `Db.Database.Commit` | scripts/utils/db.py:26-27 | a body that completes keeps all its writes |
| `Db.Database.Rollback` | scripts/utils/db.py:28-30 | a body that raises has all its writes discarded: the state is the snapshot again |
| `Db.Database.AddTracksToPack` | scripts/utils/db.py:67-160 | an empty batch returns 0 and changes nothing; the call fails exactly when one of its three statements raises or a Spotify ID repeats within one 100-row page of the upsert, and then nothing changes; on success it returns the batch length and the tables are the upsert, lookup and link insert applied in turn |
| `Db.Database.ExecuteUpsert` | scripts/utils/db.py:106-124 | applying the upsert entry by entry yields the tables of the whole statement |
| `Db.Database.ExecuteLinkInsert` | scripts/utils/db.py:147-155 | applying the link insert tuple by tuple yields the tables of the whole statement |
| `Db.Database.UpdateTrackMetadata` | scripts/utils/db.py:163-189 | the call fails exactly when its UPDATE raises, and then nothing changes; otherwise the state is the metadata update |
| `Db.Database.CreatePack` | scripts/utils/db.py:35-64 | the call fails exactly when its INSERT raises, and then nothing changes; otherwise it returns the new pack's ID and the state is the pack insert |
| `Batching.Chunks` | scripts/fetch_spotify_metadata.py:72-74 | every batch is non-empty and at most `size` long, and every batch but the last has exactly `size` items |
| `Batching.ChunkCount` | scripts/fetch_spotify_metadata.py:72-74 | the number of batches is the ceiling of `len(items) / size` |
| `Batching.FlattenChunks` | scripts/fetch_spotify_metadata.py:72-74 | concatenating the batches gives the input back, in order |
| `Batching.ChunkAt` | scripts/backfill_track_metadata.py:265-266 | batch k is the slice starting at `k * size`, cut at the end of the input |
| `Batching.ChunkExists` | scripts/backfill_track_metadata.py:265 | every start offset `k * size` inside the input opens a batch |
| `Batching.ChunksHead` | scripts/fetch_spotify_metadata.py:72-74 | the first batch is the first `size` items, and the others are the batches of the rest |
| `Backfill.AlbumImage` | scripts/backfill_track_metadata.py:116-122 | no image gives None; two or more give the second; exactly one gives that one |
| `Backfill.ReleaseYear` | scripts/backfill_track_metadata.py:125-133 | a year is only ever an integer in 1900..2100 |
| `Backfill.ReleaseYearAgrees` | scripts/backfill_track_metadata.py:125-133 | the backfill's year rule agrees with `extract_year` of the MCP enrichment on every date string |
| `Backfill.MetadataMap` | scripts/backfill_track_metadata.py:110-141 | null entries are skipped and the map holds exactly the IDs some returned track carries |
| `Backfill.MetadataMapLast` | scripts/backfill_track_metadata.py:135-141 | the entry for an ID is built from the last returned track carrying it |
| `Backfill.FetchTrackMetadata` | scripts/backfill_track_metadata.py:89-147 | no IDs gives `{}` and more than 50 raise, both without a request; otherwise one request is made and the result is built from its answer, or `{}` when it raises |
| `Backfill.RowFor` | scripts/backfill_track_metadata.py:184-193 | the data row for an internal ID is absent exactly when no row carries that ID, and otherwise is one of the rows |
| `Backfill.RowForDistinct` | scripts/backfill_track_metadata.py:184-193 | with distinct IDs, each data row is the one found for its ID |
| `Backfill.MergeMeta` | scripts/backfill_track_metadata.py:176-183 | each of the five columns takes a non-null value and keeps its stored value on NULL; `updated_at` becomes now; nothing else changes |
| `Backfill.MergeMetaIdempotent` | scripts/backfill_track_metadata.py:176-183 | merging the same metadata twice changes nothing more |
| `Backfill.ApplyMetadata` | scripts/backfill_track_metadata.py:174-196 | rows whose internal ID has a data row are merged, the other rows and tables are untouched, and no row is added or removed |
| `Backfill.ApplyMetadataValid` | scripts/backfill_track_metadata.py:174-196 | the bulk update keeps the table invariant |
| `Backfill.ApplyMetadataIdempotent` | scripts/backfill_track_metadata.py:174-196 | running the same bulk update twice at the same time changes nothing more |
| `Backfill.RowCount` | scripts/backfill_track_metadata.py:198 | the reported row count never exceeds the number of data rows |
| `Backfill.UpdateTracksInDb` | scripts/backfill_track_metadata.py:150-200 | for rows with distinct track IDs: no rows gives 0 without touching the database; otherwise it fails exactly when the UPDATE raises, and then nothing changes, or it returns the number of matched rows and the state is the bulk update |
| `Backfill.ToUpdate` | scripts/backfill_track_metadata.py:282-289 | only batch tracks whose Spotify ID is in the metadata map are sent, each with that metadata |
| `Backfill.ToUpdateComplete` | scripts/backfill_track_metadata.py:282-289 | every batch track the map knows is sent |
| `Backfill.ToUpdateDistinct` | scripts/backfill_track_metadata.py:282-289 | distinct track IDs in the batch give distinct data-row IDs |
| `Backfill.BatchStepBounded` | scripts/backfill_track_metadata.py:272-306 | one batch adds at most its own length to the updated and failed counters together |
| `Backfill.BatchStepRaised` | scripts/backfill_track_metadata.py:274-279 | a request that raises leaves an empty map, so the whole batch counts as failed and the tables stay the same |
| `Backfill.ProcessBatch` | scripts/backfill_track_metadata.py:272-306 | one pass of the loop body: the new counters and tables are one step of the batch fold, unless the update raised, and then nothing changed |
| `Backfill.RunBackfill` | scripts/backfill_track_metadata.py:212-311 | a batch size above 50 is refused with no work; a failed Spotify connection stops before any work (lines 224-229); no tracks does nothing; more than 100 tracks without a truthy `--limit` and an answer other than `y` aborts with no work (lines 250-255); then a negative size does nothing and a zero size raises; otherwise the result is the fold over the consecutive batches, and updated plus failed never exceeds the number of tracks |
| `Backfill.BatchLoop` | scripts/backfill_track_metadata.py:265-311 | the loop over `range(0, len(tracks), size)` computes the fold over the batches; a raising update ends the run with the earlier batches kept |
| `FetchMetadata.SpotifyIds` | scripts/fetch_spotify_metadata.py:103 | the batch's Spotify IDs, one per track, in batch order |
| `FetchMetadata.Unique` | scripts/fetch_spotify_metadata.py:103 | each batch's request carries distinct Spotify IDs, and exactly those of the batch |
| `FetchMetadata.Lookup` | scripts/fetch_spotify_metadata.py:112 | the lookup maps each returned Spotify ID to a returned item carrying it, and every returned item's ID is in it |
| `FetchMetadata.BatchRowsSound` | scripts/fetch_spotify_metadata.py:114-131 | every result row comes from a batch track whose ID came back, with the catalog's popularity and ISRC |
| `FetchMetadata.BatchRowsComplete` | scripts/fetch_spotify_metadata.py:114-131 | every batch track whose ID came back, repeated IDs included, yields its row |
| `FetchMetadata.BatchRowsCount` | scripts/fetch_spotify_metadata.py:114-131 | rows plus tracks not found equal the batch length: each track gives a row or an error |
| `FetchMetadata.MissingCount` | scripts/fetch_spotify_metadata.py:134-135 | the rows without an ISRC never outnumber the rows |
| `FetchMetadata.FetchAllCounts` | scripts/fetch_spotify_metadata.py:96-147 | the success count is the number of rows, the missing-ISRC count never exceeds it, and successes plus errors equal the number of tracks in the batches, a raising batch counting all its tracks as errors |
| `FetchMetadata.EveryTrackCounted` | scripts/fetch_spotify_metadata.py:89-147 | over the batches of 50, every input track is counted exactly once, as a success or an error |
| `FetchMetadata.MapBatch` | scripts/fetch_spotify_metadata.py:115-135 | the inner loop builds the batch's rows and counts one success per row, the rows without an ISRC, and one error per track not found |
| `FetchMetadata.FetchSpotifyData` | scripts/fetch_spotify_metadata.py:77-159 | the loop over the batches of 50 returns the rows and counters of the batch fold, with successes plus errors equal to the number of tracks and missing ISRCs at most the successes |
| `FetchMetadata.FetchBatches` | scripts/fetch_spotify_metadata.py:101-147 | the loop over the batches returns the rows and counters of the batch-by-batch fold |
| `FetchMetadata.FetchBatch` | scripts/fetch_spotify_metadata.py:102-147 | one batch: a raising request adds the whole batch to the errors; otherwise the rows of the found tracks are appended, successes grow by their number, missing ISRCs by those without one, and errors by the tracks not found |
| `FetchMetadata.CsvOf` | scripts/fetch_spotify_metadata.py:180-185 | a None popularity becomes an empty cell and any other popularity its decimal text; a None or empty ISRC becomes an empty cell; the IDs are copied |
| `FetchMetadata.ZeroPopularityKept` | scripts/fetch_spotify_metadata.py:183 | a popularity of 0 is written as "0", not as an empty cell |
| `EnrichMcp.GetArtistGenres` | scripts/enrich_existing_tracks_mcp.py:27-34 | a failing call gives `[]`; otherwise the artist's genres, or `[]` when the key is absent |
| `EnrichMcp.YearText` | scripts/enrich_existing_tracks_mcp.py:42 | the text before the first '-': it holds no '-' and the date is it followed by nothing or by '-' |
| `EnrichMcp.YearTextIsFirstPiece` | scripts/enrich_existing_tracks_mcp.py:42 | that text is the first piece of `split('-')` |
| `EnrichMcp.ExtractYear` | scripts/enrich_existing_tracks_mcp.py:37-45 | None for a missing or empty date; a year is always in 1900..2100 and is the integer value of the text before the first '-'; an unreadable prefix gives None rather than raising |
| `EnrichMcp.ExtractYearOfDate` | scripts/enrich_existing_tracks_mcp.py:37-45 | a date starting with a year in the window followed by '-' gives that year |
| `EnrichMcp.ExtractYearOutside` | scripts/enrich_existing_tracks_mcp.py:43 | a year outside 1900..2100 is dropped |
| `EnrichMcp.GetPrimaryGenre` | scripts/enrich_existing_tracks_mcp.py:48-53 | None for no artists; otherwise the first genre of the first artist, and None exactly when that artist has no genres |
| `EnrichMcp.PrimaryGenreFirstOnly` | scripts/enrich_existing_tracks_mcp.py:52 | only the first artist is looked up: two catalogs that agree on it give the same genre |
| `EnrichMcp.PrimaryGenreOnFailure` | scripts/enrich_existing_tracks_mcp.py:27-53 | a failing lookup of the first artist gives no genre |
| `Dedup.ArgMax` | scripts/deduplicate_enrichment.py:59 | the index of a largest key, the first such index as Python's `max` returns |
| `Dedup.ArgMaxFirst` | scripts/deduplicate_enrichment.py:59 | the first position holding the largest key is the one chosen |
| `Dedup.Exacts` | scripts/deduplicate_enrichment.py:55 | exactly the candidates whose match type is exact, in order |
| `Dedup.Pool` | scripts/deduplicate_enrichment.py:55-68 | the exact matches when there are some, otherwise all candidates; never empty |
| `Dedup.ChooseSound` | scripts/deduplicate_enrichment.py:49-70 | a lone candidate is kept as it is; a chosen row is one of the candidates; a tie-break fails exactly when a follower count in the pool is not an integer |
| `Dedup.ChooseBest` | scripts/deduplicate_enrichment.py:55-70 | an exact match is preferred over any fuzzy one and has the most followers among the exact matches; with no exact match, the row has the most followers of all |
| `Dedup.PoolMax` | scripts/deduplicate_enrichment.py:59-68 | the chosen row is the pool's arg-max by followers, with an empty count read as 0 |
| `Dedup.ChooseFirstOfBest` | scripts/deduplicate_enrichment.py:59-68 | among rows with equal followers the earliest in the pool wins |
| `Dedup.Group` | scripts/deduplicate_enrichment.py:36-38 | the rows with one Spotify artist id, in file order |
| `Dedup.GroupComplete` | scripts/deduplicate_enrichment.py:37-38 | every row lands in the group of its own id |
| `Dedup.Keys` | scripts/deduplicate_enrichment.py:36-48 | each id once, exactly the ids that have rows |
| `Dedup.KeysPrefix` | scripts/deduplicate_enrichment.py:36-48 | the ids keep the order in which they first appear |
| `Dedup.GroupSizes` | scripts/deduplicate_enrichment.py:36-38 | the groups together hold every row exactly once |
| `Dedup.ChosenFromGroup` | scripts/deduplicate_enrichment.py:48-70 | the row kept for an id is an input row with that id |
| `Dedup.DedupOnePerId` | scripts/deduplicate_enrichment.py:45-70 | on success, one row per id in first-appearance order, each the group's choice |
| `Dedup.DedupFails` | scripts/deduplicate_enrichment.py:59-68 | the run fails exactly when some group of two or more rows has a pool with a non-integer follower count |
| `Dedup.DedupFailsAt` | scripts/deduplicate_enrichment.py:59-68 | a failed run names such a group |
| `Dedup.DedupSucceeds` | scripts/deduplicate_enrichment.py:59-68 | a successful run has integer follower counts in every contested pool |
| `Dedup.GroupRows` | scripts/deduplicate_enrichment.py:36-38 | the `defaultdict` loop: the ids in first-appearance order and each id's group |
| `Dedup.ChooseRow` | scripts/deduplicate_enrichment.py:49-70 | the per-id branch computes the choice |
| `Dedup.KeepOnePerGroup` | scripts/deduplicate_enrichment.py:45-70 | the kept rows are the choices in group order, and `removed` is the rows beyond one per group |
| `Dedup.Deduplicate` | scripts/deduplicate_enrichment.py:36-88 | the whole run: the deduplicated rows, and removed equals original minus final |
| `ApplyEnrichment.ParseGenres` | scripts/apply_artist_enrichment.py:44 | an empty cell gives no genres, and no genre holds the separator `\|` |
| `ApplyEnrichment.IntCell` | scripts/apply_artist_enrichment.py:52-54 | an empty cell reads as None; otherwise the cell must parse as a Python `int` or reading fails on that cell |
| `ApplyEnrichment.ParseRowFields` | scripts/apply_artist_enrichment.py:42-56 | a row reads exactly when both numeric cells do; the fields are copied or converted as the dict literal does |
| `ApplyEnrichment.Conversions` | scripts/apply_artist_enrichment.py:42-56 | one conversion per row, in order |
| `ApplyEnrichment.ReadAllRows` | scripts/apply_artist_enrichment.py:37-58 | reading succeeds exactly when every row converts, and then gives one enrichment per row in order |
| `ApplyEnrichment.ReadEnrichmentCsv` | scripts/apply_artist_enrichment.py:37-58 | the reading loop stops at the first bad row |
| `ApplyEnrichment.GenresRoundTrip` | scripts/apply_artist_enrichment.py:44 | the genres written by the fetch phase's `'\|'.join` read back unchanged when none is empty or holds `\|` |
| `ApplyEnrichment.FetchRowRoundTrip` | scripts/apply_artist_enrichment.py:42-56 | a row written by the fetch phase reads back as the enrichment it describes |
| `ApplyEnrichment.DistinctCard` | scripts/apply_artist_enrichment.py:86 | the set of ids is as large as the list exactly when the ids are distinct |
| `ApplyEnrichment.ValidateEnrichments` | scripts/apply_artist_enrichment.py:71-90 | valid exactly when the list is non-empty, every row has both ids and the Spotify ids are distinct; each failure names its first offending row |
| `ApplyEnrichment.Enriched` | scripts/apply_artist_enrichment.py:122-127 | the row's Spotify id, genres, followers and image are replaced and `updated_at` is set; the name is kept |
| `ApplyEnrichment.ApplyAll` | scripts/apply_artist_enrichment.py:119-133 | the bulk update keeps the set of artists |
| `ApplyEnrichment.Matched` | scripts/apply_artist_enrichment.py:119-135 | the rows one UPDATE over some value tuples matches number at most the tuples |
| `ApplyEnrichment.ApplyAllOther` | scripts/apply_artist_enrichment.py:129 | an artist no enrichment names is untouched |
| `ApplyEnrichment.ApplyAllRow` | scripts/apply_artist_enrichment.py:122-129 | an artist named by one enrichment gets that enrichment |
| `ApplyEnrichment.ApplyAllIdempotent` | scripts/apply_artist_enrichment.py:119-133 | applying the same file twice gives the same table as once |
| `ApplyEnrichment.ApplyEnrichments` | scripts/apply_artist_enrichment.py:103-138 | one transaction: on success the artists table becomes the bulk update and the count is `cursor.rowcount`, the matches of the last 100-tuple page sent by `execute_values` (-1 when there are no tuples); on failure nothing changes |
| `ApplyEnrichment.LastPageCountBound` | scripts/apply_artist_enrichment.py:119-135 | the returned count is between 0 and the matches over all tuples, and equals them when there are at most 100 tuples |
| `ApplyEnrichment.LastPageCountAllMatch` | scripts/apply_artist_enrichment.py:119-135 | when every enrichment names an artist the count is the size of the last page only: 150 enrichments give 50 |
| `ApplyEnrichment.MatchCountsBound` | scripts/apply_artist_enrichment.py:179-180 | the exact and fuzzy counts together are at most the total |
| `ApplyEnrichment.ApplyMain` | scripts/apply_artist_enrichment.py:159-208 | a read error exactly when a row fails to convert; for a readable file: rejected exactly when validation fails, with a complaint that explains it; aborted exactly when a valid file gets an answer other than `y`; failed exactly when a confirmed update raises; applied otherwise, with the bulk update and the last page's row count; every outcome but an applied one leaves the database unchanged |
| `FetchArtist.MatchArtistFields` | scripts/fetch_artist_metadata.py:72-89 | no search for an artist that already has an ID; otherwise a match exactly when the search finds one, carrying its fields with `[]`, 0 and 0 for missing genres, followers and popularity and the first image's URL |
| `FetchArtist.MatchType` | scripts/fetch_artist_metadata.py:170-177 | the type is always `exact` or `fuzzy` |
| `FetchArtist.MatchTypeExact` | scripts/fetch_artist_metadata.py:170 | exact precisely when the two names agree after lower-casing, fuzzy precisely when they differ |
| `FetchArtist.MatchTypeIgnoresCase` | scripts/fetch_artist_metadata.py:170 | a match differing from the database name only in letter case is exact |
| `FetchArtist.CsvRowFields` | scripts/fetch_artist_metadata.py:186-196 | the row carries the database artist's ID and name and the match's ID and name, and an empty image cell exactly when the match has no URL |
| `FetchArtist.ToEnrich` | scripts/fetch_artist_metadata.py:116 | only artists of the input without a Spotify ID, in order |
| `FetchArtist.ToEnrichComplete` | scripts/fetch_artist_metadata.py:116 | every artist without a Spotify ID is processed |
| `FetchArtist.EnrichRows` | scripts/fetch_artist_metadata.py:158-199 | at most one row per processed artist |
| `FetchArtist.EnrichRowsSound` | scripts/fetch_artist_metadata.py:164-196 | each row belongs to a processed artist the search matched, with that match's ID and type |
| `FetchArtist.FetchArtistMetadata` | scripts/fetch_artist_metadata.py:116-199 | nothing to do exactly when every artist has an ID; otherwise the rows written, matched plus not matched equals the artists processed, and exact plus fuzzy equals matched |
| `FetchArtist.MatchArtists` | scripts/fetch_artist_metadata.py:158-198 | the loop writes the rows of the matched artists; matched plus not matched is the number of artists, matched is the number of rows, exact plus fuzzy is matched, and exact is the number of rows typed `exact` |
| `FetchArtist.ExactCountRows` | scripts/fetch_artist_metadata.py:166-173 | the artists counted as exact matches are exactly the rows written with type `exact` |
| `Parser.SpaceRunEnd` | scripts/utils/parser.py:29 | the greedy `\s*`: the end of the whitespace run |
| `Parser.LastNewline` | scripts/utils/parser.py:29 | the last newline in a range, or none in it |
| `Parser.HeaderAt` | scripts/utils/parser.py:28-31 | a header match starts with "track" in any case and its group starts after a newline |
| `Parser.SectionEnd` | scripts/utils/parser.py:29 | the lazy `(.*?)` stops at the first blank line or the end |
| `Parser.FindHeader` | scripts/utils/parser.py:33 | the leftmost header match, or none anywhere |
| `Parser.TrackListSection` | scripts/utils/parser.py:33-38 | no section exactly when no header matches; a section holds no blank line |
| `Parser.ParseLine` | scripts/utils/parser.py:47-76 | blank, `Watch more`, `http` and `#` lines are skipped; a parsed line has non-empty stripped title and artist and keeps its stripped text as `raw`; a line without " - " is reported |
| `Parser.ParsedLineSplit` | scripts/utils/parser.py:60-64 | a parsed line is cut at its first " - " |
| `Parser.ParseLines` | scripts/utils/parser.py:47-76 | at most one track per line, each with a non-empty title and artist |
| `Parser.ParseLinesAppend` | scripts/utils/parser.py:47-76 | lines are parsed independently of each other |
| `Parser.ParseTrackList` | scripts/utils/parser.py:24-78 | no section gives no tracks; otherwise the tracks of the section's lines and the lines reported as unparsable |
| `Parser.ParseSectionLines` | scripts/utils/parser.py:47-78 | the loop over the section's lines collects exactly the tracks and the unparsable lines of the line-by-line parse |
| `Parser.FormatThenParse` | scripts/utils/parser.py:60-74 | "Title - Artist" parses back to that title and artist when the title holds no dash |
| `Parser.NoDashReported` | scripts/utils/parser.py:75-76 | a line without a dash that is not skipped is reported |
| `Parser.GuestEnd` | scripts/utils/parser.py:95 | the lazy group stops at the first stop phrase, with no `.`, `!`, `?` or newline before it |
| `Parser.GuestAt` | scripts/utils/parser.py:95 | a captured guest starts with a letter and has at least two characters |
| `Parser.FindGuest` | scripts/utils/parser.py:99 | the leftmost match, or none anywhere |
| `Parser.ExtractEpisodeInfo` | scripts/utils/parser.py:94-104 | a record exactly when the pattern matches, holding the stripped, non-empty guest name |
| `Spotify.CredentialsSound` | scripts/utils/spotify.py:21-28 | the client can be built exactly when an ID and a secret are found, each from its argument when that is truthy and from the environment otherwise; both are non-empty |
| `Spotify.QueryRoundTrip` | scripts/utils/spotify.py:47 | the query starts with `track:` and splitting the rest at the first ` artist:` gives back the title and artist when the title holds no ` artist:` |
| `Spotify.SearchTrackFound` | scripts/utils/spotify.py:49-68 | a track is found exactly when the search answers at least one item, and then it is the first item with its artists joined by ", " |
| `Spotify.OneArtistName` | scripts/utils/spotify.py:60 | a single artist's name is kept as it is |
| `Spotify.BatchResultsBound` | scripts/utils/spotify.py:80-100 | at most one result per request |
| `Spotify.BatchResultsSound` | scripts/utils/spotify.py:82-94 | every result is the search result of a request with a truthy title and artist |
| `Spotify.BatchResultsComplete` | scripts/utils/spotify.py:82-94 | every valid request that the search finds has its result in the list |
| `Spotify.BeforeQueryCut` | scripts/utils/spotify.py:114 | the text before the first `?` holds no `?`, and the rest starts with one |
| `Spotify.PlaylistIdSound` | scripts/utils/spotify.py:113-114 | a playlist URL gives the text after its last `playlist/` up to the first `?`; any other input is used as it is |
| `Spotify.PageTracksCount` | scripts/utils/spotify.py:128-130 | one track per item whose track is not null |
| `Spotify.PlaylistResultSound` | scripts/utils/spotify.py:116-151 | a failing call gives no name and no tracks; otherwise the name and the tracks of every page in order |
| `Spotify.SpotifyClient.Connect` | scripts/utils/spotify.py:21-34 | fails exactly when the credentials are missing; otherwise a new client holding them |
| `Spotify.SpotifyClient.SearchTracksBatch` | scripts/utils/spotify.py:70-100 | the batch loop computes the batch results, at most one per request |
| `Spotify.SpotifyClient.CollectPage` | scripts/utils/spotify.py:128-139 | the item loop computes the page's tracks |
| `Spotify.SpotifyClient.GetPlaylistTracks` | scripts/utils/spotify.py:102-151 | the name and tracks of the playlist whose ID is taken from the input |
| `Youtube.LazyEndSound` | scripts/utils/youtube.py:27 | the lazy `.*?` stops at the first end marker, with no newline before it |
| `Youtube.SearchFromSound` | scripts/utils/youtube.py:27-28 | the search finds the leftmost position where the look-behind and look-ahead both hold, or none anywhere |
| `Youtube.DescriptionFound` | scripts/utils/youtube.py:21-39 | a description exactly when the pattern matches; it is the unescaped text up to the first end marker, on one line |
| `Youtube.UnescapeShrinks` | scripts/utils/youtube.py:33-36 | unescaping never lengthens the text |
| `Youtube.UnescapePlain` | scripts/utils/youtube.py:33-36 | a text without backslashes is unchanged |
| `Youtube.CleanTitleSound` | scripts/utils/youtube.py:65-69 | the cleaned title is stripped and no longer than the tag text; a text without " - YouTube" is only stripped |
| `Youtube.CleanTitleIdempotent` | scripts/utils/youtube.py:68 | cleaning a clean title changes nothing |
| `Youtube.WatchUrlRoundTrip` | scripts/utils/youtube.py:132 | the video ID can be read back from its watch URL |
| `Youtube.SelectedTabFirst` | scripts/utils/youtube.py:113-119 | the tab used is the first one with a selected renderer, none exactly when there is no such tab |
| `Youtube.WalkNoLimit` | scripts/utils/youtube.py:128-136 | without a truthy limit every rich item's URL is returned, in grid order |
| `Youtube.WalkLimit` | scripts/utils/youtube.py:135-136 | with a positive limit the first that many URLs are returned |
| `Youtube.WalkFails` | scripts/utils/youtube.py:138-140 | the item loop fails only on a malformed rich item |
| `Youtube.FindVideosTab` | scripts/utils/youtube.py:113-119 | the tab loop finds the selected tab |
| `Youtube.CollectUrls` | scripts/utils/youtube.py:128-136 | the item loop computes the walk, with the limit checked after each append |
| `Youtube.ExtractChannelVideos` | scripts/utils/youtube.py:89-149 | the URLs of the channel page, `[]` whenever something is missing or raises |
| `Youtube.ChannelVideosSound` | scripts/utils/youtube.py:107-142 | on a readable page with well-formed items, the rich items' URLs in grid order, cut to a positive limit |
| `Publish.AsTrackIns` | scripts/utils/spotify.py:58-64 | one track dict per search result, in order, carrying its ID, title and artist |
| `Publish.AttemptValid` | scripts/utils/db.py:35-160 | whichever of `create_pack` and `add_tracks_to_pack` raises, the tables stay consistent |
| `Publish.AttemptPacks` | scripts/utils/db.py:35-64 | existing packs are kept; unless `create_pack` raises, one pack is added under the next ID and stays even when filling it fails |
| `Publish.PublishedContents` | scripts/utils/db.py:35-160 | after both calls the new pack has the given fields and every track of the batch has a row linked to it |
| `Publish.CreateAndFill` | scripts/generate_thematic_packs.py:371-378 | one creation and one fill: a failed creation changes nothing, a failed fill (a raising statement, or a Spotify ID repeated within one upsert page) leaves the empty pack, success gives the new pack's ID and the number of tracks |
| `Publish.CreateAll` | scripts/generate_decade_genre_packs.py:178-201 | the tables after the creation loop stay consistent |
| `Publish.Tried` | scripts/generate_decade_genre_packs.py:178-201 | at most one created pack per attempt |
| `Publish.NewPacks` | scripts/generate_decade_genre_packs.py:178-201 | the new packs take consecutive IDs from the next free one |
| `Publish.NewPacksHas` | scripts/generate_decade_genre_packs.py:178-201 | a created plan's pack is under the ID after the packs created before it, with the plan's name, description and tags |
| `Publish.CreateAllNext` | scripts/generate_decade_genre_packs.py:178-201 | the pack counter moves once per attempt that gets past `create_pack` |
| `Publish.NewPacksFresh` | scripts/generate_decade_genre_packs.py:178-201 | the new IDs were free, so no existing pack is overwritten |
| `Publish.CreateAllPacks` | scripts/generate_decade_genre_packs.py:178-201 | after the loop the packs are the existing ones plus the new ones |
| `Catalog.FindSourcePack` | scripts/generate_decade_genre_packs.py:96-105 | the first pack whose name contains "Every Track Star", or none when no name does |
| `DecadeGenre.Decade` | scripts/generate_decade_genre_packs.py:37-42 | a decade label exactly for a year other than 0 |
| `DecadeGenre.DecadeOfYear` | scripts/generate_decade_genre_packs.py:41-42 | a year is labelled with the multiple of ten at or below it, followed by "s" |
| `DecadeGenre.SameDecade` | scripts/generate_decade_genre_packs.py:41-42 | two years share a label exactly when they share the floor division by ten |
| `DecadeGenre.NormalizeGenre` | scripts/generate_decade_genre_packs.py:45-85 | a name exactly for a non-empty genre |
| `DecadeGenre.NormalizeKeyword` | scripts/generate_decade_genre_packs.py:80-82 | the first keyword of the map contained in the lower-cased genre decides the name |
| `DecadeGenre.NormalizeFallback` | scripts/generate_decade_genre_packs.py:85 | a genre holding no keyword is title-cased |
| `DecadeGenre.NormalizeIgnoresCase` | scripts/generate_decade_genre_packs.py:54-85 | genres equal up to letter case get the same name |
| `DecadeGenre.NormalizeFallbackStable` | scripts/generate_decade_genre_packs.py:85 | normalizing a title-cased fallback name again gives the same name |
| `DecadeGenre.TrapIsHipHop` | scripts/generate_decade_genre_packs.py:57-77 | the map sends "trap" to "Hip Hop", the earlier "hip hop" entry not applying |
| `DecadeGenre.KeyOfDefined` | scripts/generate_decade_genre_packs.py:125-135 | a track is filed exactly when it has a year and a genre, under their decade and normalized name |
| `DecadeGenre.StatsAccount` | scripts/generate_decade_genre_packs.py:118-141 | every track is filed or counted as missing a year or a genre, and the filed tracks are exactly the groups' contents |
| `DecadeGenre.Tally` | scripts/generate_decade_genre_packs.py:118-141 | the grouping loop computes the groups and the four counters |
| `DecadeGenre.TallyTrack` | scripts/generate_decade_genre_packs.py:126-141 | a track with a year and genre that map to a decade and a genre family joins that group and counts as with metadata; otherwise the groups are unchanged and the missing year and missing genre counters count what it lacks |
| `DecadeGenre.AsWrittenFilesNothing` | scripts/utils/db.py:246-252 | with the listing as written, no track is filed, every track counts as missing a genre and no group comes out |
| `DecadeGenre.ListedFiles` | scripts/generate_decade_genre_packs.py:127-135 | with the genre selected, a track is filed exactly when its row has a non-zero year and a genre |
| `DecadeGenre.EligibleCorrect` | scripts/generate_decade_genre_packs.py:153-162 | the eligible groups are the groups of at least ten tracks, largest first, ties in first-appearance order |
| `DecadeGenre.Plans` | scripts/generate_decade_genre_packs.py:178-181 | one pack plan per eligible group |
| `DecadeGenre.PlansNamed` | scripts/generate_decade_genre_packs.py:178-181 | each plan is named "{decade} {genre}", tagged with the decade and the lower-cased genre, and holds its group's tracks, at least ten |
| `DecadeGenre.CreatedList` | scripts/generate_decade_genre_packs.py:178-201 | at most one reported pack per plan, each with a plan's name and track count |
| `DecadeGenre.CreatePacks` | scripts/generate_decade_genre_packs.py:178-201 | the creation loop leaves the tables of the run of attempts and reports the created packs |
| `DecadeGenre.DecadeGenreMain` | scripts/generate_decade_genre_packs.py:88-201 | no source pack changes nothing; an answer other than "yes" cancels with nothing changed; otherwise every eligible group is attempted as a pack |
| `Thematic.NormalizeGenre` | scripts/generate_thematic_packs.py:42-44 | none exactly for an empty genre |
| `Thematic.NormalizeGenreCaseless` | scripts/generate_thematic_packs.py:42-44 | two genres normalize alike exactly when they agree ignoring case |
| `Thematic.MatchesIff` | scripts/generate_thematic_packs.py:350-356 | for a theme whose genres are non-empty, a track matches exactly when one of its non-empty genres equals one of the theme's, ignoring case |
| `Thematic.GenreTagShape` | scripts/generate_thematic_packs.py:367-369 | the tag holds no blank and is no longer than the name |
| `Thematic.BumpAppend` | scripts/generate_thematic_packs.py:264-266 | counting one more track of an artist bumps that artist's count or adds it with 1 |
| `Thematic.CountArtists` | scripts/generate_thematic_packs.py:264-266 | the counting loop computes the artist counts |
| `Thematic.ArtistCountsCorrect` | scripts/generate_thematic_packs.py:264-266 | each artist is counted once, with the number of its tracks, and every track's artist is counted |
| `Thematic.CheckArtistDiversity` | scripts/generate_thematic_packs.py:253-281 | the loop computes the diversity report |
| `Thematic.TopArtistsCorrect` | scripts/generate_thematic_packs.py:271 | at most five artists, largest counts first, none left out with more tracks than one listed |
| `Thematic.WarningsCorrect` | scripts/generate_thematic_packs.py:271-274 | a top artist is warned about exactly when its share is above 15% |
| `Thematic.DecadeKey` | scripts/generate_thematic_packs.py:314-321 | a track is bucketed exactly when it has a year and genres, under its decade |
| `Thematic.Bucket` | scripts/generate_thematic_packs.py:314-321 | the bucketing loop computes the groups by decade |
| `Thematic.ThemePlansNext` | scripts/generate_thematic_packs.py:335-392 | each theme of a decade adds its step to the plans |
| `Thematic.ThemePlansSound` | scripts/generate_thematic_packs.py:350-378 | every plan has at least ten tracks and comes from one of the decade's themes |
| `Thematic.MatchingSound` | scripts/generate_thematic_packs.py:350-356 | the matching tracks are tracks of the decade that match the theme |
| `Thematic.ThemeStepAttempts` | scripts/generate_thematic_packs.py:358-378 | a theme with at least ten matches is attempted |
| `Thematic.ThemePlansComplete` | scripts/generate_thematic_packs.py:358-378 | every theme with enough matches is among the plans |
| `Thematic.AllPlansComplete` | scripts/generate_thematic_packs.py:335-392 | every theme of every decade with enough matches is attempted |
| `Thematic.AllPlansHas` | scripts/generate_thematic_packs.py:335-392 | a plan of any decade of the table is among the plans of the whole run |
| `Thematic.CreatedListSound` | scripts/generate_thematic_packs.py:380-386 | every reported pack has at least ten tracks |
| `Thematic.ThematicMain` | scripts/generate_thematic_packs.py:284-401 | no source pack changes nothing; otherwise the source tracks are the listing as `get_pack_tracks` writes it, every theme plan is attempted, and the report lists the created packs and the tracks added |
| `Thematic.RunTheme` | scripts/generate_thematic_packs.py:343-392 | the loop over a decade's themes extends the attempts by the decade's plans |
| `Thematic.TryTheme` | scripts/generate_thematic_packs.py:345-386 | one theme: fewer than ten matches leave the tables and counters unchanged; otherwise the pack is created and filled, the attempt is counted, and on success its entry is recorded and its tracks added to the total |
| `Thematic.AttemptStep` | scripts/generate_thematic_packs.py:365-386 | one more attempt extends the run: the tables are those of the attempt, the created list gains the entry exactly when both steps succeed, and the total grows by the pack's tracks exactly then |
| `Thematic.MatchingTracks` | scripts/generate_thematic_packs.py:350-356 | the filtering loop keeps the decade's tracks that match the theme |
| `ScrapeChannel.AlreadyProcessed` | scripts/scrape_channel.py:25-30 | a video counts as processed exactly when some pack's non-empty description contains its URL |
| `ScrapeChannel.PackNameCases` | scripts/scrape_channel.py:63-68 | "Track Star - " and the guest when there is one, else the video title when truthy, else "Track Star Pack"; never empty |
| `ScrapeChannel.CreatedPackIsFound` | scripts/scrape_channel.py:72-73 | a pack created from a video is recognised as processing that video on a later run |
| `ScrapeChannel.Requests` | scripts/scrape_channel.py:56 | one search request per parsed track, in order |
| `ScrapeChannel.PlanForSound` | scripts/scrape_channel.py:41-72 | a video yields a pack exactly when it has a description with parsed tracks of which Spotify finds one; the pack's description names the URL and it has at least one track |
| `ScrapeChannel.ProcessVideo` | scripts/scrape_channel.py:33-79 | no pack and no write when a step finds nothing; with a plan, the video fails exactly when the creation raises or the fill fails, and succeeds otherwise; a failed creation changes nothing; a failed fill leaves the empty pack; success publishes the pack |
| `ScrapeChannel.ParseArgsDefaults` | scripts/scrape_channel.py:87-106 | no limit and skipping on by default; `--allow-duplicates` turns skipping off |
| `ScrapeChannel.ParseArgsSetsLimit` | scripts/scrape_channel.py:93-96 | `--limit N` sets the limit to N |
| `ScrapeChannel.ParseArgsRejects` | scripts/scrape_channel.py:103-106 | an unknown argument, or `--limit` with nothing after it, is a usage error |
| `ScrapeChannel.ParseArgsLimit` | scripts/scrape_channel.py:92-106 | a limit that is set came from a `--limit` followed by a number in the arguments; skipping is only ever turned off, never on |
| `ScrapeChannel.ReadOptions` | scripts/scrape_channel.py:87-106 | the argument loop computes the options |
| `ScrapeChannel.ScrapeMain` | scripts/scrape_channel.py:82-161 | a usage error exactly for bad arguments; with good arguments, no videos exactly when the channel lists none and no client exactly when there are videos and the connection fails, both without a write, so every other run is counted: every video once as a success, a skip or a failure; the skips are the videos already processed when skipping is on, and the successes are the videos that publish |
| `ScrapeChannel.ProcessVideos` | scripts/scrape_channel.py:142-161 | every video is counted once as a success, a skip or a failure; the skips are exactly the videos already processed when skipping is on, and the successes exactly the videos not skipped that yield a plan whose creation and fill both go through |
| `ScrapeChannel.VisitVideo` | scripts/scrape_channel.py:142-161 | one video of the loop is skipped exactly when skipping is on and it was processed before; it succeeds exactly when it is not skipped and publishes |
| `RollingStone.LineEnd` | scripts/scrape_rolling_stone.py:91 | the end of the current line |
| `RollingStone.SpaceEnd` | scripts/scrape_rolling_stone.py:71 | the end of the whitespace run |
| `RollingStone.ClassifyComma` | scripts/scrape_rolling_stone.py:71-78 | the first "Artist, 'Title'" reading wins |
| `RollingStone.ClassifyQuoted` | scripts/scrape_rolling_stone.py:80-88 | without a comma reading, the first "'Title' ... - Artist" reading wins |
| `RollingStone.ClassifyPlain` | scripts/scrape_rolling_stone.py:90-99 | otherwise "Artist - Title" is read only for a text under 200 characters whose title is not all digits and does not start with four digits |
| `RollingStone.NotNumeric` | scripts/scrape_rolling_stone.py:96 | a title whose first character is not a digit is never rejected as numeric |
| `RollingStone.PlainFirst` | scripts/scrape_rolling_stone.py:91 | the lazy artist group stops at the first dash that leaves a non-empty rest |
| `RollingStone.ClassifyNone` | scripts/scrape_rolling_stone.py:63-99 | a text matching none of the three patterns gives no song |
| `RollingStone.HyphenatedArtist` | scripts/scrape_rolling_stone.py:91 | "Jay-Z - Song" reads as the artist "Jay" and the title "Z - Song" |
| `RollingStone.Readings` | scripts/scrape_rolling_stone.py:63-99 | one reading per element text, in order |
| `RollingStone.SongsFromCapped` | scripts/scrape_rolling_stone.py:76-99 | the loop keeps every song without a truthy limit, and otherwise the first `limit` songs |
| `RollingStone.ScrapedCapped` | scripts/scrape_rolling_stone.py:25-105 | the songs are the first ones the page gives, as many as the limit lets through; a failed fetch gives none |
| `RollingStone.ScrapeTop500` | scripts/scrape_rolling_stone.py:63-101 | the element loop computes the scraped songs |
| `RollingStone.LimitAbsent` | scripts/scrape_rolling_stone.py:113-114 | without `--limit` there is no limit |
| `RollingStone.LimitGiven` | scripts/scrape_rolling_stone.py:114-117 | `--limit N` sets the limit to N |
| `RollingStone.LimitMissingValue` | scripts/scrape_rolling_stone.py:118-120 | `--limit` with nothing after it is an error |
| `RollingStone.Requests` | scripts/scrape_rolling_stone.py:145 | one search request per song, with its title and artist |
| `RollingStone.RollingStoneMain` | scripts/scrape_rolling_stone.py:108-172 | a usage error exactly for a bad limit; no songs stops before any write; no client exactly when there are songs and the connection fails; with a client, no matches exactly when Spotify finds none, and a failure exactly when the creation raises or the fill fails, with the tables those calls leave; a created pack has the next free pack ID, the limit-dependent name and the found tracks |
| `PackFromList.ParseLine` | scripts/create_pack_from_list.py:33-54 | blank and `#` lines are ignored; an accepted song has its line number and non-empty stripped title and artist; a line without " - " is warned about with its text |
| `PackFromList.AcceptedSplit` | scripts/create_pack_from_list.py:40-43 | an accepted line is cut at its first " - " |
| `PackFromList.ParseFormatted` | scripts/create_pack_from_list.py:40-50 | "Title - Artist" reads back as that song when the title holds no dash |
| `PackFromList.SongsSound` | scripts/create_pack_from_list.py:27-56 | every song comes from the line it names |
| `PackFromList.SongsOrdered` | scripts/create_pack_from_list.py:27-56 | the songs follow the file's order |
| `PackFromList.SongsComplete` | scripts/create_pack_from_list.py:27-56 | every line that reads as a song is in the result |
| `PackFromList.SongsAndWarnings` | scripts/create_pack_from_list.py:27-56 | each line gives at most one song or warning |
| `PackFromList.ParseSongListFile` | scripts/create_pack_from_list.py:27-56 | the loop over the numbered lines computes the songs and the warnings |
| `EnrichExisting.CountedBalanced` | scripts/enrich_existing_tracks.py:97-151 | the counters keep the total, success plus failed is the number of tracks tried, and the no-genre and no-year counts never exceed the successes |
| `EnrichExisting.PackStatsBalanced` | scripts/enrich_existing_tracks.py:62-95 | the pack's counters balance and the total is the number of tracks lacking a release year |
| `EnrichExisting.Enriched` | scripts/enrich_existing_tracks.py:105-128 | the tables stay consistent |
| `EnrichExisting.EnrichedFrame` | scripts/enrich_existing_tracks.py:105-128 | only track rows change, and rows of tracks not tried are untouched |
| `EnrichExisting.EnrichedColumns` | scripts/utils/db.py:163-189 | only the release year, album and primary genre of a row change |
| `EnrichExisting.EnrichedStores` | scripts/enrich_existing_tracks.py:105-128 | a successful lookup's year, album and genre are stored in that track's row |
| `EnrichExisting.EnrichPackTracks` | scripts/enrich_existing_tracks.py:41-153 | the loop's counters are the pack's statistics and the tables are the enriched ones |
| `EnrichExisting.EnrichTrack` | scripts/enrich_existing_tracks.py:98-150 | one track: a failed lookup or a failed UPDATE counts as a failure and changes nothing; otherwise its year, album and genre are stored and the success, no-genre and no-year counters follow |
| `EnrichExisting.SelectCases` | scripts/enrich_existing_tracks.py:193-214 | "quit" quits and "all" selects every pack; otherwise a number picks one pack, anything else is invalid |
| `EnrichExisting.SelectNumber` | scripts/enrich_existing_tracks.py:197-207 | typing the number k selects the k-th pack |
| `EnrichExisting.PlusBalanced` | scripts/enrich_existing_tracks.py:225-230 | summing balanced counters keeps them balanced |
| `EnrichExisting.Overall` | scripts/enrich_existing_tracks.py:217-230 | the overall counters balance |
| `EnrichExisting.OverallTotal` | scripts/enrich_existing_tracks.py:217-230 | the overall total is the number of tracks lacking a year across the chosen packs |
| `EnrichExisting.EnrichPacks` | scripts/enrich_existing_tracks.py:225-230 | the per-pack loop sums the statistics and enriches pack after pack |
| `EnrichExisting.EnrichMain` | scripts/enrich_existing_tracks.py:156-241 | missing credentials, no packs, quitting or an invalid choice change nothing; otherwise the chosen packs are enriched |
| `Sorting.SortDescCorrect` | scripts/generate_decade_genre_packs.py:153 | sorted by key, largest first, and stable: items of equal key keep their order |
| `Sorting.SortDescPermutes` | scripts/generate_decade_genre_packs.py:153 | the sort is a permutation |
| `Sorting.TopSorted` | scripts/generate_thematic_packs.py:271 | the first n of the sort are sorted and come from the input |
| `Sorting.TopMaximal` | scripts/generate_thematic_packs.py:271 | no item left out of the first n has a larger key than one kept |
| `Grouping.GroupsPartition` | scripts/generate_decade_genre_packs.py:125-136 | every item with a key lies in the one group for its key, and the keys are distinct |
| `Grouping.GroupsSize` | scripts/generate_thematic_packs.py:314-321 | the groups hold exactly the items that have a key |
| `Grouping.LookupGroups` | scripts/generate_thematic_packs.py:336 | looking a decade up gives its tracks in order, and nothing for a decade with none |
| `Text.JoinSplit` | scripts/apply_artist_enrichment.py:44 | joining the pieces of a split rebuilds the text |
| `Text.SplitJoin` | scripts/apply_artist_enrichment.py:44 | splitting a join gives back the pieces when none holds the separator |
| `Text.PyIntShowInt` | scripts/scrape_channel.py:95 | `int()` reads back any integer's decimal text |

## Left out

- HTTP, Spotify, YouTube and catalog calls are oracles: function-valued parameters that answer a query, or answers given as inputs. Rate limits, timeouts and retries are not modelled.
- `get_tracks_batch`, `get_best_artist_match`, `_extract_year` and `_get_primary_genre` are called by the scripts but are not defined in `scripts/utils/spotify.py`; they are oracles too.
- SQL text and cursors are not modelled. Each statement is a function on in-memory tables, and `Fault` says which statement raises. Of `execute_values`, the model keeps its 100-row pages: they decide which repeated Spotify IDs make the upsert of `add_tracks_to_pack` raise (PostgreSQL refuses an `ON CONFLICT DO UPDATE` statement that touches a row twice, while a repeat in a later page merges into the row again), and which rows `cursor.rowcount` counts in `apply_enrichments`.
- Read-only queries (`get_all_packs`, `get_pack_tracks`, `get_tracks_needing_backfill`, `get_all_tracks`, `get_all_artists`) are inputs: the listing or the rows. Their `ORDER BY` is taken as the order of the given sequence.
- The per-pack track query of `scripts/enrich_existing_tracks.py` is an input, `packRows`, giving each pack's rows.
- `Backfill.UpdateTracksInDb` and `ApplyEnrichment.ApplyEnrichments` require distinct internal IDs, because `UPDATE ... FROM` with repeated IDs updates a row with an unspecified one of them.
- `ApplyEnrichment.ApplyMain` inherits that requirement: a readable file must name each artist once. Validation only rejects repeated Spotify artist IDs, so a file naming one artist twice is outside the model.
- `Db.AddTracksIdempotent` is stated for batches with distinct Spotify IDs only. With a repeat the rerun is still a fixpoint, because each row ends as the COALESCE chain of its entries, but that case is not proved.
- Printing, `time.sleep`, `input()` (every prompt's answer is a parameter), `sys.exit` (an outcome value), file and CSV I/O, timestamped file names, `load_dotenv` and `DATABASE_URL` handling are left out. CSV files are sequences of rows or lines.
- HTML and JSON scraping are left out: BeautifulSoup element selection, `json.loads` and the `ytInitialData` regex. The model starts from the element texts, the `<title>` text, and the decoded tab and grid structure.
- Python's `str.lower`, `str.title` and `str.isspace` are modelled on ASCII letters and ASCII whitespace. `int()` accepts surrounding whitespace, an optional sign and ASCII digits, with no underscores or other Unicode digits.
- The float comparison in `check_artist_diversity` is the exact integer comparison `count * 100 > 15 * total`. The printed percentages are dropped.
- `list(set(...))` in `scripts/fetch_spotify_metadata.py` has no defined order. The model uses first-appearance order.
- The theme table `THEMATIC_PACKS` is a parameter, with its decades in sorted order.
- `create_pack_from_list.py`'s `main` (argument handling, printing and then the usual create-and-fill) is not modelled beyond `parse_song_list_file` and `Publish.CreateAndFill`.
- `FetchArtist.FetchArtistMetadata`: the Spotify client's connection failure, which ends the script before any artist is read, is left out.
- `ScrapeChannel.ScrapeMain`: states the counters and the usage and no-video outcomes, but not the database's final state after many videos, which `ScrapeChannel.ProcessVideo` states one video at a time.
- `Catalog.ListedAsWritten` and `Catalog.Listed` state only that there is one dict per row; what they mean for the grouping is stated by `DecadeGenre.AsWrittenFilesNothing` and `DecadeGenre.ListedFiles`.
- The follow-up statistics queries at the end of `scripts/apply_artist_enrichment.py` (lines 221-246) are read-only and are left out.
- The `get_decade` docstring's "'70s" disagrees with its code. The model follows the code: 1975 gives "1970s".

## Findings

| source | as written | input that shows it | evidently intended | confidence | as-written member | corrected member |
|---|---|---|---|---|---|---|
| scripts/utils/db.py:246-252 | `get_pack_tracks` selects no `primary_genre`, yet `generate_decade_genre_packs.py` (lines 127-135) files a track only when its `primary_genre` is truthy | any source pack, however many of its tracks have a year and a primary genre: every track counts as missing a genre and no decade/genre pack is created | select `primary_genre` too, so that tracks with a year and a genre are grouped | high, not executed | `DecadeGenre.AsWrittenFilesNothing` | `DecadeGenre.ListedFiles` |

The as-written listing is `Catalog.ListedAsWritten`. The corrected listing `Catalog.Listed` adds the genre, and `DecadeGenre.DecadeGenreMain` uses it.
