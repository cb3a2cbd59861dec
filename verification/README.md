# LakeSearch: a verified model

LakeSearch is a full-text index over Parquet files in object storage. An indexer turns a
batch of files into an inverted index over Parquet *pages*, writes it as one immutable
segment file and publishes it with a compare-and-swap on `current.json`. A query plans over
the published snapshot, evaluates the segments, reads only the candidate pages, verifies
each row by tokenizing it, scans the files that have no index, and ranks the result.

This project models that path from bytes to answers and proves it. The four layers are one
development: the end-to-end theorems use the lemmas of the layers below.

| module | what it models |
|---|---|
| `Arithmetic`, `Bytes`, `Types`, `Sorting` | shifts and masks on registers, little-endian fields, the constants and records, sort/dedup |
| `Utf8Encoding` | UTF-8 lengths and byte order of text |
| `BitPacking`, `Posting` | the posting-list codec: bit packing across byte boundaries, deltas, 128-id blocks, optional LZ4 |
| `BooleanOps` | the two-pointer merges |
| `Tokenizer` | the ASCII fast path and the Unicode path |
| `ParquetUtil`, `Indexer`, `BatchIndex`, `Counting`, `IndexRun` | page inventory, row-group indexing with the page pointer, the merge, what its numbers count, a whole indexing run |
| `SegmentFormat`, `SegmentBuild`, `SegmentRead`, `SegmentLayout`, `SegmentRoundTrip` | the segment file: layout, builder, parser, the bytes each reads and writes, and their round trip |
| `IndexedSegment`, `Evaluate`, `Verify`, `Plan`, `Search`, `SegmentSearch`, `EndToEnd` | what a segment means, AND/OR evaluation, grouping, row verification, pruning, and the query over a snapshot |
| `Work`, `Output` | what is read of one row group and kept of it, however it is cut into record batches; the output batch in each score mode |
| `Cas`, `CasSafety`, `CasSharp`, `CasColumns`, `CasGiveUp`, `MetadataCaching`, `CommittedSearch` | the commit protocol as interleaved steps, its invariants, schedules that reach its bound, what success means for a column, when a worker can give up, the metadata cache, and the query at any moment of a run |
| `Pipeline`, `PipelineSafety`, `Rank`, `CollectedQuery`, `QueryRun`, `Streaming`, `StreamLimit` | the three-stage pipeline as interleaved steps, its invariants, progress and termination, ranking, the collected result, the whole collected query over a table, and the streamed result and its limit |

The main results:

- `CommittedSearch.QueryTable`: at any moment of any run of any number of committing
  workers, a query against the pointer it reads returns no row twice, only rows whose tokens
  satisfy the predicate, and every such row in the files that this snapshot indexes for the
  queried column (and in files committed only for other columns, when the queried column's
  text there is ASCII and its type `Utf8`).
- `QueryRun`: from such a table through I/O tasks, record batches, verification in any
  schedule and ranking, an unscored collected query returns exactly `min(limit, matches)`
  rows, and a scored one the best. `QueryRun.PanicsIff` says exactly when a query instead
  panics in a CPU task: something is kept, and a selected column is called `text` or `score`,
  or scores are asked for indexed rows only and a row of an unindexed file is kept.
- `CasSafety`: no lost update, no batch twice, success stays visible, conflicts charged to
  distinct other workers (a bound that `CasSharp` shows is attained; `CasGiveUp.GiveUpIff`
  says exactly when a worker can give up), everything reachable from the pointer exists and
  never changes.
- `CasColumns.SuccessCoversIff`: success does not always mean that the files are indexed for
  the worker's column; the theorem gives the condition, checkable before the worker starts,
  under which it does, and `CasColumns.SecondColumnIsSkipped` a run in which it does not.
- `StreamLimit.StreamKeepsLimitIff`: the streaming query does not always keep to its limit;
  the theorem says exactly when it does, whatever the record batches and the schedule.
- `PipelineSafety`: no schedule is stuck, every schedule ends, and nothing is lost or made up.
- `Posting.RoundTrip`, `SegmentRoundTrip.OpenBuilt`: the two binary formats round-trip.

Libraries are parameters with the laws the code relies on: LZ4 (decompression inverts
compression), the FST bytes (reading inverts writing a sorted map), UTF-8 (decoding inverts
encoding), CRC32 (a function), NFC and the Unicode case tables (they leave ASCII as the
ASCII path has it), `ILIKE` (case-insensitive containment on ASCII text), and Arrow's
`lexsort_to_indices` (a best selection, ties in any order). FST keys are compared by code
point, which is the byte order of UTF-8 (`Utf8Encoding.CodePointOrderIsByteOrder`).

Where the code and its documentation disagree the model follows the code. A block header
has 14 bytes (`BLOCK_HEADER_SIZE`), although the comment at
`lakesearch-core/src/posting.rs:72` says 15; a doc-table entry has 20 bytes and the footer
56 (`lakesearch-core/src/types.rs:55-65`), although `DESIGN.md` describes 24 and 64. Posting
arithmetic wraps at 32 bits, as in a release build, so the codec's round trip holds for every
list of `u32` values, sorted or not. A batch id is a hash of the file paths alone: committing
the same files for a second column is reported as success without indexing that column
(`CasColumns`). The score mode that scores indexed rows only gives the result a score column
and the rows of unindexed files no score (`lakesearch-query/src/query/mod.rs:252-253`), so
such a row makes its CPU task panic; the model keeps that (`Output.ScoreIndexedPanics`).
`DESIGN.md:1564-1566` has an unscored query stop after `limit` rows; the streaming query stops
after the record batch that reaches the limit, and sends all of that batch (`StreamLimit`).

## Model

| member | source | states |
|---|---|---|
| `BitPacking.PackedValueDigit` | lakesearch-core/src/posting.rs:85-110 | in the packed bytes, read as one little-endian number, value `i` sits at bit `i * width` |
| `BitPacking.WriteGuard` | lakesearch-core/src/posting.rs:98-107 | the bounds guard in the byte loop is never false: every byte a value touches lies inside the buffer |
| `BitPacking.PackOne` | lakesearch-core/src/posting.rs:93-108 | OR-ing one shifted value into the buffer byte by byte adds exactly that value at its bit position |
| `BitPacking.BitpackLoop` | lakesearch-core/src/posting.rs:85-110 | the in-place loop computes `BitPack` |
| `BitPacking.UnpackPack` | lakesearch-core/src/posting.rs:85-110 | unpacking what was packed gives the values back, for every width up to 32 and every byte alignment |
| `BitPacking.BitunpackLoop` | lakesearch-core/src/posting.rs:208-233 | the gathering loop computes `BitUnpack`, whatever the data |
| `BitPacking.UnpackedDigit` | lakesearch-core/src/posting.rs:208-233 | whatever the data, and however short: for widths up to 56, value `i` is the digit at bit `i * width` of the number the bytes denote, or its low 32 bits |
| `Posting.ReconstructDeltas` | lakesearch-core/src/posting.rs:28-40 | prefix sums invert deltas, with 32-bit wrap-around |
| `Posting.LeastWidth` | lakesearch-core/src/posting.rs:41-46 | the bit width holds every delta and is the least that does |
| `Posting.EncodeBlockLoop` | lakesearch-core/src/posting.rs:28-82 | the imperative block writer appends exactly `EncodeBlock` |
| `Posting.EncodeLoop` | lakesearch-core/src/posting.rs:16-26 | the chunk loop computes `Encode` |
| `Posting.DecodeBlockLoop` | lakesearch-core/src/posting.rs:138-205 | the block reader computes `DecodeBlock` on every input, errors included |
| `Posting.DecodeLoop` | lakesearch-core/src/posting.rs:117-124 | decoding ends on every input and computes `Decode` |
| `Posting.DecodeEncodeBlock` | lakesearch-core/src/posting.rs:138-205 | a block followed by anything decodes to its ids and its own length, compressed or not |
| `Posting.RoundTrip` | lakesearch-core/src/posting.rs:16-124 | `decode(encode(ids)) == ids` for every list of 32-bit ids |
| `Posting.TruncationIsDetected` | lakesearch-core/src/posting.rs:117-163 | a list cut off at any byte decodes exactly when the cut is at a block boundary, and then to precisely the ids of the blocks before it; any other cut is an error |
| `Posting.BlockStartsAreBoundaries` | lakesearch-core/src/posting.rs:16-26 | those boundaries include the start of every block, and the cut at the start of block `b` is before block `b` |
| `Posting.BlockSize` | lakesearch-core/src/posting.rs:41-81 | a block of `n` ids takes at most `14 + 4n` bytes |
| `Posting.FieldsFit` | lakesearch-core/src/posting.rs:66-79 | no header field is truncated by its cast |
| `Posting.EncodedSize` | lakesearch-core/src/posting.rs:16-82 | an encoded list takes at most `4n + 14 * ceil(n / 128)` bytes |
| `Posting.BlockMinimum` | lakesearch-core/src/posting.rs:129-136 | the header at the start of block `b` yields the first id of that block |
| `Posting.BlockMinimaIncrease` | lakesearch-core/src/posting.rs:126-136 | on a strictly increasing list the block minima are strictly increasing |
| `Posting.BlockLayout` | lakesearch-core/src/posting.rs:28-82 | the bytes of a block: count, first id, least width, flag, sizes, then the packed deltas, compressed exactly when they take 32 bytes or more and compression makes them shorter |
| `Posting.DecodeBlockCases` | lakesearch-core/src/posting.rs:138-205 | a block of any data: which error in which case, or as many ids as the header says, summed up from its minimum modulo 2^32, and where the next block starts |
| `BooleanOps.Intersect` | lakesearch-core/src/boolean.rs:11-26 | the sorted duplicate-free list of common ids |
| `BooleanOps.Union` | lakesearch-core/src/boolean.rs:30-53 | the sorted duplicate-free list of ids in either |
| `BooleanOps.Difference` | lakesearch-core/src/boolean.rs:57-80 | the sorted duplicate-free list of ids in the first only |
| `Sorting.SortDedup` | lakesearch-query/src/query/evaluate.rs:105-109 | sorting by key and removing equal neighbours leaves strictly increasing keys and exactly the keys that were there |
| `Sorting.SortedKeys` | lakesearch-indexer/src/lib.rs:411-412 | the keys of a map in strictly increasing order, each once |
| `Utf8Encoding.CodePointOrderIsByteOrder` | lakesearch-core/src/segment/build.rs:115-149 | comparing strings by code point compares their UTF-8 encodings byte by byte, as the dictionaries do |
| `Tokenizer.TokenIffRun` | lakesearch-core/src/tokenizer.rs:33-100 | a token is emitted exactly for the maximal runs of token characters that the emitter accepts |
| `Tokenizer.AsciiTokenIffRun` | lakesearch-core/src/tokenizer.rs:33-70 | on ASCII text: exactly the lowercased maximal alphanumeric runs of at most 256 bytes |
| `Tokenizer.TokenizeLoop` | lakesearch-core/src/tokenizer.rs:22-100 | the scanning loop and the dispatch compute `Tokenize`, which `TokenizeInOrder` describes run by run |
| `Tokenizer.FastPathAgrees` | lakesearch-core/src/tokenizer.rs:22-28 | on ASCII text the fast path and the Unicode path emit the same tokens |
| `Tokenizer.UnicodeTokenIffRun` | lakesearch-core/src/tokenizer.rs:72-100 | on any text the Unicode path emits exactly the lowercased maximal runs of the composed text that are not empty and take at most 256 bytes of UTF-8 |
| `Tokenizer.TokenizeInOrder` | lakesearch-core/src/tokenizer.rs:22-100 | the token list is one token for each such run, in the order of the text, repetitions included |
| `Tokenizer.AsciiTables` | lakesearch-core/src/tokenizer.rs:33-70 | which characters count as ASCII, as alphanumeric and as upper case, and what each is lowered to |
| `ParquetUtil.DocIdOrder` | lakesearch-core/src/parquet_util.rs:89-153 | doc ids follow the order of files, row groups and pages |
| `ParquetUtil.DocIdsAreDense` | lakesearch-core/src/parquet_util.rs:100-146 | every id below the number of pages belongs to exactly one page |
| `ParquetUtil.BuildPageInventory` | lakesearch-core/src/parquet_util.rs:89-153 | the doc table holds each page at its id with the right file, group, page, first row and row count; the page lists agree |
| `ParquetUtil.PageHoldsRow` | lakesearch-core/src/parquet_util.rs:29-35 | the binary search finds the one page whose row range holds the row; the ranges of a row group partition its rows |
| `ParquetUtil.BuildRowSelection` | lakesearch-core/src/parquet_util.rs:157-178 | the skip/select runs expand to exactly one flag per row, set exactly on the rows of the given pages |
| `Indexer.AdvancePage` | lakesearch-indexer/src/lib.rs:353-356 | the moving page pointer stops at the page that holds the row |
| `Indexer.PointerIsPage` | lakesearch-indexer/src/lib.rs:338-356 | that page is the one the binary search of `doc_id_for_row` picks |
| `Indexer.IndexOneRow` | lakesearch-indexer/src/lib.rs:350-380 | one row adds each of its distinct terms to its page once and to the frequency once; a null row adds nothing |
| `Indexer.IndexBatches` | lakesearch-indexer/src/lib.rs:328-389 | across record batches and null rows: each term's list is the increasing list of pages with a row that has it, its frequency the number of such rows, and the row and token counts are exact |
| `BatchIndex.MergeLists` | lakesearch-indexer/src/lib.rs:192-195 | merging a row group appends its lists to the merged ones |
| `BatchIndex.AddCounts` | lakesearch-indexer/src/lib.rs:196-198 | merging a row group adds its frequencies to the merged ones |
| `BatchIndex.IndexFiles` | lakesearch-indexer/src/lib.rs:186-207 | after all row groups and the final sort and dedup the index is exact for the whole batch of files |
| `BatchIndex.IndexMeaning` | lakesearch-indexer/src/lib.rs:186-207 | page `d` is in a term's list exactly when some row stored on page `d` has the term |
| `Counting.FrequencyCountsRows` | lakesearch-indexer/src/lib.rs:328-389 | a term's frequency is the number of rows of the batch that have it |
| `Counting.TotalCountsRows` | lakesearch-indexer/src/lib.rs:186-207 | the total of rows is the number of rows of the batch |
| `Counting.TotalCountsTokens` | lakesearch-indexer/src/lib.rs:186-207 | the total of tokens is the length of all rows' token lists together |
| `IndexRun.CountersStayInRange` | lakesearch-indexer/src/lib.rs:328-389 | no frequency exceeds the number of rows, so the 32-bit counters suffice for fewer than 2^32 rows |
| `IndexRun.RunIndex` | lakesearch-indexer/src/lib.rs:115-228 | inventory, indexing, merge and build together produce the bytes of a segment that holds exactly what the files say, with its least and greatest term |
| `IndexRun.PostingLengthsFit` | lakesearch-core/src/segment/build.rs:104-113 | with fewer than 858 million pages no posting list overflows its 32-bit length field |
| `IndexRun.IndexIsReadable` | lakesearch-indexer/src/lib.rs:115-228 | a run over a batch within bounds on files, path bytes, pages, terms and total size yields a segment none of whose fields is truncated |
| `SegmentFormat.ReverseEntriesCorrect` | lakesearch-core/src/segment/build.rs:127-149 | the reverse map has strictly increasing keys and pairs each reversed term with its forward ordinal |
| `SegmentFormat.SuffixIsReversedPrefix` | lakesearch-core/src/segment/read.rs:145-167 | a term ends with a suffix exactly when its reversal starts with the reversed suffix |
| `SegmentBuild.SegmentBuilder.constructor` | lakesearch-core/src/segment/build.rs:25-35 | a new builder has no terms, tables or counts |
| `SegmentBuild.SegmentBuilder.AddTerm` | lakesearch-core/src/segment/build.rs:41-43 | the term has the given entry, in place of any it had, and nothing else changes |
| `SegmentBuild.SegmentBuilder.SetDocTable` | lakesearch-core/src/segment/build.rs:46-48 | the doc table is replaced and nothing else changes |
| `SegmentBuild.SegmentBuilder.SetFileTable` | lakesearch-core/src/segment/build.rs:51-53 | the file table is replaced and nothing else changes |
| `SegmentBuild.SegmentBuilder.SetCorpusStats` | lakesearch-core/src/segment/build.rs:56-58 | the statistics are replaced and nothing else changes |
| `SegmentBuild.SegmentBuilder.SortedTerms` | lakesearch-core/src/segment/build.rs:76-81 | the terms in strictly increasing order |
| `SegmentBuild.SegmentBuilder.Build` | lakesearch-core/src/segment/build.rs:61-194 | appending section by section and tracking offsets yields exactly `SegmentBytes`, footer offsets included |
| `SegmentBuild.WriteFileTable` | lakesearch-core/src/segment/build.rs:203-226 | the record loop and the string pool yield the file-table section |
| `SegmentBuild.WritePostings` | lakesearch-core/src/segment/build.rs:83-113 | the posting section is the concatenation of the encoded lists, and each recorded slice is its list's |
| `SegmentBuild.WriteTermInfos` | lakesearch-core/src/segment/build.rs:151-157 | one 16-byte record per term, in order |
| `SegmentBuild.WriteDocTable` | lakesearch-core/src/segment/build.rs:159-168 | one 20-byte record per page, in order |
| `SegmentRead.ParseTermInfoTableLoop` | lakesearch-core/src/segment/read.rs:254-305 | the parsing loop computes `ParseTermInfoTable` on every input |
| `SegmentRead.ParseDocTableLoop` | lakesearch-core/src/segment/read.rs:307-338 | the parsing loop computes `ParseDocTable` on every input |
| `SegmentRead.ParseFileTableLoop` | lakesearch-core/src/segment/read.rs:340-394 | the parsing loop computes `ParseFileTable` on every input, the first bad record deciding the error |
| `SegmentRead.DocTableParses` | lakesearch-core/src/segment/read.rs:307-338 | the parser inverts the doc-table writer wherever the section lies |
| `SegmentRead.TermInfoTableParses` | lakesearch-core/src/segment/read.rs:254-305 | the parser inverts the term-info writer, at the offset derived from another section's length |
| `SegmentRead.FileTableParses` | lakesearch-core/src/segment/read.rs:340-394 | the parser inverts the file-table writer |
| `SegmentRead.FstParses` | lakesearch-core/src/segment/read.rs:234-252 | the length-prefixed map is read back |
| `SegmentRead.FooterParses` | lakesearch-core/src/segment/read.rs:214-232 | the last 56 bytes give back every offset, the counts and the checksum |
| `SegmentRead.SuffixTerms` | lakesearch-core/src/segment/read.rs:150-167 | the range walk and reversal loop computes the reversed hits in order |
| `SegmentLayout.FileEdges` | lakesearch-core/src/segment/build.rs:61-194 | the file starts with `LKSR` and version 1 and ends with the checksum of everything before it and `LKSR` |
| `SegmentLayout.DocRecordLayout` | lakesearch-core/src/segment/build.rs:159-168 | the bytes of a doc-table record, number by number |
| `SegmentLayout.TermInfoLayout` | lakesearch-core/src/segment/build.rs:151-157 | the bytes of a term-info record, number by number |
| `SegmentLayout.FileRecordLayout` | lakesearch-core/src/segment/build.rs:203-226 | the bytes of a file record, number by number |
| `SegmentLayout.OpenCases` | lakesearch-core/src/segment/read.rs:38-88 | opening any bytes: the checks in their order with their errors, then the sections at the footer's offsets, the first that fails deciding the error |
| `SegmentLayout.DocTableCases` | lakesearch-core/src/segment/read.rs:307-338 | any bytes: too short exactly when the count or the records do not fit, or one entry per record |
| `SegmentLayout.TermInfoTableCases` | lakesearch-core/src/segment/read.rs:254-305 | the same for the table whose place is derived from the reverse dictionary's length |
| `SegmentLayout.FileTableCases` | lakesearch-core/src/segment/read.rs:340-394 | any bytes: the entries of all records, or the error of the first bad one |
| `SegmentLayout.PostingListCases` | lakesearch-core/src/segment/read.rs:103-118 | any reader: a bad ordinal, a slice outside the file, or what the codec makes of the slice |
| `SegmentRoundTrip.NamedSections` | lakesearch-core/src/segment/build.rs:61-194 | every section lies at the offset the reader uses for it, the unstored term-info offset included |
| `SegmentRoundTrip.PostingSlicesTile` | lakesearch-core/src/segment/build.rs:104-113 | the terms' slices tile the posting section: consecutive, without gap or overlap |
| `SegmentRoundTrip.OpenBuilt` | lakesearch-core/src/segment/read.rs:38-88 | opening a built segment succeeds and recovers the tables, the statistics, both maps, and every term's ids and frequency |
| `SegmentRoundTrip.DamageIsDetected` | lakesearch-core/src/segment/read.rs:46-66 | bytes damaged before the checksum are refused unless the checksums collide |
| `SegmentRoundTrip.SearchRecovered` | lakesearch-core/src/segment/read.rs:92-126 | searching a term it was built with yields exactly its ids; any other term yields none |
| `SegmentRoundTrip.SuffixSearchExact` | lakesearch-core/src/segment/read.rs:150-167 | suffix search returns exactly the (term, ordinal) pairs whose term ends with the suffix, each once |
| `Evaluate.CombineHits` | lakesearch-query/src/query/evaluate.rs:54-71 | folding in the order of the frequency sort, with its swap-remove, yields the increasing intersection or union |
| `Evaluate.EvaluateSegment` | lakesearch-query/src/query/evaluate.rs:27-76 | candidates are the set intersection or union of the terms' lists, whatever the order of the terms and however often one is repeated; an AND with a missing term yields none |
| `IndexedSegment.EvaluateRecovered` | lakesearch-query/src/query/evaluate.rs:27-76 | on the opened segment: the pages that satisfy the query, and the query terms it has in query order, repetitions included, each with its frequency; nothing when an AND misses a term |
| `Evaluate.GroupCandidates` | lakesearch-query/src/query/evaluate.rs:83-121 | one work item per row group with a candidate, its pages in row order |
| `Evaluate.GroupingIsExact` | lakesearch-query/src/query/evaluate.rs:94-110 | grouping loses no candidate page and invents none |
| `Evaluate.ItemOrder` | lakesearch-query/src/query/evaluate.rs:94-121 | the work items come in the order of file ordinals and, within a file, of row groups |
| `Verify.MatchesPredicate` | lakesearch-query/src/query/verify.rs:218-236 | the any/all scans decide whether the tokens satisfy the query |
| `Verify.VerifyRows` | lakesearch-query/src/query/verify.rs:164-211 | the row loop keeps exactly the non-null rows that pass the pre-filter and match, and counts them |
| `Verify.CombineMasks` | lakesearch-query/src/query/verify.rs:133-150 | the fold of the term masks is the AND or OR of the containment tests |
| `Verify.BruteForceVerifyBatch` | lakesearch-query/src/query/verify.rs:126-158 | keeps exactly the rows that pass the combined mask and match |
| `Verify.BruteKeepsIff` | lakesearch-query/src/query/verify.rs:126-158 | whatever the text: a row is kept exactly when the column is `Utf8`, the row is not null, `ILIKE` holds for all (some) query terms, and its tokens have all (some) of them |
| `Verify.AsciiRowPasses` | lakesearch-query/src/query/verify.rs:126-158 | an ASCII row that matches contains the query terms as text, so the substring masks keep it |
| `Verify.BruteForceIsFullScan` | lakesearch-query/src/query/verify.rs:126-158 | on a batch of ASCII rows brute force equals a full tokenizing scan exactly when the column is `Utf8` or nothing matches |
| `Verify.CombiningRowIsDropped` | lakesearch-query/src/query/verify.rs:133-158 | a row with a combining character that matches but is dropped by the raw substring mask |
| `Work.BatchBoundariesDoNotMatter` | lakesearch-query/src/query/verify.rs:116-158 | verifying a row group record batch by record batch keeps the same rows as verifying it as one, on the indexed and on the brute-force path |
| `Output.BuildOutputBatch` | lakesearch-query/src/query/verify.rs:256-293 | the field loop yields one column per field, all of one length, or `try_new` fails: exactly when some field got no column or one of another length |
| `Output.RebuildsIff` | lakesearch-query/src/query/verify.rs:256-293 | a batch with a match can be built exactly when no selected column is called `text` or `score` and it is not an unscored batch of a scored query |
| `Output.QueryRebuildsIff` | lakesearch-query/src/query/mod.rs:252-270 | over all units and record batches of a query: no panic exactly when nothing is kept, or the names are free and the mode does not score indexed rows only with a scanned row kept |
| `Output.ScoreIndexedPanics` | lakesearch-query/src/query/mod.rs:252-253 | a file indexed only for another column, with one matching row, and scores for indexed rows only: the CPU task panics |
| `Plan.CollectFiles` | lakesearch-query/src/query/plan.rs:50-68 | the first pass gathers the snapshot's files, the column's entries and the prunable manifests |
| `Plan.PlanQuery` | lakesearch-query/src/query/plan.rs:27-111 | the plan searches the unpruned segments in order and scans exactly the snapshot files that no manifest of the column indexes, pruned or not |
| `IndexedSegment.PruneIsExact` | lakesearch-query/src/query/plan.rs:114-127 | for AND and OR: a segment is pruned exactly when no segment with these term bounds has a page that satisfies the query; one without terms is never pruned |
| `IndexedSegment.BuildSegment` | lakesearch-indexer/src/lib.rs:401-438 | the segment written holds the index and the inventory, and the reported terms bound its dictionary |
| `IndexedSegment.LookupsRecovered` | lakesearch-query/src/query/evaluate.rs:35-48 | the dictionary lookups of a query on the opened segment are those of the index |
| `IndexedSegment.LookupsMean` | lakesearch-query/src/query/evaluate.rs:35-71 | the combined hits contain a page exactly when its postings satisfy the query |
| `IndexedSegment.PrunedHasNoMatch` | lakesearch-query/src/query/plan.rs:114-127 | a segment pruned by its least and greatest term has no candidate page |
| `Search.SearchGroup` | lakesearch-query/src/query/pipeline.rs:207-243 | reading a work item's pages and verifying them keeps exactly the matching rows on those pages |
| `Search.ScanGroup` | lakesearch-query/src/query/pipeline.rs:289-318 | scanning a row group keeps exactly the rows of the brute-force mask |
| `Search.PostingIffRow` | lakesearch-indexer/src/lib.rs:328-389 | a page is in a term's posting list exactly when one of its rows has the term |
| `Search.MatchesIff` | lakesearch-query/src/query/verify.rs:164-236 | a row matches exactly when the terms that indexing finds in it satisfy the query |
| `Search.MatchingRowIsCandidate` | lakesearch-query/src/query/evaluate.rs:27-76 | page pruning never loses a matching row |
| `Search.MatchingRowIsCovered` | lakesearch-core/src/parquet_util.rs:157-178 | every matching row of a work item's group is selected |
| `Search.ItemInOrder` | lakesearch-core/src/parquet_util.rs:157-178 | the pages of a work item are sorted and disjoint, as the row selection needs |
| `Search.ItemEntriesExact` | lakesearch-query/src/query/evaluate.rs:83-121 | a work item's pages are exactly the candidate pages of its row group |
| `SegmentSearch.SearchItem` | lakesearch-query/src/query/pipeline.rs:182-246 | one work item yields exactly the matching rows of its row group |
| `SegmentSearch.PlanItems` | lakesearch-query/src/query/evaluate.rs:27-121 | over a batch of files: each work item carries the query terms that some row has, in query order, each with the number of rows that have it, and the batch's totals of rows and tokens |
| `SegmentSearch.SearchSegment` | lakesearch-query/src/query/mod.rs:157-183 | evaluating, grouping, reading and verifying one segment yields exactly the matching rows of its files, each once |
| `EndToEnd.PlanOnSnapshot` | lakesearch-query/src/query/plan.rs:50-95 | on a published snapshot the plan searches the segments of the unpruned batches and treats as indexed exactly the files of the column's batches |
| `EndToEnd.MatchIsLive` | lakesearch-query/src/query/plan.rs:114-127 | a batch that holds a matching row is never pruned |
| `EndToEnd.SearchSegments` | lakesearch-query/src/query/mod.rs:157-183 | the planned segments together yield exactly the matching rows of their files, each once |
| `EndToEnd.ScanFiles` | lakesearch-query/src/query/pipeline.rs:249-320 | the unindexed files together yield exactly the rows of the brute-force mask, each once |
| `EndToEnd.QuerySnapshot` | lakesearch-query/src/query/mod.rs:139-188 | a query over a snapshot: no row twice, only matches, and every match in an indexed file or an ASCII `Utf8` unindexed file |
| `EndToEnd.ScanKeepsIff` | lakesearch-query/src/query/pipeline.rs:249-320 | what the scans of a query keep, row by row: snapshot, not indexed for the column, `Utf8`, not null, `ILIKE` for all (some) terms and tokens with all (some) |
| `Cas.FindColumn` | lakesearch-indexer/src/lib.rs:71-75 | the first column of that name; none exactly when the table has no such column |
| `Cas.RoundsAreTheCheck` | lakesearch-core/src/cas.rs:123-135 | the worker's check, one read at a time, decides what the reading loop decides, an unreadable list included |
| `Cas.IsBatchDuplicate` | lakesearch-core/src/cas.rs:123-135 | true exactly when some readable list is of the batch and all before it are readable and of other batches; false exactly when all are readable and of other batches |
| `CasSafety.StepKeeps` | lakesearch-core/src/cas.rs:29-120 | the protocol's invariant survives every step of every worker, every crash and every poll |
| `CasSafety.SwapCommits` | lakesearch-core/src/cas.rs:43-90 | a successful conditional PUT adds the worker's list to the current snapshot, which had no list of that batch |
| `CasSafety.CheckOk` | lakesearch-core/src/cas.rs:103-113 | the duplicate check, one read at a time between other workers' steps, reports a duplicate only for a committed batch |
| `CasSafety.SnapshotIsLog` | lakesearch-core/src/cas.rs:43-90 | the current snapshot is exactly the committed lists in commit order |
| `CasSafety.HistoryOnlyAppends` | lakesearch-core/src/cas.rs:43-117 | no lost update: from any point of a run to any later one the snapshot only grows at its end |
| `CasSafety.StepAppends` | lakesearch-indexer/src/lib.rs:299-313 | one step changes the snapshot only by appending the list of the worker that commits |
| `CasSafety.NoBatchTwice` | lakesearch-core/src/cas.rs:101-113 | in every reachable state all lists of the snapshot can be read and no two are of one batch |
| `CasSafety.SuccessIsVisible` | lakesearch-indexer/src/lib.rs:66-313 | a worker that returned success has its batch in the snapshot, then and ever after |
| `CasColumns.DoneCoversIff` | lakesearch-indexer/src/lib.rs:80-86 | in any run, a worker that reports success has its files indexed for its column exactly when the author of the batch's one commit was working for that column |
| `CasColumns.NoNearer` | lakesearch-core/src/cas.rs:43-119 | a worker that can no longer commit (finished, column not usable, or out of conflicts) never can again, whatever anybody does |
| `CasColumns.RunsAndCommits` | lakesearch-core/src/cas.rs:43-119 | every other worker whose batch is not committed does commit if it runs alone, at its first conditional PUT or the one after |
| `CasColumns.FindsDuplicate` | lakesearch-indexer/src/lib.rs:80-86 | a worker that starts when its batch is committed, for whatever column, reports success and commits nothing |
| `CasColumns.SuccessCoversIff` | lakesearch-indexer/src/lib.rs:66-313 | at any point of any run: a worker about to start has its files indexed for its column whenever it reports success, in every continuation, if and only if its column cannot be used, or its files are indexed for it already, or they are committed for no column and no worker that can still commit them is working for another |
| `CasColumns.SecondColumnIsSkipped` | lakesearch-core/src/storage.rs:159-171 | two workers with the same files and different columns of a new table: a run in which both report success and only the first one's column is indexed |
| `CasSafety.ConflictsAreOthersCommits` | lakesearch-core/src/cas.rs:91-114 | each conflict of a worker is charged to the commit of another worker, no worker twice |
| `CasSafety.ConflictBound` | lakesearch-core/src/cas.rs:16-119 | with `n` workers nobody conflicts more than `n - 1` times, and with at most five none gives up |
| `CasSharp.Drive` | lakesearch-core/src/cas.rs:43-114 | from any reachable state a worker whose batch is not committed, running alone, comes to its conditional PUT or has used up its conflicts; its ETag is current if it was before |
| `CasSharp.BoundIsSharp` | lakesearch-core/src/cas.rs:16-119 | from any new table with up to six workers there is a schedule in which one conflicts with every other; with six it gives up |
| `CasGiveUp.GiveUpIff` | lakesearch-core/src/cas.rs:16-119 | from a new table, with any number of workers, some run ends in "too many conflicts" if and only if six workers have usable columns and batches that differ from each other |
| `CasSafety.SnapshotIntact` | lakesearch-indexer/src/lib.rs:230-313 | at every point of every run, crashes included, everything reached from `current.json` exists and never changes |
| `CasSafety.ReadsSucceed` | lakesearch-core/src/cas.rs:98-106 | no worker ever finds metadata or a manifest list missing |
| `CasSafety.ColumnsAreChecked` | lakesearch-indexer/src/lib.rs:70-78 | a worker gets past the first read, and so commits, only for a column the table has and has not dropped |
| `CasSafety.ColumnErrors` | lakesearch-indexer/src/lib.rs:70-78 | a worker fails for a missing column only when the table has none of that name, and for a dropped one only when the first of that name is dropped |
| `CasSafety.ColumnUsableIff` | lakesearch-indexer/src/lib.rs:70-78 | a column can be used when the first of that name is active or backfilling |
| `CasSafety.WorkerTerminates` | lakesearch-core/src/cas.rs:43-119 | each operation of a worker brings it closer to its end, whatever the others do, and conflicts never exceed five |
| `CasSafety.CacheIsAVersion` | lakesearch-query/src/server/cache.rs:52-71 | the cached metadata is what its path holds, and its lists are a prefix of the current snapshot's |
| `CasSafety.CacheNeverGoesBack` | lakesearch-query/src/server/cache.rs:126-156 | once an entry is held there is always one, and later entries extend earlier ones |
| `CasSafety.PollCatchesUp` | lakesearch-query/src/server/cache.rs:126-156 | a poll that no commit interferes with leaves the cache holding the current snapshot |
| `MetadataCaching.MetadataCache.RegisterWithStore` | lakesearch-query/src/server/cache.rs:52-71 | the table's entry becomes what was fetched; on failure nothing changes |
| `MetadataCaching.MetadataCache.RefreshOne` | lakesearch-query/src/server/cache.rs:126-156 | nothing changes when the pointer has not moved or the read fails; otherwise path and metadata are replaced together |
| `MetadataCaching.RefreshIsPolling` | lakesearch-query/src/server/cache.rs:126-156 | what the cache's methods do to a table is what one or two polling steps of the protocol do to it |
| `MetadataCaching.RefreshNeverGoesBack` | lakesearch-query/src/server/cache.rs:126-156 | a refresh whose two reads have commits before, between and after them succeeds and leaves precisely the version the pointer was at; the lists held before are a prefix of its lists, and those of the snapshot's |
| `CommittedSearch.IndexedIsProduced` | lakesearch-indexer/src/lib.rs:115-313 | what an indexing run builds from a batch within the format's bounds is what the commit protocol and the query need of a worker's job |
| `CommittedSearch.CommitIsPublished` | lakesearch-indexer/src/lib.rs:230-313 | the files behind a commit are those of the batch its worker indexed; for the queried column they are the lake's |
| `CommittedSearch.VersionIsSnapshot` | lakesearch-indexer/src/lib.rs:230-313 | every version of the table is a snapshot of indexed batches, with manifests of their own and no file indexed twice for the queried column; jobs of other columns may share its files and hold other text |
| `CommittedSearch.QueryTable` | lakesearch-query/src/query/plan.rs:34-111 | a query that reads the pointer (or takes the cached path) at any moment of any run, and the objects at any later moment, finds every object; the rows kept of the row groups it reads answer it exactly, in the sense of `EndToEnd.QuerySnapshot`, for that version of the table, and scanning keeps precisely the rows of its unindexed files that pass mask and predicate |
| `PipelineSafety.StepKeeps` | lakesearch-query/src/query/pipeline.rs:38-472 | conservation, order, batch sizes and channel bounds survive every step of every stage |
| `PipelineSafety.CollectInput` | lakesearch-query/src/query/pipeline.rs:351-369 | collecting a task moves its rows, and only them, to the collected ones and counts them |
| `PipelineSafety.BreakInput` | lakesearch-query/src/query/pipeline.rs:383-384 | the dispatcher leaves its loop only when every row has been collected |
| `PipelineSafety.SendersWaitWhenFull` | lakesearch-query/src/query/pipeline.rs:57-59 | each channel holds sixteen batches: a sender waits exactly while its channel is full |
| `PipelineSafety.CompletedGoFirst` | lakesearch-query/src/query/pipeline.rs:347-372 | the biased select: while a completed task waits, the dispatcher collects one and pulls nothing new |
| `PipelineSafety.Progress` | lakesearch-query/src/query/pipeline.rs:55-460 | with at least one I/O permit and one CPU thread no reachable state is stuck, consumer giving up not counted |
| `PipelineSafety.StepWorks` | lakesearch-query/src/query/pipeline.rs:117-460 | every step, early return and a dropped receiver included, lowers a natural number |
| `PipelineSafety.RunIsShort` | lakesearch-query/src/query/pipeline.rs:117-460 | every run is finite, with a bound computed from its first state |
| `PipelineSafety.OnlyMatchesArrive` | lakesearch-query/src/query/pipeline.rs:346-460 | at any moment the consumer has a prefix of the collected matching rows |
| `PipelineSafety.Delivery` | lakesearch-query/src/query/pipeline.rs:346-472 | a drained run delivers exactly `rows_matched` rows: all matches, or at least the early limit; all batches but the last have 8192 rows or more |
| `PipelineSafety.StopsAtLimit` | lakesearch-query/src/query/pipeline.rs:351-369 | nothing is collected once the early limit is reached, so a query overshoots it by less than one record batch |
| `Rank.NonEmptyFlattens` | lakesearch-query/src/query/rank.rs:14-20 | dropping empty batches loses no row |
| `Rank.UnscoredKeepsFirst` | lakesearch-query/src/query/rank.rs:48-52 | without scores the result is the first `min(limit, n)` rows |
| `Rank.ScoredKeepsBest` | lakesearch-query/src/query/rank.rs:32-47 | with scores the result is a best selection in descending order of the numbers, rows without a score last: what is left out scores no higher than anything kept |
| `CollectedQuery.UnscoredIsExact` | lakesearch-query/src/query/mod.rs:378-446 | an unscored collected query returns exactly `min(limit, matches)` matching rows, all of them without a limit, whatever the schedule |
| `CollectedQuery.BestOfFed` | lakesearch-query/src/query/rank.rs:32-47 | with scores, whatever the schedule: the best `min(limit, n)` of the rows fed to the pipeline, best first |
| `Streaming.StreamMayExceedLimit` | lakesearch-query/src/query/mod.rs:363-369 | the streaming query does not truncate: with any number of permits and threads, a run in which the consumer gets more rows than the limit |
| `Streaming.OvershootBound` | lakesearch-query/src/query/pipeline.rs:351-369 | at any moment of any run the consumer has fewer than one record batch of rows beyond a limit above zero, and at most one record batch when the limit is zero |
| `Streaming.RunsToItsEnd` | lakesearch-query/src/query/pipeline.rs:38-93 | every run whose consumer has not gone away can be followed until everything has stopped |
| `QueryRun.GroupByFile` | lakesearch-query/src/query/pipeline.rs:108-116 | the grouping loop maps each file to its work items in order, and has no empty group |
| `QueryRun.SpawnTasks` | lakesearch-query/src/query/pipeline.rs:96-172 | one task for each group, in whatever order the map yields them |
| `QueryRun.TasksCarry` | lakesearch-query/src/query/pipeline.rs:96-172 | the tasks bring to the pipeline exactly the rows kept of all units, however files are ordered and cut into record batches |
| `QueryRun.Launch` | lakesearch-query/src/query/mod.rs:139-269 | planning, evaluation, reading and spawning for a table seen at any moment of any run: the pipeline starts with tasks whose kept rows answer the query |
| `QueryRun.PreparedRows` | lakesearch-query/src/query/mod.rs:193-269 | the pipeline is fed exactly the rows that planning and verification select from the table |
| `QueryRun.PanicsIff` | lakesearch-query/src/query/verify.rs:256-293 | for a table: no CPU task panics exactly when nothing is kept, or no selected column is called `text` or `score` and, with scores for indexed rows only, no row of an unindexed file passes mask and predicate |
| `QueryRun.UnscoredAnswer` | lakesearch-query/src/query/mod.rs:378-446 | an unscored collected query over a table, whatever the schedule: `min(limit, n)` of the `n` selected rows, each a match of the snapshot and none twice, and the whole answer without a limit |
| `QueryRun.AllMatchesSelected` | lakesearch-query/src/query/mod.rs:378-446 | when every file of the snapshot is indexed for the column or can be scanned exactly, the selected rows are the matches of the snapshot |
| `QueryRun.UnscoredReturnsExactly` | lakesearch-query/src/query/mod.rs:378-446 | then the collected query returns exactly `min(limit, total matches)` distinct matching rows |
| `QueryRun.ScoredIsBest` | lakesearch-query/src/query/mod.rs:378-446 | a scored collected query over a table in which no CPU task panics: the best `min(limit, n)` of the `n` selected rows, best first |
| `StreamLimit.BigOvershoots` | lakesearch-query/src/query/pipeline.rs:351-369 | a schedule that sends too much: everything is read first, single rows are verified while the limit leaves room, and then a record batch of at least two rows (of one, when the limit is zero) |
| `StreamLimit.StreamKeepsLimitIff` | lakesearch-query/src/query/mod.rs:281-369 | over a table, for every order of the files, every cut into record batches, every number of permits and threads and every schedule, the streaming unscored query sends at most `limit` rows, if and only if it keeps at most `limit`, or the limit is not zero and every row group that is read keeps at most one, or a selected column is called `text` or `score` (then it panics, or keeps nothing) |

## Left out

- Posting.RoundTrip: LZ4 is a parameter whose decompression inverts its compression; what a corrupt compressed block decodes to is not modelled.
- EndToEnd.QuerySnapshot: completeness on unindexed files is stated for ASCII text in `Utf8` columns, because raw `ILIKE` is not aligned with NFC and the brute-force path keeps nothing of a `LargeUtf8` column; `Verify.CombiningRowIsDropped` is an input that shows it.
- EndToEnd.QuerySnapshot: needs what makes exactness possible: within a column no file is indexed by two batches, paths within a batch are distinct, the page starts of a row group begin at zero and increase, and counts fit the casts at `lakesearch-core/src/parquet_util.rs:103` and `118-131`.
- CommittedSearch.QueryTable: the segment of every job must be encodable (its sizes fit the format's 32- and 64-bit fields, see `IndexRun.IndexIsReadable`), and batches of the queried column with different ids must have different files; of jobs for other columns nothing is asked of their files.
- CasSafety.ConflictBound: every store honours the conditional PUT and returns an ETag; the unconditional fallback, the missing-ETag overwrite, backoff and jitter are left out.
- CasSafety.StepKeeps: the retry loop of `commit_metadata` and the indexing run around it are modelled as the steps of a state machine, not as one imperative method, because other workers act between any two store operations; ETags and UUID-based names never repeat.
- CasSafety.ConflictsAreOthersCommits: a conditional PUT and its answer are one step; a PUT that the store applied but answered with a failed precondition after a retry inside the store client, which would charge a worker's own commit to it, is not modelled.
- CasColumns.SuccessCoversIff: a batch id stands for the files it is the hash of; two different sets of files with one hash are not modelled.
- CasSafety.CacheNeverGoesBack: one polling task; two overlapping polls of one table are not modelled.
- PipelineSafety.Delivery: errors injected by producers and a failing concatenation in the coalescer do not happen, and the output batch of every record batch can be built; `QueryRun.PanicsIff` says exactly when that is so. What the stages do after a CPU task has panicked is not modelled.
- Output.RebuildsIff: only names and lengths of columns decide; the selected columns are distinct, exist in every file and have the schema's types there.
- QueryRun.SpawnTasks: an unindexed file without a row group gets no task; in the code it gets one that sends nothing.
- StreamLimit.StreamKeepsLimitIff: record batches are cut in any way; the batch size of the Parquet reader is not modelled.
- PipelineSafety.Progress: the consumer receives whenever a batch is ready, or drops its receiver.
- Rank.ScoredKeepsBest: scores are ordered values, with a missing one last; BM25, its statistics and `f64` rounding are left out.
- SegmentSearch.PlanItems: the frequencies and totals that feed scoring are exact for each segment; their sum over the segments of a query, which scores unindexed files, is not modelled.
- SegmentRead.ParseFileTableLoop: offsets are unbounded integers; overflow of `usize` on a corrupt file is not modelled.
- Tokenizer.TokenizeLoop: the Unicode predicates, the case mapping and NFC are parameters that agree with ASCII.
- Segments that cannot be opened are dropped by the query with `.ok()`; the model's snapshots contain only segments that open.
- Parquet decoding, Arrow kernels, schemas and projections: a row group is a list of optional strings with page boundaries.
- HTTP, Flight, the command line, configuration, JSON, tracing and the demo scripts.
- Eviction in the object cache: cached objects are immutable, so only the store matters.
- Compaction, vacuum, catalogs, wildcard queries and the other features that `DESIGN.md` describes and the code does not have.
