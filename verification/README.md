# Textiplex, verified

A Dafny model of the Textiplex inverted-index search engine, with proofs of what the engine is for: an index says
exactly what its documents define, however it came about, and queries find and rank exactly what they should.

`dafny verify dfyconfig.toml` checks everything. Methods and functions model the Go code; ghost functions and predicates
specify it, and lemmas are about those. Code that works step by step in Go (loops, cursors, objects whose
fields change) is a method, with a class where the source has one; each such method is proved against a specification
function or predicate.

## The parts

**Levenshtein search** (`edit_distance`, `levenshtein`, `tokens`, `automata`). `EditDistance.Dist` is the row recurrence,
proved equal to the length of a shortest edit script. `LevenshteinMatch`, an automaton over two layers of flags, and the
row automaton `Levenshtein` are proved against it separately and then to agree. `Matches` seeks through the sorted token
table; no token within reach is skipped.

**Index** (`tables`, `blocks`, `documents`, `accumulate`, `build`). `Documents.OfDocuments` and `LengthsOfDocuments` are
the reference: what the documents define, one document after the other. `Build.IndexOf` says that tables are well formed
and mean just that. A *block* is one field as rows (token, entries, posting list); tables *laid out* from blocks have
every cursor and slice where the blocks before it end. Both `BuildFrom` and `Merge` lay out blocks.

**File format** (`codec`, `records`, `format`, `files`, `lists`, `regions`, `images`, `layout`, `saving`, `storage`).
`Images.Image` is the file of some tables for one order of the fields and one set of padding bytes; both are left open,
because Go's maps have no order and one write buffer is reused. Writers are proved to produce an image, the loader to read
back any image, and `Layout` says which byte of such a file holds what. The two cursors of the posting-list region are
proved to tile it. Storages are objects that keep what earlier calls left in them; the contracts of `BuildFrom`, `Load` and
`SaveTo` say what becomes of that.

**Merge** (`shifts`, `zipping`, `merged`, `merge_spec`, `merge_walk`, `merge_context`, `merge_fields`, `merge_passes`,
`merge`, `same_index`, `averages`, `merge_trees`, `fitting`, `segments`). `MergeSpec.MergeOf` says what a merge is in terms
of the two indexes alone.
The two passes, the pending queue and the header written last are modelled as the code has them. Building and merging
compute an average length by two formulas, `ratio.built` and `ratio.merged`; `Averages` gives both with the roundings of
IEEE 754, and proves when they agree; `MergeTrees` says which of them a field has after any number of merges.

**Queries** (`ranges`, `clauses`, `filter`, `scoring`, `field_score`, `lookups`, `bm25`, `bm25_values`, `bm25_scores`,
`hits`, `search`, `having`, `keywords`, `answers`, `field_answers`, `measures`, `bm25_answers`, `words`, `numeric`,
`numeric_ranges`, `fastlog`). `Having` says which document has which token; over it, in terms of the documents alone,
`Keywords` says what a keyword stands for, `Answers` what a query returns, `FieldAnswers` how a field ranks it, and
`BM25Answers` what BM25 gives it. Scores are trails: the sequence of what was added, so that the order of summation is part
of what is proved. `BM25Values` says what a trail is worth over exact reals, and `BM25Scores` that the trails a search
leaves are worth something.

**Parallel merge** (`writer`, `writer_inv`, `writer_runs`, `directory`). Goroutines, worker tokens, the error channel and
the directory as one step system in which every interleaving is a run. A pair reads its sources as they are when it loads
them, and drawing a name that is taken truncates the file behind it, under the mapping of whoever still reads it.
`Directories` adds the bytes of every file, and joins the protocol to what a merge of two files does.

`options`, `bytes`, `headers`, `bitmaps`, `collecting`, `listing`, `parsing` and `totals` hold what the others share.

## Where the code does not do what it seems to

Where a property fails, there is an input for which it does, and the exact condition under which it holds.

- Building over a storage that is not initialized but still has posting-list headers (storage/storage.go:314-317, 405, 452):
  it is not reset, the headers stay, and every token points behind them. Loading a segment and then a bare header leads
  there (`Segments.BareHeaderThenBuild`). `Storage.BuildFrom` states when the result is an index of its documents of the
  size computed: if and only if the storage was initialized or had no headers; `Storages.BuiltOverIndex` works out the
  case of documents without tokens, sizes apart.
- Loading over a storage that holds something keeps tables whose count in the file is zero (storage/storage.go:709-789).
  `Segments.LoadUsed` says when the storage comes out right.
- A file cut right behind its header loads as an empty index; every other cut is refused (`Images.LoadOfCut`).
- Averages (storage/storage.go:426, storage/merge.go:584). Five documents of 33554434 tokens in all have 6710886.5 when
  built and 6710887 when merged (`Averages.LargeAveragesDiffer`). The average of a field that both merged indexes have is
  the built one if and only if the two formulas agree at its total and count (`SameIndexes.SameAverage`); they do whenever
  both are exact in single precision, as they are up to 2^24 (`Averages.ExactAveragesAgree`).
- Names in the parallel merge (writer.go:97, storage/merge.go:328-343). A new writer counts from zero, so in a directory with
  its own first two segments the first pair truncates its own source and then extends it again for the new header. Reading on
  ends the process behind the last page of the new file, and yields zeros or what has been written there before it; then the
  merge can succeed, and both sources are removed, one of them being the output. Either way the source is lost
  (`WriterMerge.OwnSourceLost`); `WriterMerge.NewWriter` has a run that ends in a crash with one segment left, and one that
  ends with an empty directory. No run ever draws a name that is taken if and only if none is in danger at the start
  (`WriterMerge.NamesExact`): among n segments, any of the next n / 2 names, and for the largest of an odd number any name up
  to the round that merges it. Where all segments hold documents, that is also exactly when no run can lose one
  (`WriterMerge.NothingLostExactly`).
- A document that has a token but no length in the field (query/bm5_acc_scalar.go:161-543, storage/storage.go:367): scoring
  reads the length of a later document in its place, or what the block before has not cut off, and panics when nothing is
  left. `BM25.BM25Score` says which length is read and exactly when it comes to an end; `Lookups.OwnAreRead` that every
  document reads its own length exactly when every one has a length.
- The parallel merge returns when exactly one entry is left, so an empty directory is listed for ever: runs are bounded if
  and only if the directory is not empty (`WriterMerge.EndsUnlessEmpty`).
- Range clauses. `IterBytes` yields nothing when a bound lies above every token (storage/storage.go:102-106), and an open
  bound is replaced by the first or last token and then excluded when the mode excludes that side
  (query/clause.go:168-194). `Ranges.RangeExact` gives the exact condition, `FirstLostAt`, `LastLostAt` and `OvershotAt` an
  input for each way to fail. `<` and `<=` find nothing when their bound is above the largest token
  (`NumericRanges.IntegerMissed`); `Answers` carries the condition through to the documents.
- `Ln` is not monotone: it drops at the end of every binade (`FastLog.LnDrops`), by less than a millionth. Everything above
  a number has a larger logarithm if and only if the cubic of its mantissa is below that of one by less than the logarithm
  of two (`FastLog.LnBelowAllAbove`); `FastLog.LnOutOfOrder` says which pairs come out in the wrong order.
- Documents keep the order in which they were inserted (storage/storage.go:342-343), although storage/document.go:26 says
  that they are sorted.

## Model

| member | source | states |
|---|---|---|
| EditDistance.DistIsShortestScript | levenshtein/levenshtein.go:6-6 | the distance both algorithms are measured by: at most n exactly when some n single-byte insertions, deletions and substitutions turn one string into the other |
| LevenshteinMatcher.Expand | levenshtein/levenshtein.go:33-50 | a live state adds exactly the states it can go to by dropping or substituting a byte, or by inserting bytes and matching |
| LevenshteinMatcher.Consume | levenshtein/levenshtein.go:31-52 | one round fills the next layer with exactly the successors of the current one, in place |
| LevenshteinMatcher.RunSound | levenshtein/levenshtein.go:30-53 | a live state has spent at least the distance to what it consumed |
| LevenshteinMatcher.RunComplete | levenshtein/levenshtein.go:44-61 | though insertions happen only before a match or at the end, every prefix within reach is represented, by a state that may lag with the budget for the missing insertions |
| LevenshteinMatcher.RunDecidesDistance | levenshtein/levenshtein.go:6-63 | some accepting state is live at the end exactly when the distance is at most k |
| LevenshteinMatcher.LevenshteinMatch | levenshtein/levenshtein.go:6-63 | true exactly when both strings are shorter than 60 bytes, k is at most 3 and their distance is at most k |
| Headers.RawValueFrom | storage/headers.go:108-111 | keeps the first 128 bytes, or all of them when they fit |
| Headers.BufferFrom | storage/headers.go:102-111 | the buffer holds those bytes in order, and zeros behind them |
| Headers.SearchFrequencies | storage/headers.go:77-93 | the lower bound of a document, and whether it is there |
| Headers.SearchLengths | storage/headers.go:156-172 | the same over lengths |
| Tokens.BinarySearchBytes | storage/storage.go:41-57 | the lower bound of a byte string in a sorted table, and whether some token equals it |
| Tokens.GetBytesOrNear | storage/storage.go:76-83 | the first token not below the bytes, and whether there is one |
| Automata.Levenshtein.Start | levenshtein/automata.go:46-58 | the clamped distance row of the empty term |
| Automata.Levenshtein.StepKeepsRow | levenshtein/automata.go:61-89 | stepping over any term, cell i is min(k + 1, distance of the term to the first i bytes of the keyword) |
| Automata.Levenshtein.Step | levenshtein/automata.go:61-89 | fills the row that follows, cell by cell, clamped to k + 1 in 8 bits without overflow |
| Automata.Levenshtein.AcceptDecides | levenshtein/automata.go:91-91 | accepts exactly the terms that k edits turn into the keyword |
| Automata.Levenshtein.AgreesWithMatcher | levenshtein/automata.go:45-100 | accepts exactly when the flag automaton of `LevenshteinMatch` does |
| Automata.Levenshtein.IsDead | levenshtein/automata.go:93-100 | dead exactly when no prefix of the keyword is within k of the term |
| Automata.DeadStaysDead | levenshtein/automata.go:93-100 | no continuation of a dead term is alive |
| Automata.Levenshtein.DeadRowFollows | levenshtein/automata.go:61-100 | a row of only k + 1 leads to the same row under every byte |
| Automata.Levenshtein.SmallestTransition | levenshtein/automata.go:102-110 | the least byte from the bound on that keeps the term alive; none exactly when all are dead |
| Automata.Branch | levenshtein/automata.go:112-139 | a live term above the key leaves it where some larger byte is alive, before the key is dead |
| Automata.Levenshtein.NextSeek | levenshtein/automata.go:112-139 | a live string above the key with no live term in between; none when no live term is above the key |
| Automata.Levenshtein.Probe | levenshtein/automata.go:144-183 | one token of the walk: hit exactly when within reach, and where to seek next without passing a hit |
| Automata.Levenshtein.Matches | levenshtein/automata.go:144-183 | yields exactly the tokens within k edits of the keyword, in table order, the first m of them when m > 0; it terminates |
| Bitmaps.ToArray | storage/storage.go:264-272 | the elements of a set, ascending, once each |
| Bitmaps.UnmarshalOfMarshal | storage/storage.go:264-272 | a posting list reads back as the set it was made from |
| Blocks.RowOfToken | storage/storage.go:444-468 | a token record leads back to its own row: its frequency slice and its posting list |
| Blocks.LaidOutWellFormed | storage/storage.go:409-480 | tables laid out from orderly blocks are well formed, and mean what the rows say, token by token |
| Blocks.LaidOutSnoc | storage/storage.go:409-480 | appending a field whose cursors start where the regions end keeps the layout |
| Tables.EntriesOfToken | storage/headers.go:125-134 | the entries of a token are the slice its record selects |
| Documents.OfDocumentsMembers | storage/document.go:3-31 | the reference index has an entry exactly when that document defines that token with that frequency in that field |
| Documents.DocumentEntriesAscend | storage/document.go:11-21 | under the caller's contract the entries of a token ascend strictly by document |
| Documents.OfConcat | storage/merge.go:317-325 | the entries of two document lists in a row are those of the first, then those of the second renumbered |
| Documents.LengthsOfConcat | storage/merge.go:317-325 | the same for lengths |
| Accumulate.AddEntry | storage/storage.go:383-401 | one token definition adds one entry to its own token and to no other, keeping the tree order |
| Accumulate.AddDocuments | storage/storage.go:342-407 | the accumulators hold exactly what the documents define, and every byte they will take is counted once |
| Build.BuiltIndex | storage/storage.go:409-480 | what is laid out from the accumulators is the index of the documents |
| Build.BuildTables | storage/storage.go:342-480 | builds the index of its documents for every map order; the size is what the tables take in a file |
| Storages.Storage.BuildFrom | storage/storage.go:313-481 | from any state: the index of the documents and the size of its file, if and only if the storage was initialized or had no headers; otherwise every token is numbered behind the headers that stay |
| Storages.BuiltOver | storage/storage.go:314-317 | over headers that stay, no index of the documents of the computed size is shown; without them one is |
| Storages.BuiltOverIndex | storage/storage.go:444-468 | sizes apart, headers that stay spoil the index exactly when some document defines a token, or when they do not belong to their region |
| Storages.TokenAstray | storage/storage.go:450-468 | a token built next to headers that stay points behind all of them |
| Records.TokenBack | storage/headers.go:125-134 | a token record, laid out as `Layout.TokenBytes` has it, reads back as written |
| Records.ListHeaderBack | storage/headers.go:58-61 | a posting-list header reads back as written |
| Format.HeaderBytesRead | storage/headers.go:24-34 | the file header reads back whatever is in its padding |
| Layout.ByteOf | storage/storage.go:505-506 | byte i of a number is the number divided by 256 to the i, modulo 256 |
| Layout.TokenBytes | storage/headers.go:125-134 | in a token record the frequency count is at byte 0, the posting list at 8, the first frequency at 16, the size of the value at 24 and its 128 bytes at 32 |
| Layout.IdBytes | storage/headers.go:148-150 | in a document id the size is at byte 0 and the 128 bytes at 8 |
| Layout.FrequencyBytes | storage/headers.go:65-72 | in a frequency entry the document is at byte 0 and the frequency at 4 |
| Layout.LengthBytes | storage/headers.go:141-146 | in a length entry the document is at byte 0 and the length at 4 |
| Layout.ListHeaderBytes | storage/headers.go:58-61 | in a list header the offset is at byte 0 and the length at 8 |
| Layout.FieldHeaderBytesAt | storage/headers.go:38-54 | in a field header the hash is at byte 0, the average at 8, the total length at 16, the counts of tokens, of their frequencies and of lengths at 24, 32 and 40 |
| Layout.HeaderAt | storage/headers.go:24-34 | in the file header the magic number 0x7E7127E9 is at byte 0, the version at 8, the counts of documents, fields, lists, list bytes and frequencies at 16, 24, 32, 40 and 48 |
| Layout.ImageIsFile | storage/storage.go:484-619 | in every image each record of the tables is at its offset: document ids at 56, frequencies behind them, each field with its lengths and tokens behind the one before, list headers, and lists, to the last byte |
| Format.FieldImageParsed | storage/storage.go:732-768 | a written field reads back as its hash, header values, lengths and tokens, and leaves what follows |
| ListTables.DataSize | storage/storage.go:234-245 | the sum of the list sizes, however the lists are held |
| ListTables.RegionsTile | storage/storage.go:175-197 | each list starts where the one before ends, and the last ends the data |
| ListTables.HoldsGet | storage/storage.go:247-257 | `Get(i)` is list i, built or mapped |
| ListTables.HoldsSizes | storage/storage.go:230-245 | both ways of holding lists report the same number and size |
| Regions.PutNext | storage/storage.go:173-197 | with any batch size, one more list keeps the table in its reserved space and the data behind it |
| Regions.Reserve | storage/storage.go:158-172 | reserving leaves room for exactly the table |
| Regions.Finish | storage/storage.go:198-217 | after the last batch the region is the full header table followed by all lists |
| Regions.WriteToFile | storage/storage.go:140-217 | mapped or built, the file gains the same header table and the lists end to end |
| Saving.WriteHeader | storage/storage.go:504-539 | the header is written in full, some stale bytes in its padding |
| Saving.WriteFields | storage/storage.go:557-600 | every field is written once, in whatever order the map yields them |
| Storages.ImageSize | storage/storage.go:321-480 | a file is exactly as long as `BuildFrom` computed, for every field order and padding |
| Storages.Storage.SaveTo | storage/storage.go:484-619 | the file is an image of what the storage represents, with every record at its offset |
| Images.LoadOfSave | storage/storage.go:639-796 | loading an image gives the saved tables, whatever the padding and whatever follows the image; its size is reported |
| Images.LoadOfCut | storage/storage.go:639-796 | a file cut short anywhere is refused, except right behind the header |
| Storages.LoadsBack | storage/storage.go:639-796 | what was saved loads as what it was, with the size computed when it was built |
| Segments.LoadUsed | storage/storage.go:639-796 | loading over a used storage, it represents the segment if and only if each table has something in the file or nothing was there; a bare header changes nothing |
| Storages.BodyEmpty | storage/storage.go:704-707 | only the index of no documents and no fields has a file without a body |
| Storages.Storage.Load | storage/storage.go:639-796 | fails exactly when the bytes do not parse; otherwise assigns what they parse to, and keeps tables whose count is zero |
| Zipping.ZipAscends | storage/merge.go:33-55 | the walk over two sorted tables yields strictly ascending keys |
| Zipping.TakenWherePresent | storage/merge.go:33-55 | and takes a key from each table that has it |
| Merged.MergedRowEntries | storage/merge.go:117-232 | token by token, a merge has the entries of the first side, then those of the second renumbered |
| Merged.MergedRowsOk | storage/merge.go:117-232 | merged rows are sorted, their entries ascend below the document count, their lists match their entries |
| Merged.CountMerged | storage/merge.go:117-232 | no entry is lost and none is made up |
| MergeSpec.MergedBlockOk | storage/merge.go:578-673 | a merged field is orderly: ascending lengths below the document count, summed lengths, an average by the formula of the merge or copied, sorted rows |
| MergeSpec.LaidOutMerge | storage/merge.go:412-674 | tables laid out from the merged fields, in any order of the fields, are the merge of the two indexes |
| MergeSpec.MergeOfIndexes | storage/merge.go:317-828 | merging the indexes of two document lists gives the index of the lists one after the other: documents, entries and lengths |
| MergeSpec.MergeAssociative | storage/merge.go:317-828 | three indexes merged either way give the same documents, entries and lengths |
| SameIndexes.AverageAssociative | storage/merge.go:578-585 | and the same averages, bit for bit |
| MergeWalk.CountTokensBetweenCollisionFields | storage/merge.go:33-55 | the number of distinct tokens the two fields have between them |
| MergeWalk.PrepareCollision | storage/merge.go:117-232 | the first pass writes the entries of every merged token in token order, and counts the tokens |
| MergeWalk.PrepareRight | storage/merge.go:84-115 | a field of the second storage alone: its entries renumbered, in token order |
| MergePasses.PreparationPass | storage/merge.go:57-236 | every field of either storage is met once, in some recorded order; all entries are written and all lists counted in it |
| MergeContexts.MergeContext.WriteToken | storage/merge.go:270-316 | the record carries both cursors and both counts, the cursors move on by one list and by its entries, and its lists are queued |
| MergeContexts.MergeContext.WriteRow | storage/merge.go:270-316 | what is written for a step of the walk is the record of its merged row, selecting that row's entries and list |
| MergeFields.WriteCollisionField | storage/merge.go:578-673 | a field of both storages is written as the merged field, from where the cursors stood |
| MergeFields.WriteLeftField | storage/merge.go:412-488 | a field of the first storage alone is copied, its tokens renumbered |
| MergeFields.WriteRightField | storage/merge.go:490-576 | a field of the second storage alone is copied with its documents renumbered |
| MergePasses.PassFields | storage/merge.go:412-674 | the second pass over fields in the recorded order writes the fields of the merged tables and queues their lists |
| MergePasses.LaidIsLaidOut | storage/merge.go:57-674 | both passes lay out the same tables |
| Mergers.BothPasses | storage/merge.go:380-674 | `PostingListCount`, `PostingListCursor` and the number of pending lists agree, and every slice selects what the first pass wrote |
| Mergers.AddOffsetFrom | storage/merge_bitmap.go:11-24 | adds the source set shifted by the offset, 16 elements at a time |
| Mergers.ListFor | storage/merge.go:714-795 | the list of a queue entry: copied, shifted, or both joined |
| Mergers.AssembleLists | storage/merge.go:676-807 | the queued lists behind their header table, offsets being prefix sums |
| Mergers.WriteTables | storage/merge.go:340-674 | everything in front of the lists, for the merge of the two indexes |
| Mergers.Merge | storage/merge.go:321-828 | the file is an image of the merge of the two indexes, header last; the pre-sized queue is filled exactly |
| SameIndexes.DocumentsSettle | storage/storage.go:274-295 | two indexes of the same documents have the same entries and lengths, built or merged |
| SameIndexes.SameTokens | storage/storage.go:274-295 | position by position, their token tables agree in value, document frequency, entries and posting list |
| SameIndexes.SameLengths | storage/storage.go:118-132 | and so do lengths and total length |
| SameIndexes.SameAverage | storage/merge.go:578-585 | for a field of both merged indexes, the average is that of the index built at once if and only if the two formulas agree at total and count |
| SameIndexes.CopiedAverage | storage/merge.go:412-440 | for a field of one of them, the average is copied; it is that of the index built at once if and only if that side has the average of a build |
| MergeTrees.TreeIsIndex | writer.go:47-127 | what comes about by any number of merges is the index of all the documents in a row |
| MergeTrees.TreeAverage | storage/merge.go:412-585 | after any number of merges, the average of a field that one batch named is that of a build over total and count, and of any other that of a merge |
| MergeTrees.TreesFilterAlike | storage/merge.go:317-828 | the same documents in other batches, merged in another order, have the same entries and lengths |
| MergeTrees.TreesScoreAlike | storage/merge.go:412-585 | and the same average in a field, unless one batch has it here and several there, at a total and count where the formulas differ |
| Averages.ExactAveragesAgree | storage/storage.go:426-426 | with single and double roundings, both formulas agree for every total and count that single precision holds exactly: rounding the quotient to a double first changes nothing |
| Averages.SmallAveragesAgree | storage/storage.go:426-426 | so they do up to 2^24 |
| Averages.LargeAveragesDiffer | storage/merge.go:584-584 | they differ at total 33554434 and count 5 |
| Averages.AverageBits | storage/merge.go:584-584 | the bits agree exactly where the values do |
| Segments.Batch | writer.go:30-43 | the segment file is an image of the index of its documents, of the size computed; as a file of fewer than 2^64 bytes it is a segment that can be merged |
| Segments.MergePair | writer.go:82-114 | from the bytes of two segments to the bytes of the merged one: an image of the index of both document lists in a row, which is a segment again as a file of fewer than 2^64 bytes; nothing exactly when a segment does not load |
| Segments.FileSettles | storage/storage.go:639-796 | a file holds one index only, whatever its padding and the order of its fields |
| Fitting.FitsInFile | storage/storage.go:504-600 | an index whose file has fewer than 2^64 bytes has no counter that overflows |
| Segments.BareHeaderThenBuild | storage/storage.go:639-707 | loading a segment with posting lists, then a bare header, then building: the result is no index of its documents |
| WriterInvariants.StepKeeps | writer.go:47-127 | every step of every goroutine keeps the worker tokens, error counts, file counts, names and documents in balance, if rounds start with their names free |
| WriterMerge.RunKeeps | writer.go:47-127 | so does every run from a directory in which no name is in danger; no name that is drawn is ever taken |
| WriterMerge.NamesExact | writer.go:97-97 | no run draws a name that is taken, if and only if no name is in danger at the start |
| WriterMerge.NothingLostExactly | writer.go:65-114 | where all segments hold documents, no run loses any if and only if no name is in danger at the start |
| WriterMerge.DangerHits | writer.go:75-107 | where a name is in danger, some run comes to draw a name that is taken |
| WriterMerge.OwnSourceLost | storage/merge.go:328-343 | a pair that draws the name of its own source loses it, whether it ends the process, fails, or goes on with whatever it reads; if it goes on, both sources are lost |
| WriterMerge.OtherSegmentLost | storage/merge.go:321-328 | a pair that draws another taken name loses exactly the documents that were under it |
| WriterMerge.NewWriter | writer.go:97-97 | a writer counting from zero over segments 1 and 2 can end the process with segment 1 destroyed, and can leave an empty directory |
| WriterMerge.NeverLost | writer.go:65-114 | from a directory in which no name is in danger, in every state of every run, failures included, each document is in some live segment |
| WriterMerge.Conserved | writer.go:65-127 | between rounds and at the end, each document is there as often as at the start |
| WriterMerge.RoundHalves | writer.go:65-118 | a round without errors turns n segments into n / 2, rounded up; no round leaves fewer |
| WriterMerge.SendNeverBlocks | writer.go:66-66 | the error channel always has room, though nobody reads before all pairs are started |
| WriterMerge.SomeoneMoves | writer.go:69-114 | until the merge returns, some step can be taken: no deadlock |
| WriterMerge.StepDecreases | writer.go:54-127 | from one segment or more, every step lowers the number of steps that can still come |
| WriterMerge.RunsAreShort | writer.go:54-127 | a run of n segments has at most as many steps as that number, whatever fails |
| WriterMerge.EndsUnlessEmpty | writer.go:54-127 | runs are bounded if and only if the directory is not empty |
| WriterMerge.RunEnds | writer.go:54-127 | a run that cannot go on has returned, with the documents it started with, and with one segment unless it reports errors |
| WriterMerge.EndsInOne | writer.go:54-127 | without failures it ends with one segment that holds every document as often as at the start |
| WriterMerge.EmptyLoops | writer.go:60-62 | an empty directory is listed again and again, and no step returns |
| Directories.StepBacks | writer.go:75-114 | over the bytes of the files: from free names, every step leaves every file an index of the documents it stands for |
| Directories.FilesAtTheEnd | writer.go:54-127 | whatever fails, the files left when the merge has returned are indexes of all the documents between them |
| Directories.MergesIntoOne | writer.go:54-127 | without failures one file is left, and it holds an index of all the documents, each as often as at the start |
| Ranges.IterBytes | storage/storage.go:85-116 | the walk goes between the two lower bounds, and comes about only when both are in the table |
| Ranges.RangeTokens | query/clause.go:157-202 | a range gives the tokens between the bounds put in place, ends taken as the mode says, when both bounds are reached |
| Ranges.RangeExact | query/clause.go:157-202 | that is what the range says exactly when it neither loses the first or last token at an open end nor overshoots the last |
| Ranges.FirstLostAt | query/clause.go:168-187 | a table and a range that lose the first token |
| Ranges.LastLostAt | query/clause.go:172-194 | a table and a range that lose the last token |
| Ranges.OvershotAt | storage/storage.go:102-106 | a table and a range that overshoot |
| NumericRanges.IntegerFilter | query/clause.go:294-335 | over the tokens of an integer field, `>` and `>=` give exactly those that fit; `<` and `<=` exactly when the bound is at most the largest integer |
| NumericRanges.FloatFilter | query/clause.go:294-335 | the same over floats in their total order |
| NumericRanges.IntegerMissed | query/clause.go:294-335 | a field whose only integer is 1, where `< 2` finds nothing |
| Answers.ComparisonFindsExactly | query/clause.go:294-335 | a comparison finds exactly the documents that have a fitting token, if and only if it has no high bound, or the field reaches the bound or has no token |
| Answers.FilterByInteger | query/searcher_filter.go:11-59 | filtering by a comparison with an integer returns exactly the documents that have an integer which fits, under that condition |
| Answers.FilterByFloat | query/searcher_filter.go:11-59 | the same for floats |
| Words.BEOrder | numeric/int64.go:11-11 | byte order of big-endian words is their order |
| Numeric.PutSortableInteger | numeric/int64.go:10-12 | the first eight bytes become the distance from the smallest integer; the others stay |
| Numeric.DecodeInteger | numeric/int64.go:14-16 | the integer that these eight bytes are the encoding of |
| Numeric.IntegerOrder | numeric/int64.go:10-16 | byte order of encodings is the order of the integers, and no two share an encoding |
| Numeric.PutSortableFloat | numeric/float64.go:11-19 | negative floats are stored in reverse below the others |
| Numeric.DecodeFloat | numeric/float64.go:21-29 | the float that these eight bytes are the encoding of |
| Numeric.FloatOrder | numeric/float64.go:11-29 | byte order of encodings is the total order of section 5.10 of IEEE 754-2019, zeros, infinities and NaN included |
| Clauses.Searcher.ResolveKeyword | query/clause.go:96-117 | the token itself when it is there; or else, when the fuzziness and both limits allow any, the first m tokens in table order (10 when m is 0) that are within the fuzziness of the keyword and within the most that is searched for, all of them when they are fewer |
| Keywords.KeywordStands | query/clause.go:96-117 | over an index, a keyword resolves in a field to exactly what it stands for, in terms of the documents |
| Keywords.PlainKeyword | query/clause.go:103-111 | a keyword that is not searched fuzzily stands for itself |
| Clauses.Searcher.Iterate | query/clause.go:89-340 | one state for each keyword and field that has tokens for it, one for each scoped keyword and range that has tokens, and no other, in entry order with the boost, field and tokens of each; for `IterCond` also one for each scoped entry without tokens, and for each keyword found nowhere |
| Clauses.Searcher.StatesInOrder | query/clause.go:89-340 | so it is for every order in which the maps are walked |
| Filtering.StatesMean | query/clause.go:209-340 | whatever the map orders, some state posts a document exactly when some entry of the clause does, and all states do exactly when every entry does |
| Filtering.Intersect | query/searcher_filter.go:14-38 | the documents that every conjunct posts; none once a conjunct has no tokens |
| Filtering.FilterDocuments | query/searcher_filter.go:11-59 | from an empty bitmap: all musts, or without musts any should, minus every exclusion, for every map order |
| Answers.AnyIsHas | query/clause.go:89-203 | some entry of a clause whose ranges lose nothing posts a document exactly when it has a token that one of the keywords stands for, in its field or in any, or a token in one of the ranges |
| Answers.AllIsHas | query/clause.go:209-340 | all entries do exactly when it has a token for every scoped keyword and in every range, and for every other keyword in each field in which that stands for any |
| Answers.FilterByDocuments | query/searcher_filter.go:11-59 | a query of exact and fuzzy keywords and of ranges that lose nothing returns exactly the documents it is about, in terms of what they define |
| Answers.RangeHas | query/clause.go:157-202 | a range that loses no token at an open end and does not overshoot finds exactly the documents with a token in it |
| QueryContexts.QueryContext.Reset | query/clause.go:370-376 | one empty score for each candidate, ascending |
| QueryContexts.QueryContext.Search | query/clause.go:346-363 | the lower bound from the guess on |
| QueryContexts.QueryContext.Add | query/clause.go:378-395 | a guess at or before the document adds to its score and to no other |
| QueryContexts.QueryContext.Get | query/clause.go:397-416 | the score of a document at or after the guess, nothing when it has none |
| FieldScoring.FieldScore | query/searcher_fields.go:7-43 | the candidates with a token get n, n - 1, ... once each, by the first token whose list has them and then by number; the others keep nothing |
| FieldAnswers.RankByField | query/searcher_fields.go:7-43 | over an index: by the smallest token that the document has in the field and then by number, from as many points as there are candidates down by one; nothing for a document without a token |
| FieldAnswers.SmallerGetsMore | query/searcher_fields.go:19-41 | of two candidates the one with the smaller token gets more points, and the one with the smaller number under the same token |
| Lookups.DenseFrequencies | query/bm5_acc_scalar.go:27-28 | an ascending table over n documents with n entries has entry i at index i |
| Lookups.DenseLengths | query/bm5_acc_scalar.go:21-21 | the same for lengths |
| Lookups.CascadeFrequencies | query/bm5_acc_scalar.go:283-400 | the narrowing searches find the same eight frequencies as searches of the full table, and cut the table behind the last |
| Lookups.CascadeLengths | query/bm5_acc_scalar.go:161-281 | over lengths, the narrowing searches end where searches of the whole rest end, and come to nothing exactly when the last one ends behind it |
| Lookups.OwnAreRead | query/bm5_acc_scalar.go:161-281 | every document reads its own entry if and only if every document has one |
| Lookups.NeighbourIsRead | query/bm5_acc_scalar.go:520-533 | a document without a length reads that of a later one, or there is nothing left to read |
| BM25.AccumulateToken | query/bm5_acc_scalar.go:49-543 | in all four dense and sparse cases, eight at a time and then one at a time: per document its frequency, and the length at the later of where its search ends and where the blocks before it cut off; it comes to no end exactly when some such entry does not exist |
| BM25.ScalarAccumulateBM25 | query/bm5_acc_scalar.go:12-544 | token after token that is not skipped, those contributions in that order; it panics if and only if some candidate has nothing left to read |
| BM25.CoveredIsPlain | query/bm5_acc_scalar.go:12-544 | where candidates have lengths it does not, and each contribution is that of looking the document up in the full tables |
| BM25.BM25Score | query/searcher_bm25_fallback.go:17-43 | the scores are those of the candidates, ascending; each is what the musts and then the shoulds contribute to it, measured or not; it panics if and only if some candidate has nothing left to read |
| Hits.ClauseHits | query/bm5_acc_scalar.go:23-50 | a clause adds one summand for each token of an entry in a field that posts the document and is not skipped, and no other, in the order of entries and tokens |
| BM25Answers.ScoreByDocuments | query/searcher_bm25_fallback.go:17-43 | over an index, for candidates that have lengths: it does not panic, and a score has one summand for each token that an entry asks for and the document has, worth boost times the textbook term by the numbers of the documents, with 1.2 and 0.75 for what is not set; the score is their sum |
| BM25Answers.ClauseIsTextbook | query/bm5_acc_scalar.go:12-544 | the same of what one clause adds |
| BM25Answers.SummandIsValue | query/bm5_acc_scalar.go:26-42 | one token adds boost times the textbook term: by how many documents have a length in the field, how many have the token, and the frequency and length that the document defines |
| BM25Answers.WeightlessWhen | query/bm5_acc_scalar.go:32-42 | a token is skipped exactly without a boost or when its frequency is not possible in the field |
| MeasuredDocuments.LengthsCounted | storage/storage.go:367-376 | a field has as many lengths as documents have one in it |
| MeasuredDocuments.FrequencyCounted | storage/storage.go:434-465 | a token counts as many documents as have it |
| MeasuredDocuments.FrequencyDefined | storage/storage.go:434-465 | the frequency that is looked up is the one that the document defines |
| MeasuredDocuments.LengthDefined | storage/storage.go:367-376 | and so is the length |
| Searching.PostedIsDefined | storage/storage.go:434-465 | a document is on a posting list exactly when it defines the token in that field |
| Searching.MeasuredIsCovered | storage/storage.go:367-376 | when every field with tokens has a length, scoring finds a length for every posted document |
| Searching.TablesAreReady | query/clause.go:95-117 | every index can be searched |
| BM25Values.SummandIsTextbook | query/bm5_acc_scalar.go:15-42 | with constants hoisted and a reciprocal, a summand is the textbook BM25 term |
| BM25Values.FactorTextbook | query/bm5_acc_scalar.go:30-37 | and boost times that, whether the boost is multiplied in or is one |
| BM25Values.SummandBounds | query/bm5_acc_scalar.go:520-540 | it is positive and at most its weight |
| BM25Values.SummandGrows | query/bm5_acc_scalar.go:520-540 | more occurrences are worth more, exactly unless the penalty is full and the length zero |
| BM25Values.SummandShrinks | query/bm5_acc_scalar.go:520-540 | a longer document is worth less exactly when the penalty is not zero |
| BM25Values.WorthBounds | query/bm5_acc_scalar.go:520-540 | a score is positive as soon as something was added, and at most the sum of the weights |
| BM25Scores.ScorePositive | query/bm5_acc_scalar.go:26-42 | what `BM25Score` leaves to a candidate, with weights by inverse document frequency: every summand is positive, and a score is positive exactly when something was added |
| BM25Scores.RoundedPositive | storage/storage.go:426-426 | rounded averages are positive, as that asks of the average of something |
| BM25Scores.ClauseAdds | query/bm5_acc_scalar.go:23-50 | something is added exactly when a token that is not skipped posts the document |
| BM25Scores.WeightPositive | query/bm5_acc_scalar.go:26-42 | a token is skipped exactly when its frequency is not possible in the field; any other weighs something |
| FastLog.LnBits | fastlog/ln.go:6-13 | the bit operations take a positive normal float apart into mantissa and exponent |
| FastLog.LnIs | fastlog/ln.go:6-13 | of a mantissa times a power of two it is the cubic of the mantissa, by its four coefficients, plus 0.6931471806 times the exponent |
| FastLog.LnAscends | fastlog/ln.go:6-13 | strictly increasing within a binade |
| FastLog.LnNearlyAscends | fastlog/ln.go:6-13 | over all positive reals it never drops by a millionth |
| FastLog.LnBelowAllAbove | fastlog/ln.go:6-13 | everything above a number has a larger logarithm, if and only if the cubic of its mantissa is less than that of one plus the logarithm of two |
| FastLog.LnOutOfOrder | fastlog/ln.go:6-13 | two numbers come out in the wrong order exactly when they are in neighbouring binades and the upper mantissa has not caught up |
| FastLog.LnDrops | fastlog/ln.go:6-13 | it drops where a binade ends, at every one: from its last float to the first of the next |
| FastLog.LnDoubled | fastlog/ln.go:12-12 | doubling adds the same everywhere |
| FastLog.LnPositive | fastlog/ln.go:6-13 | positive from one on |
| FastLog.IdfPositive | query/bm25.go:22-27 | positive exactly when the frequency is possible in a collection that has documents; otherwise zero |
| FastLog.IdfIs | query/bm25.go:22-27 | otherwise the logarithm of 2 n + 2 over 2 d + 1, for d of n documents |
| FastLog.OddsBalance | query/bm25.go:26-26 | a token in d of n documents has the inverse odds of one in all the others, and one in none has 2 n + 1 |
| FastLog.IdfRarer | query/bm25.go:22-27 | a rarer token never weighs less, but for a millionth |

## Left out

- Float32 arithmetic. `Ln`, `Idf` and the worth of scores are over exact reals; rounding, overflow and NaN are not modelled,
  and neither is `Ln` of zero, subnormal, negative or infinite arguments. Averages are any two functions `ratio.built` and
  `ratio.merged` of total and count in the index, and rounded values in `Averages`. Without any length the code stores 0 on
  building and NaN on merging; nothing is said about that average.
- BM25Scores.ScorePositive: the weight of a token is computed over reals; with rounding it may be zero, and the token skipped,
  for other tokens.
- WriterMerge.NothingLostExactly: where some segments are empty, a taken name may do no harm, depending on which goroutine runs
  when; `WriterMerge.NamesExact` covers those directories, for names.
- Counters of 64 bits are unbounded in memory and cut to 64 bits when written; reading back requires that they fit (`TablesFit`).
  Totals of documents stay below 2^32, which is what their 32-bit numbers demand.
- Numbers are stored with their lowest byte first, as on a little-endian machine; the source takes the order of the machine.
- Storages.Storage.Load: header values are unbounded when multiplied by record sizes, so a count that would overflow 64 bits in
  Go is refused here for its size; after a failed load the tables are unspecified.
- Bitmaps: a posting list is a set with a concrete codec of its own (sorted 4-byte numbers), not the roaring format; an empty or
  malformed list reads as the empty set.
- Callbacks. `Iter` and `IterCond` are modelled as the list of states a handler is called with, and the handlers as loops over
  that list; a handler that stops early stops its loop. States are computed before the loop, while Go resolves them as it goes.
- What the Go code panics on is a precondition, but for missing lengths, where the result says so: a fuzzy keyword that needs
  an automaton but has 60 bytes or more or a distance above 3, and a range over a field without tokens.
- Answers.FilterByDocuments: for ranges that resolve to what they say; `Ranges.RangeExact` says which ones do not, and
  `Answers.FilterByInteger` and `FilterByFloat` what comparisons return even so.
- BM25Answers.ScoreByDocuments: for such ranges, for documents in which what occurs occurs at least once, and for candidates
  that have a length where they have a token; `BM25.BM25Score` covers the others.
- Filtering.FilterDocuments: requires that no entry of a clause panics (`QueryReady`); the code may stop before it reaches one.
- The iteration order of a map is any order; the model records it where the code reuses it.
- Files are byte sequences with a position; errors of the operating system, mapping, syncing, temporary files and buffer sizes
  are not modelled. A buffered writer may flush any prefix at any write.
- WriterInvariants.StepKeeps: loading both sources of a pair is one step, and merging them is another, which writes the whole
  segment or removes it again. Removing a source segment always succeeds. A pair whose source was cut off reads anything or ends
  the process, without regard to sizes. `Segments.MergePair` is what happens inside those steps.
- The tree that `BuildFrom` collects tokens in is a sorted sequence, searched from the front; field names are their hashes.
- FieldScoring.FieldScore and BM25.BM25Score are modelled on the scalar path; the AVX path is not part of this model.
- `Close`, `Reset`, pools, tokenizers, the query parser and its compiler, field constructors, the reader's paging and the
  benchmarks are routing or glue.
