# A verified model of the TAE scanner

The scanner reads tables stored as columnar object files. Four optimisations must not
change a query's answer: blocks are pruned by zone maps, reads are coalesced and
translated through checksummed blocks, blocks are claimed by parallel threads and
emitted in chunks, and ORDER BY ... LIMIT queries drop whole blocks. Each has an obvious
simple form (read every row of every block, then filter), and this project proves the
fast forms equal to it. Where that is false, it gives a concrete input and the exact
condition under which it holds.

The imperative parts of the original (the object reader, the filter list, the queue
builder, the scan state, the column fill, the file builder) are classes and methods
with loops, proved against specification functions; the theorems are about those
functions.

| file | models |
|---|---|
| `Bytes.dfy`, `Types.dfy`, `Chunks.dfy` | little-endian fields, bits, byte order; column types and values; order-preserving selection |
| `ZoneMap.dfy`, `ZoneMapWriter.dfy` | zone-map accessors and tests; the zone maps the test-data writer produces |
| `Filter.dfy` | extraction of filters from expression trees, row test, zone-map test, chunk filtering |
| `Vector.dfy`, `VectorWriter.dfy`, `ConstantVector.dfy` | decoding of column vectors and their writer |
| `Metadata.dfy`, `MetadataWriter.dfy` | object metadata and its writer |
| `CrcBlocks.dfy`, `Coalescing.dfy`, `ObjectReader.dfy` | checksummed blocks, read coalescing, the object reader |
| `ObjectWriter.dfy`, `FileRoundTrip.dfy` | the file builder; build, store, open and read back |
| `ColumnMap.dfy`, `ColumnFill.dfy`, `OutputSlots.dfy` | mapping columns, output slots and filters; filling one output vector, and all slots of the output chunk |
| `ScanMachine.dfy`, `Scanner.dfy`, `EmitLoop.dfy` | the parallel scan as a state machine; the scan state and claiming a block; one `Execute` call |
| `WorkQueue.dfy`, `ScanAnswer.dfy`, `CallAnswer.dfy` | the queue built at Init; the whole scan; what a call shows in the output chunk |
| `BuiltTable.dfy`, `BuiltScans.dfy` | scans of files the builder wrote, on the values written |
| `MetadataScan.dfy`, `MetadataAnswer.dfy` | the metadata-only path; when it emits a query's rows |
| `ScanOrder.dfy`, `LimitCut.dfy`, `LimitScan.dfy` | ordering and truncation of the queue; when a cut is safe; a scan of the cut queue |

The main theorem is `ScanAnswer.ScanAnswersQuery`: for any query that reads a stored
column or has a filter, any objects, queue order, number of threads and interleaving,
once every thread has been told "0 rows" the rows emitted are those on which every filter
is TRUE, each exactly once. `BuiltTable.BuiltTableAnswersQuery` carries it from the
values written by the file builder, through raw or wrapped files and the reader, to the
rows emitted, and `LimitScan.LimitedScan` carries the LIMIT results to the scan of a cut
queue. `EmitLoop.Execute` is proved to fill the output chunk with the fills that the
machine prescribes, and `CallAnswer.ExecuteShowsRows` says exactly when the chunk then
shows the rows returned; `BuiltScans` states these results on the values written. `ScanMachine.CallExtendsRun` makes every sequence of `Execute` calls a run, and
`ScanMachine.FairRunEnds` says that every fair run ends.

Other queries take the metadata-only path, which opens no file;
`MetadataAnswer.MetadataAnswerExact` says exactly when it emits their rows.

## What the code relies on

`ScanAnswer.TableSound` collects the hypotheses: the zone maps that filters are tested
against bound the non-null values of the filtered columns (a string minimum may be a
prefix; a maximum is exact unless flagged truncated), filtered columns have the
manifest's types and are FLAT, or CONSTANT where nulls decide the filter
(`ConstantVector.ConstantReads`), manifest and file agree on block counts, and the
columns a query reads share the block's row count. Columns that no filter tests may be
CONSTANT or of a type without a fixed size. `BuiltTable.TableFitsQuery` says the same of
the values written; `BuiltTable.StringZoneCovers` and `BuiltTable.NumericZoneCovers` show
that the writer's zone maps meet it, `ZoneMapWriter` when they do not, and
`BuiltTable.BuiltDemandsCanBeMet` gives a table and a query that meet all of it.

## Where the code falls short

Each is stated as a lemma with a concrete input or an exact condition.

- A string NOT_EQUAL test skips a block whose two stored bounds equal the key even when
  the maximum is a truncated prefix (`ZoneMaps.StringPruneSound`,
  `ZoneMaps.NotEqualSkipsLonger`).
- Without columns to read or filters, rows per block come from the manifest, not from the
  files: block ids are wrong wherever the two differ, a block with a count of zero stops
  the thread that claims it, and progress stays 0 (`MetadataAnswer.MetadataAnswerExact`,
  `MetadataScan.CountStar`, `MetadataAnswer.MetadataProgress`; inputs:
  `MetadataAnswer.BlockIdsShift`, `MetadataScan.EarlyStopLosesRows`).
- The manifest's counts wrap around for objects with too few rows for their blocks
  (`MetadataScan.CountsSumToRows`, `MetadataScan.LastCountWraps`).
- When a chunk has no row to return, because all are filtered out or because its block has
  no rows at all, the emit loop refills the same vectors, and null marks and the constant
  vector type of the earlier chunk stay: a value can be hidden, or the first row's shown
  in its place. Blocks of no rows do this in queries without any filter too
  (`ScanAnswer.CallShowsRows`, `CallAnswer.ExecuteShowsRows`, `ColumnFill.RetryExact`;
  inputs: `ColumnFill.RetryCanHideValue`, `ColumnFill.RetryKeepsConstant`,
  `CallAnswer.EmptyBlockKeepsConstant`). Virtual slots are not affected
  (`EmitLoop.VirtualSlotsShow`).
- Row filters index the data of CONSTANT columns by row: past row 0 only null tests, and
  filters on a NULL constant, stay inside it (`ConstantVector.ConstantFilterExact`,
  `ConstantVector.ConstantFilterFails`).
- A projection list not shorter than the column list is ignored
  (`ColumnMap.OutputMapExact`, `ColumnMap.SwapIsIgnored`).
- ORDER BY ... LIMIT counts a block's rows whether or not they pass the filters or are
  null, keeps overlapping blocks by one end of their range only, and reads the bounds of
  zone maps that are not initialised (`LimitCut.FilteredCutSafeIff`,
  `LimitCut.CutSafeIff`, `LimitCut.OverlapLosesRows`, `LimitCut.NullsLoseRows`,
  `LimitScan.UninitialisedLosesRows`). The blocks it drops are not counted as skipped, so
  progress ends below 100 (`Scanner.FinalProgress`).
- Columns whose extents span 4 GiB or more can fail to be read together though each can be
  read alone: a merged range's length is 32-bit (`ObjectReader.TAEObjectReader.ReadBlock`,
  `ObjectReader.TAEObjectReader.SliceAndDecode`, `Coalescing.WideRangeIsCutOff`).
- The test-data writer cuts string maxima at 30 bytes without flagging them, leaves the
  bounds of two-byte types zero, and stores negative bounds of 128-bit types so that they
  read back as positive when asked for 8 bytes, as line 815 of `test/gen_test_data.py`
  does (`ZoneMapWriter.StringZoneBoundsIff`, `ZoneMapWriter.TwoByteBounds`,
  `ZoneMapWriter.NarrowBoundIff`).
- The fill reads a non-inline string slot without the big marker as empty, the filter
  reads it from the area (`ColumnFill.StringsAgree`).

Two statements of the repository's own README do not match the code. Line 153 says that
filter pushdown covers CONSTANT vectors; it does so exactly as
`ConstantVector.ConstantFilterExact` says. Line 184 calls `sort_column` an ORDER BY hint:
the code uses it only to prune whole objects.

## Model

| member | source | states |
|---|---|---|
| ZoneMaps.CheckFixedExact | include/tae_zonemap.hpp:163-186 | a fixed-width test keeps a block exactly when some value in its range satisfies the comparison |
| ZoneMaps.AnyLEIsOrder | include/tae_zonemap.hpp:113-137 | the lower string tests are lexicographic comparisons with the stored minimum |
| ZoneMaps.AnyGEIsOrder | include/tae_zonemap.hpp:103-128 | the upper string tests compare with the stored maximum, a truncated one also covering its extensions |
| ZoneMaps.NotEqualSkipsOnGuard | include/tae_zonemap.hpp:196-202 | NOT_EQUAL skips exactly when both stored bounds are the key |
| ZoneMaps.StringPruneSound | include/tae_zonemap.hpp:189-216 | no admitted string that passes the row comparison is pruned, if and only if it is not a NOT_EQUAL test meeting its guard under a truncated maximum |
| ZoneMaps.TruncatedNotEqualUnsound | include/tae_zonemap.hpp:196-202 | the failing family: the key with a byte appended is admitted, differs from the key, and its block is skipped |
| ZoneMaps.NotEqualSkipsLonger | include/tae_zonemap.hpp:196-202 | a minimum "a" and a maximum cut to "a" under `<> 'a'`: "a" with a zero byte is admitted and skipped |
| ZoneMaps.StringPruneTight | include/tae_zonemap.hpp:189-216 | a kept block always admits a matching string, so nothing more could be skipped |
| Filters.CompareStringsIsLex | src/tae_filter.cpp:404-434 | the row test's memcmp-then-length comparison is the lexicographic order |
| Filters.FilterList.ExtractExpression | src/tae_filter.cpp:151-194 | appends the filters of a supported tree in tree order, or fails exactly when some constant cannot be encoded |
| Filters.FilterList.ExtractChildren | src/tae_filter.cpp:151-194 | appends the filters of all conjuncts in order |
| Filters.FilterList.EncodeList | src/tae_filter.cpp:151-194 | encodes every IN element, or fails exactly when one cannot be encoded |
| Filters.EncodedReadsBack | src/tae_filter.cpp:49-119 | exactly the constants of the column's type are encoded, and read back as the same string or epoch-shifted number |
| Filters.ComparePreserved | src/tae_filter.cpp:306-474 | a comparison filter passes a row exactly when the SQL comparison with the unencoded constant is TRUE |
| Filters.InListPreserved | src/tae_filter.cpp:404-434 | an IN filter passes exactly when EQUAL with some listed value is TRUE |
| Filters.ExtractionPreservesMeaning | src/tae_filter.cpp:122-203 | a row passes all extracted filters exactly when the tree is TRUE in three-valued logic, nulls included |
| Filters.AndPreservesMeaning | src/tae_filter.cpp:151-194 | the filters of a conjunction pass exactly when every conjunct is TRUE |
| Filters.TreeDecides | src/tae_filter.cpp:306-474 | on FLAT or CONSTANT columns, where nulls decide a tree or its value can be read, its filters pass exactly when it is TRUE of what a query sees |
| Filters.FilterPruneSound | src/tae_filter.cpp:240-263 | a zone map that describes a row never rejects a filter the row passes |
| Filters.InPruneSound | src/tae_filter.cpp:240-263 | the same for IN lists |
| Filters.ApplyRowFilters | src/tae_filter.cpp:476-508 | the selection of a chunk is exactly its passing rows, in order |
| Filters.TestRow | src/tae_filter.cpp:476-508 | a row is selected exactly when every filter passes |
| Chunks.SelectedConcatenates | src/tae_scanner.cpp:703-748 | selections of adjacent row ranges concatenate to the selection of their union |
| Chunks.ChunksAreTheBlock | src/tae_scanner.cpp:703-748 | chunks of any size concatenate to the filter of the whole block |
| Vectors.DecodeVector | src/tae_object_reader.cpp:425-497 | the cursor walk computes the decoding specification, with the same failures |
| Vectors.ReadNulls | src/tae_object_reader.cpp:469-487 | reads the null section: absent, short, or count and bitmap words |
| VectorWriter.BuildNullBitmap | test/gen_test_data.py:179-203 | writes count, word count, size and the bitmap with bit r of word r/64 set exactly for null rows |
| VectorWriter.MarkedBits | test/gen_test_data.py:179-203 | bit k of word w is set exactly when row 64w+k is null |
| VectorWriter.NullSectionRoundTrip | src/tae_object_reader.cpp:469-487 | reading a written null section gives back its count and each row's null flag |
| VectorWriter.BuildVector | test/gen_test_data.py:218-306 | assembles type, rows, data, area and null sections of the given values |
| VectorWriter.SlotsRoundTrip | include/tae_types.hpp:90-110 | every string comes back from its inline or area-referenced slot |
| VectorWriter.VectorRoundTrip | src/tae_object_reader.cpp:425-497 | decoding undoes writing: row i is value i, and null exactly when written as null |
| ConstantVector.BuildConstantVector | test/gen_test_data.py:309-356 | writes one value for all rows, refusing exactly the unsupported types and long strings |
| ConstantVector.ConstantDecoded | src/tae_object_reader.cpp:425-497 | decoding a written constant vector gives back type, rows, value and nulls |
| ConstantVector.ConstantRoundTrip | src/tae_column_fill.cpp:112-191 | a decoded constant vector shows its value at every position of any chunk |
| ConstantVector.ConstantFilterExact | src/tae_filter.cpp:306-474 | the filters of a tree read inside a CONSTANT column's data at a row, and then pass exactly when the tree is TRUE of the constant, if and only if they test nulls only, the constant is NULL, or the row is 0 |
| ConstantVector.ConstantReads | src/tae_filter.cpp:306-474 | a tree can be tested on a CONSTANT column at a row if and only if it tests nulls only, the constant is NULL, or the row is 0 |
| ConstantVector.ConstantFilterFails | src/tae_filter.cpp:306-474 | two rows of the constant 42 under `= 42`: both match, the second has no data to test |
| ZoneMapWriter.BuildZoneMapNumeric | test/gen_test_data.py:111-158 | stores both bounds (numbers, floats as their bytes, 16-byte values), zeros after them, lengths, init flag and type, or fails exactly when a bound cannot be packed; nothing for other widths |
| ZoneMapWriter.BuildZoneMapString | test/gen_test_data.py:161-176 | stores both bounds cut to 30 bytes, the maximum never flagged truncated |
| ZoneMapWriter.TwoByteBounds | test/gen_test_data.py:111-158 | a two-byte type's written zone map bounds only zeros |
| ZoneMapWriter.NarrowBoundIff | test/gen_test_data.py:111-158 | a bound of a 128-bit type stored in 8 bytes is read back if and only if it is not negative |
| ZoneMapWriter.WideRead | test/gen_test_data.py:111-158 | bounds stored in 16 bytes are read back |
| ZoneMapWriter.StringZoneBoundsIff | test/gen_test_data.py:161-176 | a written string zone map admits everything between the given bounds if and only if the upper one fits 30 bytes |
| ZoneMapWriter.WrittenStringsDescribed | include/tae_zonemap.hpp:103-140 | a string column read back is described by the zone map written from bounds of its values |
| ZoneMapWriter.WrittenNumbersDescribed | include/tae_zonemap.hpp:66-79 | likewise for one-, four- and eight-byte numbers |
| Metadata.ParseMetadata | src/tae_object_reader.cpp:255-355 | computes the metadata specification, block by block |
| Metadata.ParseBlockInfo | src/tae_object_reader.cpp:328-353 | reads a block's header and as many column entries as are declared and fit |
| MetadataWriter.BuildBlockHeader | test/gen_test_data.py:368-381 | packs rows, column counts and the last sequence number at their offsets, zeros elsewhere |
| MetadataWriter.ColumnRoundTrip | test/gen_test_data.py:384-398 | parsing a packed column entry gives back type, counts, extent and zone map |
| MetadataWriter.BlockRoundTrip | test/gen_test_data.py:509-519 | parsing a block's entry gives back its rows and all columns |
| MetadataWriter.IndexedBlob | test/gen_test_data.py:521-537 | each index entry leads to its own block's entry |
| MetadataWriter.MetaRoundTrip | test/gen_test_data.py:461-539 | parsing built metadata gives back every block, in order |
| CrcBlocks.StripCrc32Blocks | src/tae_object_reader.cpp:123-139 | removes each block's checksum, partial last block included |
| CrcBlocks.TargetedStrip | src/tae_object_reader.cpp:157-176 | stripping only the blocks around a range decides whether it fits and gives the same bytes as stripping everything |
| CrcBlocks.EmptyRange | src/tae_object_reader.cpp:157-176 | a read of no bytes at a block boundary stays within the file, even where 64-bit arithmetic wraps around |
| CrcBlocks.ContentStartsInside | src/tae_object_reader.cpp:157-176 | the block of every content offset starts within the file |
| CrcBlocks.StripUndoesWrap | src/tae_object_reader.cpp:117-139 | stripping undoes wrapping for every content and any checksum bytes |
| CrcBlocks.FormsNeverConfused | src/tae_object_reader.cpp:92-114 | detection tells the raw and the wrapped form apart whatever the checksum is, and both stand for the same content |
| Coalescing.SortByOffset | src/tae_object_reader.cpp:536-538 | sorts the requests by offset, keeping all of them |
| Coalescing.Coalesce | src/tae_object_reader.cpp:540-567 | unless some request ends 4 GiB behind its range's start, ranges are sorted, disjoint, more than the gap apart; each request lies in its range; each range ends where a request ends; bytes read are at most those requested plus one gap per merge |
| Coalescing.AddRequest | src/tae_object_reader.cpp:550-567 | a request extends the last range or starts a new one beyond the gap |
| Coalescing.ExtendStep | src/tae_object_reader.cpp:552-563 | extending the last range keeps all of that |
| Coalescing.NewStep | src/tae_object_reader.cpp:565-566 | so does starting a new range |
| Coalescing.AnchoredStep | src/tae_object_reader.cpp:550-567 | both keep every range starting at a request, whatever the lengths |
| Coalescing.WideRangeIsCutOff | src/tae_object_reader.cpp:550-563 | requests of 2^32 - 1 and of 10 bytes behind it become a range of 9 bytes |
| Coalescing.RangesFitIffRequestsFit | src/tae_object_reader.cpp:550-571 | all ranges lie within the content exactly when all requests do |
| ObjectReader.TAEObjectReader.ReadRawBytes | src/tae_object_reader.cpp:61-82 | whatever has been read or detected before, cached or not, the bytes are the file's |
| ObjectReader.TAEObjectReader.DetectCrcFormat | src/tae_object_reader.cpp:92-114 | detection succeeds exactly for the two forms; a failure leaves the format marked as raw |
| ObjectReader.TAEObjectReader.ReadBytes | src/tae_object_reader.cpp:149-177 | logical reads at any offset, empty ones included, succeed exactly when the range fits the content and give that slice, in either form |
| ObjectReader.TAEObjectReader.ReadCrcBytes | src/tae_object_reader.cpp:156-177 | the same for the targeted block read |
| ObjectReader.TAEObjectReader.ReadMeta | src/tae_object_reader.cpp:361-400 | succeeds exactly when the logical content has valid metadata, and holds it |
| ObjectReader.TAEObjectReader.ReadBlock | src/tae_object_reader.cpp:507-619 | for any gap, order, duplicates and overlaps: what reading and decoding each column on its own gives, in request order; only requests that span 4 GiB may fail together |
| ObjectReader.TAEObjectReader.ReadColumns | src/tae_object_reader.cpp:515-618 | the same, given the block's column entries |
| ObjectReader.TAEObjectReader.ReadRanges | src/tae_object_reader.cpp:568-571 | reads every range, failing exactly when one does not fit |
| ObjectReader.TAEObjectReader.SliceAndDecode | src/tae_object_reader.cpp:572-618 | puts each decoded column back at its request position, failing whenever a request was too wide for its range |
| ObjectReader.TAEObjectReader.SliceOne | src/tae_object_reader.cpp:576-615 | a column cut out of its range decodes like one read alone |
| ObjectWriter.TAEFileBuilder.Build | test/gen_test_data.py:411-459 | the bytes are header, columns and metadata with every extent in place |
| ObjectWriter.TAEFileBuilder.WriteColumns | test/gen_test_data.py:420-436 | appends a block's columns and records their extents |
| ObjectWriter.TAEFileBuilder.BuildMetadata | test/gen_test_data.py:461-539 | builds the metadata of all blocks |
| ObjectWriter.Layout.ExtentHoldsColumn | test/gen_test_data.py:420-436 | the bytes at a recorded extent are that column's entry |
| ObjectWriter.Layout.FileMeta | src/tae_object_reader.cpp:361-400 | the built file's metadata reads back: block count, rows, extents, zone maps |
| ObjectWriter.Layout.FileColumn | src/tae_object_reader.cpp:507-619 | a column read at its recorded extent is the vector it was built from |
| FileRoundTrip.FormIsRecognised | src/tae_object_reader.cpp:92-114 | a built file is recognised raw or wrapped, and stands for the built bytes |
| FileRoundTrip.WriteThenRead | src/tae_object_reader.cpp:361-619 | build, store in either form, open with any gap and threshold, read any columns in any order: metadata and every value and null come back, of FLAT and CONSTANT columns |
| FileRoundTrip.DemandsCanBeMet | test/gen_test_data.py:411-539 | a file of two rows, a FLAT column of 5 and NULL and the constant 42, meets the demands of the round trip |
| ColumnFill.OutVector.CopyNumbers | src/tae_column_fill.cpp:16-47 | copies the chunk's numbers, dates and timestamps shifted to the Unix epoch |
| ColumnFill.OutVector.CopyVarlen | src/tae_column_fill.cpp:49-81 | copies the chunk's strings |
| ColumnFill.OutVector.SetNullMask | src/tae_column_fill.cpp:94-109 | clears validity exactly at the chunk's null rows, and sets none |
| ColumnFill.OutVector.FillConstant | src/tae_column_fill.cpp:112-191 | makes the vector constant, null when empty or marked |
| ColumnFill.OutVector.Repeat | src/tae_scanner.cpp:722-733 | writes one value to the chunk's positions and changes nothing else |
| ColumnFill.OutVector.FillColumn | src/tae_column_fill.cpp:193-230 | the vector becomes the fill specification of its old state |
| ColumnFill.NullsAgree | src/tae_filter.cpp:306-315 | filter and fill see the same nulls if and only if a zero null count means no bit is set |
| ColumnFill.StringsAgree | src/tae_column_fill.cpp:49-81 | filter and fill read the same string if and only if the slot is inline, marked big, or refers to no bytes inside the area; marked slots outside the area pass every comparison |
| ColumnFill.FillCopiesCell | src/tae_column_fill.cpp:16-109 | the fill copies the cell the filter tests |
| ColumnFill.FreshFillShowsChunk | src/tae_column_fill.cpp:193-230 | a fresh vector, filled from a FLAT or CONSTANT column, shows exactly what a query sees in the chunk |
| ColumnFill.StateAfterPasses | src/tae_scanner.cpp:750-759 | after several passes a position is valid only if no pass marked it null, and the vector is constant if any pass was |
| ColumnFill.CellIsSeen | src/tae_column_fill.cpp:112-230 | the cell a pass is meant to show is what a query sees in its chunk |
| ColumnFill.RetryExact | src/tae_scanner.cpp:750-759 | refilling the same vector shows the selected positions of the last chunk correctly if and only if no earlier pass left a null where it has a value or, once any pass was CONSTANT, they equal its first cell and position 0 was not left null |
| ColumnFill.RetryCanHideValue | src/tae_scanner.cpp:750-759 | a null row filtered out by `= 5`, then a row of value 5, shown as NULL |
| ColumnFill.RetryKeepsConstant | src/tae_scanner.cpp:750-759 | a CONSTANT 7 filtered out by `< 3`, then rows of 1 and 2 without any null: the second is shown as 1 |
| ColumnMap.ColumnState.CollectColumns | src/tae_scanner.cpp:286-302 | collects stored columns in order and where each is decoded, failing exactly on an unknown id |
| ColumnMap.ColumnState.MapOutputs | src/tae_scanner.cpp:304-322 | each slot is filled from its own position |
| ColumnMap.ColumnState.PushFilters | src/tae_scanner.cpp:324-343 | pushes the filters of all entries in order, or fails exactly when one is unsupported |
| ColumnMap.ColumnState.PushEntry | src/tae_scanner.cpp:328-342 | the same for one entry |
| ColumnMap.DecodedPosition | src/tae_scanner.cpp:286-302 | the decoded column at an id's position is the id's physical column |
| ColumnMap.SlotShowsItsColumn | src/tae_scanner.cpp:304-322 | every slot shows its own column, duplicates and virtual columns included |
| ColumnMap.OutputMapExact | src/tae_scanner.cpp:304-322 | the output is the requested projection if and only if it is absent, shorter than the column list, or a permutation of nothing visible |
| ColumnMap.SwapIsIgnored | src/tae_scanner.cpp:304-322 | columns 0 and 1 projected as 1 and 0: the first slot shows column 0 |
| ColumnMap.EntryMeaning | src/tae_scanner.cpp:324-343 | an entry's filters pass a row exactly when its tree is TRUE of what a query sees in its own column, FLAT, or CONSTANT where nulls decide |
| ColumnMap.FiltersMeanEntries | src/tae_scanner.cpp:324-343 | all pushed filters pass exactly when every entry is TRUE |
| ScanMachine.StepConserves | src/tae_scanner.cpp:609-748 | a step hands over the front of what its thread holds, or takes one unit |
| ScanMachine.StepDecreases | src/tae_scanner.cpp:609-759 | every step that does not end the call decreases (unclaimed units, rows left), whatever other threads do |
| ScanMachine.CallContract | src/tae_scanner.cpp:609-783 | one call returns the next run of at most 2048 rows, or none with nothing pending and the queue exhausted |
| ScanMachine.CallEmptyIff | src/tae_scanner.cpp:703-759 | a call returns no row if and only if thread and queue have none left |
| ScanMachine.AdvanceKeepsInv | src/tae_scanner.cpp:615-682 | every step of any thread keeps conservation, block counts, exclusive claims and finished threads |
| ScanMachine.RunKeepsInv | src/tae_scanner.cpp:609-783 | the invariant holds after any number of steps of any schedule |
| ScanMachine.CountsGrow | src/tae_scanner.cpp:648-654 | blocks counted never decrease and never exceed the queue |
| ScanMachine.AllToldAllEmitted | src/tae_scanner.cpp:609-783 | when every thread has been told "0 rows", the rows emitted are the queue's, each once |
| ScanMachine.CallExtendsRun | src/tae_scanner.cpp:609-783 | a call made at any point of a run is a run with a longer schedule |
| ScanMachine.FairRunEnds | src/tae_scanner.cpp:609-783 | once every thread has had enough turns, in any interleaving, each has been told "0 rows" |
| ScanMachine.FillsOfCall | src/tae_scanner.cpp:609-759 | of the chunks that one call fills its vectors with, those of blocks without rows included, all but the last have no passing row, and the call returns the last one's; when it returns nothing, none has a passing row |
| EmitLoop.Execute | src/tae_scanner.cpp:609-783 | one call, on either path, on the shared and the thread's state and the table's files or manifest, is the machine's call: rows, new state and counters; every slot's vector has gone through exactly the call's fills, and the rows returned are at the selected positions of the last one |
| EmitLoop.EmitFiltered | src/tae_scanner.cpp:609-783 | the emit loop on files computes the machine's call, and fills the slots with the machine's fills, blocks without rows included |
| EmitLoop.EmitChunk | src/tae_scanner.cpp:703-759 | fills every slot with the next chunk, empty or not, selects the chunk's passing rows, and advances or clears the pending block |
| EmitLoop.FillPending | src/tae_scanner.cpp:712-735 | every slot's vector goes through one fill with the pending block's next rows, path and index |
| EmitLoop.FilterPending | src/tae_scanner.cpp:737-759 | selects the chunk's passing rows, counts them as emitted, and advances or clears |
| EmitLoop.EmitCounted | src/tae_scanner.cpp:551-606 | the metadata-only path computes its call, counts no block, and fills the slots once |
| EmitLoop.SlotStateStep | src/tae_scanner.cpp:712-735 | a slot's state after one more fill is that fill applied to its state before |
| EmitLoop.VirtualSlotsShow | src/tae_scanner.cpp:722-733 | after a call on either path, retries included, a virtual slot shows at each returned row its own object's path, or its own block's index as a 32-bit number |
| OutputSlots.FillSlots | src/tae_scanner.cpp:712-735 | every slot's vector becomes its fill from its decoded column, path or block index |
| OutputSlots.StoredSlotAfter | src/tae_scanner.cpp:712-721 | over any number of chunks, a stored slot has gone through its own column's passes |
| OutputSlots.VirtualSlotShows | src/tae_scanner.cpp:722-733 | over any number of chunks, a virtual slot shows the last one's path or block index |
| Scanner.ClaimUnit | src/tae_scanner.cpp:615-682 | claims a unit and skips it or makes it pending, with the columns its file delivers |
| Scanner.LoadUnit | src/tae_scanner.cpp:625-682 | opens the unit's file, and skips the unit by its zone maps or reads it into the pending block |
| Scanner.OpenReader | src/tae_scanner.cpp:625-645 | keeps the thread's reader for the same object, else opens one with the file's metadata |
| Scanner.ReadUnit | src/tae_scanner.cpp:665-674 | reads the unit's columns as the file stores them |
| Scanner.ProgressOverRun | src/tae_scanner.cpp:918-929 | when files are read, progress never falls, never exceeds 100, and is 100 at the end |
| Scanner.FinalProgress | src/tae_scanner.cpp:918-929 | in the end progress is 100 if and only if queue and pruned blocks make up the table; a cut queue ends below |
| MetadataScan.CountsSumToRows | src/tae_scanner.cpp:524-534 | per-block counts add up to the object's rows if and only if it is small or large enough for its blocks |
| MetadataScan.LastCountWraps | src/tae_scanner.cpp:524-534 | 8193 rows in 3 blocks: the last count is 2^64 - 8191 |
| MetadataScan.CountsPositive | src/tae_scanner.cpp:524-534 | no count is zero if and only if there are rows for every block |
| MetadataScan.FastCallIsCall | src/tae_scanner.cpp:551-606 | with positive counts the metadata-only call is the general call |
| MetadataScan.NoEarlyStopIff | src/tae_scanner.cpp:551-606 | "0 rows" is answered only at the end of the queue if and only if no count is zero |
| MetadataScan.FastRunKeeps | src/tae_scanner.cpp:551-606 | any interleaving of calls conserves rows, and each claim of an empty unit or past the end has stopped one thread |
| MetadataScan.FastRunEnds | src/tae_scanner.cpp:551-606 | in the end exactly the rows of the units before the `threads`-th empty one have been emitted, for any interleaving |
| MetadataScan.FairCallsEnd | src/tae_scanner.cpp:551-606 | enough calls of every thread tell each "0 rows" |
| MetadataScan.CountStar | src/tae_scanner.cpp:551-606 | when every thread is done, where the counts add up, the manifest's number of rows has been emitted if and only if no rows lie past the last empty block that the threads can afford; always if no count is zero |
| MetadataScan.EarlyStopLosesRows | src/tae_scanner.cpp:524-606 | 1 row in 2 blocks, one thread: no row is counted |
| MetadataAnswer.MetadataAnswerExact | src/tae_scanner.cpp:524-606 | a query without columns or filters gets its rows if and only if every block before the `threads`-th zero count has the manifest's count of rows and every other block none; without zero counts, if and only if all counts are right |
| MetadataAnswer.MetadataProgress | src/tae_scanner.cpp:551-606 | on that path progress stays 0, and is 100 if and only if there are no blocks |
| MetadataAnswer.BlockIdsShift | src/tae_scanner.cpp:524-606 | 4 rows in blocks of 3 and 1: the block ids come out as 0, 0, 1, 1, and progress as 0 |
| WorkQueue.QueueBuilder.Build | src/tae_scanner.cpp:366-416 | the queue of kept blocks in order; every block seen is queued or counted as skipped; objects without work are counted |
| WorkQueue.QueueBuilder.AddFiltered | src/tae_scanner.cpp:372-408 | one object: pruned by the manifest's zone map, or its kept blocks queued |
| WorkQueue.QueueBuilder.AddAll | src/tae_scanner.cpp:410-415 | without filters all manifest blocks are queued |
| WorkQueue.BlockPruneSound | src/tae_filter.cpp:265-275 | a block with a passing row is kept |
| WorkQueue.ObjectPruneSound | src/tae_filter.cpp:277-285 | an object with a passing row is not ruled out by the manifest's zone map |
| WorkQueue.WorkIsRows | src/tae_scanner.cpp:647-651 | re-checking a block's zone maps loses no row |
| WorkQueue.QueueYieldsTable | src/tae_scanner.cpp:366-416 | scanning the queue yields, in order, exactly what reading and filtering every block yields |
| WorkQueue.SeenIsManifest | src/tae_scanner.cpp:376-409 | queued and skipped blocks together are the manifest's blocks |
| ScanOrder.SortUnits | src/tae_scanner.cpp:469-491 | a permutation of the queue sorted by key in either direction, null keys last |
| ScanOrder.Truncate | src/tae_scanner.cpp:493-505 | the shortest prefix whose rows reach the limit, or everything |
| ScanOrder.ReadKeys | src/tae_scanner.cpp:437-467 | the row count and zone-map range of every queued block, none where the block has no such column |
| ScanOrder.OrderWorkUnits | src/tae_scanner.cpp:418-507 | in all cases the kept queue is such a prefix of such a permutation |
| ScanOrder.PrecedesWeakly | src/tae_scanner.cpp:471-483 | the sort comparator is a strict weak order |
| LimitCut.FirstIsUnique | src/tae_scanner.cpp:493-505 | the first N rows of an ordered collection are unique |
| LimitCut.CutSafeIff | src/tae_scanner.cpp:493-505 | keeping k blocks preserves the first N rows for everything the zone maps and null counts allow, if and only if every dropped block starts, and has its nulls, no earlier than where N kept rows are sure to have come |
| LimitCut.DisjointCutIsSafe | src/tae_scanner.cpp:418-507 | without filters or nulls and with disjoint ranges, the truncated queue has the same first N rows, ascending or descending, sorted by either end |
| LimitCut.FilteredCutSafeIff | src/tae_scanner.cpp:493-505 | under filters the cut is safe if and only if everything dropped is empty |
| LimitCut.OverlapLosesRows | src/tae_scanner.cpp:493-505 | ranges 0..10 and 1..2 with LIMIT 1: the dropped block may hold the smallest row |
| LimitCut.NullsLoseRows | src/tae_scanner.cpp:493-505 | two nulls and a 0 in one block, a 1 in the next, LIMIT 2: the 1 is lost |
| LimitScan.BoundedAtRows | src/tae_scanner.cpp:450-464 | the sort keys bound a block's keys if and only if they bound the value at every row that is not null |
| LimitScan.DescribedIsWithin | src/tae_scanner.cpp:437-467 | a value that an initialised zone map describes lies between its sort keys if and only if a boolean is stored as 0 or 1 and a string does not exceed the stored maximum |
| LimitScan.UninitialisedLosesRows | src/tae_scanner.cpp:450-464 | a 5 under 64 zero bytes sorts as 0..0, before a 1 under 1..1: LIMIT 1 loses the 1 |
| LimitScan.LimitedScan | src/tae_scanner.cpp:418-783 | any threads and interleaving scanning the cut queue emit rows whose first N keys are those of the table, whenever the sort keys bound the values and, with the null counts, allow the cut |
| LimitScan.DisjointLimitedScan | src/tae_scanner.cpp:418-783 | in particular with disjoint ranges and no nulls, in either direction |
| ScanOrder.NumberKeysBound | src/tae_filter.cpp:514-559 | a number within the zone map's bounds lies between the sort keys, if and only if a boolean is stored as 0 or 1 |
| ScanOrder.StringKeysBound | src/tae_scanner.cpp:453-464 | so does a string it admits, if and only if the string does not exceed the stored maximum, which an untruncated one guarantees |
| ScanAnswer.RowMeaning | src/tae_filter.cpp:306-508 | a row passes the pushed filters exactly when it matches the query |
| ScanAnswer.QueueIsReadable | src/tae_scanner.cpp:703-748 | every row of every queued block can be tested |
| ScanAnswer.ScanAnswersQuery | src/tae_scanner.cpp:366-783 | for any query that reads files, any objects, queue order, threads and interleaving, in the end every matching row has been emitted exactly once and no other row |
| ScanAnswer.AnswerCounts | src/tae_scanner.cpp:366-783 | the answer lists every matching row once and nothing else |
| ScanAnswer.FairScanAnswers | src/tae_scanner.cpp:366-783 | after enough turns of every thread the answer is out |
| ScanAnswer.TableProgress | src/tae_scanner.cpp:918-929 | for such a query, queued and pruned blocks make up the manifest's total, so progress is monotone, at most 100, and 100 at the end |
| ScanAnswer.ChunkShowsMatches | src/tae_scanner.cpp:703-748 | a chunk, FLAT or CONSTANT, filled into a fresh vector and compacted shows its slot's own column at the matching rows, in order |
| ScanAnswer.CallShowsRows | src/tae_scanner.cpp:609-759 | after the fills of one call, retries and blocks of no rows included, the vector of any stored slot shows exactly the cells of the rows returned if and only if the retries were harmless at their positions |
| CallAnswer.SlotPasses | src/tae_scanner.cpp:712-721 | the state that `Execute` leaves in a stored slot is that of its column's passes over the call's fills |
| CallAnswer.ExecuteShowsRows | src/tae_scanner.cpp:609-759 | so after a call of `Execute` the slot shows the rows returned if and only if the retries were harmless |
| CallAnswer.EmptyBlockKeepsConstant | src/tae_scanner.cpp:676-721 | no filter, no null: a block of no rows with the CONSTANT 7, then a FLAT block of 1 and 2; one call fills both, and position 1 shows 1 instead of 2 |
| BuiltTable.UnitIsDelivered | src/tae_scanner.cpp:609-700 | opening a built file, raw or wrapped, and reading a block delivers the rows, zone maps and columns written |
| BuiltTable.BuiltTableAnswersQuery | src/tae_scanner.cpp:366-783 | for tables of built files and queries that read them, every call of Execute can be made, and in the end exactly the rows whose written values match have been emitted, each once |
| BuiltTable.StringZoneCovers | test/gen_test_data.py:161-176 | a written string zone map whose upper bound fits 30 bytes covers the strings between its bounds |
| BuiltTable.NumericZoneCovers | test/gen_test_data.py:111-158 | so does a numeric one of one, four or eight bytes |
| BuiltTable.BuiltDemandsCanBeMet | test/gen_test_data.py:411-539 | a table of 5, NULL and the constant 42 under the filter `= 5` meets every demand, and its answer is row 0 |
| BuiltScans.CellIsWritten | test/gen_test_data.py:411-539 | what a query sees in a cell of a built file is the value written there |
| BuiltScans.BuiltCallShows | src/tae_scanner.cpp:609-759 | over built files, the chunk of a call shows the values written at the rows returned if and only if the retries were harmless |
| BuiltScans.BuiltLimitedScan | src/tae_scanner.cpp:418-783 | over built files, any threads and interleaving scanning the cut queue emit rows whose first N values written are those of all rows written, whenever the sort keys cover the values and, with the nulls written, allow the cut |
| BuiltScans.BuiltMetadataAnswer | src/tae_scanner.cpp:551-606 | over built files, a query that reads none emits all rows written, each once, if and only if every block before the empty count that stops the last thread was written with the manifest's count of rows, and every other with none |

## Left out

- ScanAnswer.ScanAnswersQuery: queries that read no file take the metadata-only path, which `MetadataAnswer.MetadataAnswerExact` covers; filters that read the data of CONSTANT columns past row 0 are outside, and `ConstantVector.ConstantFilterExact` says what they do.
- ScanAnswer.ChunkShowsMatches: assumes a fresh vector; `ScanAnswer.CallShowsRows` is the statement for whole calls.
- ColumnMap.EntryMeaning: entries on virtual columns or on ids outside the schema say nothing; Init skips them, and pushdown is not offered for such ids (src/tae_scanner.cpp:973-976).
- LimitCut.CutSafeIff: a queued block with values has a zone map for the order column; the reader finds none only for a sequence number past the block's columns, and reading such a block fails.
- LimitScan.LimitedScan: scans without filters, where the sort keys bound the values; under filters `LimitCut.FilteredCutSafeIff` says that only empty blocks may be dropped.
- ScanOrder.OrderWorkUnits: float, 128-bit and UUID order columns have no key here; the conversions of their bounds are inside DuckDB.
- Filters.EncodedReadsBack: strings and integer-like types only; float, 128-bit decimal and UUID constants are not encoded, because their conversions are inside DuckDB.
- ZoneMapWriter.BuildZoneMapNumeric: a float bound is given as its bytes, and a byte string assigned to 16 bytes has that length.
- ObjectReader.TAEObjectReader.ReadBytes: in wrapped files, a range whose first block starts past the end of the file is a failed read; the original computes a negative length, as an unsigned number too large for any buffer.
- Metadata.ParseMetadata: lengths are unbounded integers, so 32-bit wrap-around on hostile lengths is not modelled.
- Floating-point, 128-bit integer and UUID comparisons: such columns are copied as raw bytes and never filtered.
- LZ4 itself: compression is a parameter assumed to be inverted by decompression.
- Overflow of the epoch shift of dates and timestamps, and of row counters.
- Sampling, and the branches taken without a thread-local state, which emit only the first 2048 rows of a block.
- The manifest: its parsing and hexadecimal decoding; its result is given.
- I/O errors, and the fallback at Init that queues all blocks of an unreadable object.
- Look-ahead prefetching and `posix_fadvise`, which have no effect on results.
- Column statistics, cardinality estimates, EXPLAIN text and metrics.
- DuckDB's own vectors, values and expression classes: replaced by sequences and small datatypes; the scan driver's pull loop is the schedule.
- Equality of the order in which `std::sort` leaves equal keys: any order is allowed, and nothing depends on it.
