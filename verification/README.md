# GoMDF, modelled and proved

A Dafny 4.11 model of GoMDF, a reader and writer of ASAM MDF 4 measurement files. It covers the writer as a state
machine whose file may be cut off by a crash at any point, the reader of segmented and compressed data sections with
its cache, record de-interleaving, variable-length strings, the bit-level decoders, the conversion rules with their
formula compiler and lookup tables, array expansion, column storage, windowed reading and bus decoding.

Where the program changes things in place, the model does so too: `Writer`, `File`, `Reader`, `LruCache`,
`BufferedReader`, `Record`, `Bitset`, `ExprParser`, `Accumulator` and `Chunks` are classes, and loops are loops. Each
method is proved against a specification function or property, and the theorems are about those.

How the files build on each other:

- `Wire`, `Bits`, `Bitset`: bytes, little-endian numbers, shifts and masks, packed flags.
- `Blocks`, `Meta`, `Zip`, `Transpose`: the blocks of the format, how they are composed and decoded.
- `Sections`, `Lru`, `SectionReader`: data sections as sorted segments, the cache, random access.
- `Tree`, `FileObject`: opening a file, as functions and as the object that is filled while chains are walked.
- `Store`, `WriterSpec`, `Definitions`, `RowStamps`, `WriterObject`, `Batch`: the growing file with its pending patches,
  the writer as a transition function, what its definition calls lead to, and the writer object that performs the same
  transitions.
- `Written`, `Streams`, `Runs`, `History`, `Closing`: the invariants every call keeps, on the level of blocks in the file.
- `SectionProof`, `StreamRoundTrip`, `TreeProof`, `RoundTrip`, `Vlsd`, `TextColumns`: what a reader finds after any
  history and `Close`.
- `Grown`, `Limits`, `Twins`, `Examples`: the growing layout with long texts, exactly when it reads back, and concrete
  files on both sides of that line.
- `Crash`, `CrashTexts`, `CrashLong`: what a reader finds after a crash, without string channels, with them, and with texts of any
  length.
- `Metadata`, `LateChannels`: what every call, append and patch leaves of the metadata tree, and channels added after recording has
  started.
- `Formula`, `FormulaPrint`, `FormulaAccepts`, `FormulaCompiler`: grammar, printing, accepted texts, compilation.
- `Numbers`, `Tables`, `Conversions`, `Rules`: conversion rules on values and columns, and their compilation.
- `Windows`, `Signals`, `Chunks`: columns read in chunks, converted in place, window by window.
- `Deinterleave`, `Dbc`, `Bus`, `Records`, `RecordObject`, `Arrays`, `ArrayPlaces`, `ColumnStorage`, `ColumnChains`: the other
  decoders.

The disk after a crash is a prefix of the bytes appended, at least as long as the last flush; during `Close` also the
complete file with the first patches applied, and finally with the identification block rewritten. zlib is a pair of
functions with `inflate(deflate(x), |x|) = x` as a hypothesis. The number parser of formulas and their arithmetic are
parameters (an algebra), as are the library's elementary functions, the reading and rendering of floating-point numbers
and the extraction of text from XML comments.

## What the code does that its comments do not say

- In the growing layout, a string channel that fills a chunk before `Close` writes its signal data into the middle of the
  data block. The closed file still opens, but its records are the bytes behind the block head, whatever they are
  (`Grown.GrownReadsIff`). It reads back for every choice of record bytes exactly when no string channel fills a chunk
  (`Twins.AnyRecordsIff`); a single recording can be lucky (`Examples.LongTextSurvives`) or not
  (`Examples.LongTextBreaks`).
- While `Close` writes signal data of string channels, the length of the data block in front of it is still open: a crash
  then gives the right record count exactly when less than one record length of it arrived (`CrashTexts.CutCountsIff`,
  `Examples.TailMiscounted`).
- A channel added after recording has started is accepted but has no block in the file. The closed file then never reads back
  (`LateChannels.ReadsIffNoLate`): the channel is missing, and when it is a string channel, Close patches its link into the header
  block, so that the file does not open (`LateChannels.StrayClosed`).
- A value table fails with an index out of range for a sample that is not a number (`Tables.LookupFails`,
  `Rules.FailsIff`); a text-to-text rule on a numeric channel, and a rule from numbers to texts on a string channel, call
  an operation the rule does not have (`Signals.ApplyConversion`).
- The rational rule skipped as an identity maps infinities to themselves, where its formula gives no number
  (`Rules.UnitQuotient`).
- A string channel of a group without rows cannot be read, because its link stays NIL (`Vlsd.StringColumn`).
- The element count of an array is kept in 64 bits, so the limit of 2^20 elements can be passed by wrapping around
  (`Arrays.CountWraps`); the limit holds exactly for arrays of less than 2^64 elements (`Arrays.LimitIff`).
- Integer channels of widths other than 8, 16, 32 and 64 bits are accepted, and setting one can write past it
  (`RecordObject.SetterStaysInside`) or, on the last channel, fail at run time (`RecordObject.SetterFailsIff`).
- Byte offsets of array elements are cut to 32 bits: elements of an array that reaches further can be placed on each other
  (`ArrayPlaces.LastOnFirst`), exactly as `ArrayPlaces.ElementsApartIff` says.
- The comment in `internal/conversion/numeric.go` says the search returns the first key above the argument; it returns
  the first key that is not below it, which is what the model does.

## Model

| member | source | states |
|---|---|---|
| Crash.CrashRecovery | writerdata.go:18-119 | crash safety: for one uncompressed group without string channels and any history of appends and flushes, every crash image from the end of `begin` to the end of `Close` opens; it holds exactly the first floor(durable record bytes / recSize) records, unchanged and in order, never fewer than were appended before the last `Flush`, and all of them once the image is complete |
| Crash.FlushedOnDisk | writer.go:179-184 | after any history, what precedes the last flush (metadata, head of the open block, the first so many records) is in the part of the file a crash cannot take away |
| Crash.CutOpens | internal/datasection/datasection.go:165-216 | any cut of the growing file behind the data block's head opens through the clamped length and the recomputed counter, and yields the surviving bytes' whole records |
| Crash.ClosingOpens | writerdata.go:107-120 | an image with none, one or both of the finalizing patches applied opens with the whole recording |
| Crash.ClosedOpens | writer.go:188-198 | with the identification block rewritten last, the closed file still reads as the whole recording |
| RoundTrip.CloseThenOpen | writerdata.go:273-310 | whole-file round trip: for any definitions and any interleaving of appends and flushes, the closed file opens as finalized version 4.10 with groups and channels in definition order and, per group, record count, data section and signal data equal to what was appended |
| RoundTrip.InPlaceIffShort | writerdata.go:182-189 | the state before Close: no string channel has written signal data yet exactly when every one gathered less than one chunk |
| RoundTrip.BufferedIffShort | writerdata.go:182-210 | a string stream has written nothing exactly when its text is shorter than a chunk |
| Limits.OnePieceIffShort | writergroup.go:219-239 | the state before Close: the file ends with the records, in one run behind the block head, exactly when no string channel reached a chunk; what a reader gets in the other case is the subject of the next rows |
| Grown.GrownOpens | internal/datasection/datasection.go:165-216 | for every history in the growing layout, long texts included, the closed file opens with all definitions, the record count and the signal data, and its data section is exactly the recorded length of bytes behind the block head |
| Grown.GrownReadsIff | writerdata.go:273-310 | so it reads back as recorded if and only if those bytes are the records |
| Limits.MarklessReadsIff | writergroup.go:219-239 | when no record has `#` among its first eight bytes, the closed file reads back if and only if no string channel fills a chunk |
| Twins.AnyRecordsIff | writergroup.go:219-239 | for given texts and a fixed channel in the first eight bytes of the record: every choice of record bytes reads back after Close if and only if no string channel fills a chunk |
| Examples.LongTextBreaks | writergroup.go:224-233 | one concrete definition and row through Open: a text as long as a chunk, and the closed file does not read back |
| Examples.LongTextSurvives | writergroup.go:224-233 | the same call with record bytes that look like the head of a signal data block: the file does read back, so short texts are not necessary for a single history |
| Limits.NothingBehindIff | writerdata.go:273-310 | Close appends nothing behind the growing data block if and only if no row was recorded or no channel is a string; otherwise signal data follows the block whose length is still open |
| CrashTexts.CutCountsIff | writerdata.go:273-310 | crash safety with string channels, texts shorter than a chunk: any cut from the block head to the end of what Close appends recovers the records that reached the file, and their count is right if and only if less than one record length of signal data follows them |
| CrashTexts.PatchedCountsRight | writerdata.go:107-120 | from the length patch on, every crash image holds the whole recording with the right count |
| CrashTexts.StoredAt | writergroup.go:219-239 | what is recovered are the stored records one by one, string offsets filled in |
| Examples.TailMiscounted | writerdata.go:273-310 | one concrete recording whose file, complete but for the length patch, opens with a wrong record count |
| CrashLong.LongCutOpens | internal/datasection/datasection.go:165-216 | crash safety with texts of any length: any cut of the growing file behind the block head opens with all definitions, and every byte between the head and the cut counts as recorded, as the recomputed count says |
| CrashLong.LongCutReadsIff | internal/datasection/datasection.go:165-216 | such a cut recovers the stored records up to it if and only if it is these that stand behind the head |
| CrashLong.LongPatchedOpens | writerdata.go:107-120 | at every crash point of Close from the length patch on, for texts of any length, exactly the recorded length of bytes behind the head counts |
| LateChannels.ReadsIffNoLate | writergroup.go:68-73 | after any appends, of the later, longer records too, any flushes and any channels added once recording has started, the closed file gives back all channels of the writer and everything appended if and only if no channel was added then |
| LateChannels.LateBreaks | writergroup.go:68-73 | the direction that needs no condition on texts: one late channel in any group is enough, since a late string channel has the header block's bytes overwritten on Close and any other channel is missing from the file |
| Examples.LateChannelBreaks | writergroup.go:68-73 | one concrete recording: one row, then any further channel, which the writer accepts, and the closed file does not read back |
| History.RunRunning | writergroup.go:205-241 | invariant over every history: the file holds the metadata tree of the definitions and, per group and string channel, exactly what that group's appends put there |
| History.StepRunning | writergroup.go:205-241 | one call keeps that invariant and adds exactly its row to exactly its group |
| Runs.ChunkedRecord | writergroup.go:219-241 | an append in the chunked layout extends the group's stream and its strings' streams by this row and only appends to the file |
| Runs.GrowingRecord | writergroup.go:234-238 | an append in the growing layout extends the open block by the record |
| Written.BeginWritten | writerdata.go:18-103 | `begin` leaves a complete metadata tree on disk, nothing buffered, with only counters and data links open |
| Written.GroupsWritten | writerdata.go:76-86 | writing groups backwards chains them in definition order, and no block of one group belongs to another |
| Written.PatchDataLink | writerdata.go:283-289 | the data link patch changes that link of that group in the file's block structure and no other block |
| Written.PatchCount | writerdata.go:299-300 | the counter patch changes the cycle count of that group and no other block |
| Written.PatchSignalLink | writerdata.go:290-298 | the signal data patch changes that link of that channel and no other block |
| Closing.GroupsClosed | writerdata.go:273-310 | finalizing the chunked layout leaves every link and counter of the first n groups final and every stored record in place |
| Closing.GrowClosed | writerdata.go:273-310 | finalizing the growing layout turns the open block into a complete one holding every record, provided no signal data was flushed before |
| Closing.PreparedFinal | writerdata.go:273-310 | after all finalizing patches every group's link, counter and signal links lead to everything appended |
| Store.PutKeeps | writer.go:120-143 | a new block lands behind everything written at the next multiple of 8, leaving the image a disjoint sequence of well-formed blocks |
| Store.PatchLinkKeeps | writer.go:145-147 | a queued 8-byte patch at link i of a block changes that link and keeps every other block's bytes |
| Store.PatchDataKeeps | writer.go:145-147 | the same for 8 bytes of a block's data |
| Store.ApplyKeeps | writerdata.go:107-120 | applying the patches and flushing does not change the file as it will finally be |
| TreeProof.TreeRead | tree.go:15-47 | walking data groups, channel groups and channels of a written tree returns the views of the definitions in order |
| TreeProof.OpenRead | file.go:102-140 | Open of a written file is that tree, with record counts recomputed exactly when the file is marked unfinalized |
| StreamRoundTrip.RoundTrip | writerdata.go:182-269 | for every chunk size, sequence of pieces and stored-or-deflated choice: the section behind the link reads as the concatenation, no segment is empty, record segments are whole records shorter than chunk plus record, and the link is NIL exactly when nothing was appended |
| Streams.AppendWritten | writerdata.go:182-189 | appending to a stream appends to what its parts and buffer stand for, whether or not a chunk goes out |
| Streams.FlushWritten | writerdata.go:193-210 | flushing moves exactly the buffered bytes into one new part |
| Streams.LinkWritten | writerdata.go:249-269 | linking leads to everything the stream stands for, by one block or a list with running offsets |
| SectionProof.LinkedRead | internal/datasection/datasection.go:72-163 | what the reader resolves behind a written link holds exactly the appended bytes |
| WriterSpec.AddChanTiles | writergroup.go:68-73 | adding a channel keeps the channels tiling the record without gap or overlap |
| Definitions.CallsDefine | writergroup.go:68-122 | any sequence of NewWriter, NewGroup and channel calls leads to a writer ready to record if and only if there is a group and every record has 1 to 2^32 - 1 bytes |
| Definitions.CallsLegible | writergroup.go:68-122 | if the names, units and comments passed to those calls have no NUL byte and units and comments do not start like XML, all definitions survive the file |
| WriterObject.Writer.Write | writer.go:120-125 | appends to the end of the file and returns where |
| WriterObject.Writer.WriteBlock | writer.go:128-133 | places the block at the next multiple of 8, as the specification's Put |
| WriterObject.Writer.Align8 | writer.go:137-143 | pads with zeros to a multiple of 8 |
| WriterObject.Writer.ApplyPatches | writerdata.go:107-120 | the loop over pending patches leaves the disk with all of them written in order and none pending |
| WriterObject.Writer.NewGroup | writer.go:153-166 | refused once recording started, otherwise one group more, with the time master as its first channel unless it is to have none |
| WriterObject.Writer.AddChannel | writergroup.go:68-73 | whether recording has started or not, the channel gets the next byte offset and the record grows by its width; the file stays as it is, and `LateChannels.ReadsIffNoLate` says what comes of that |
| WriterObject.Writer.SetLinearConversion | writergroup.go:114-117 | that channel's conversion changes and nothing else |
| WriterObject.Writer.SetComment | writergroup.go:120-122 | that channel's comment changes and nothing else |
| WriterObject.Writer.WriteGroupMeta | writerdata.go:122-178 | writes and links texts, conversions, channels, channel group and data group as the specification of a group does |
| WriterObject.Writer.BeginRecording | writerdata.go:18-103 | succeeds exactly when recording can begin, and then leaves the specified begun state |
| WriterObject.Writer.FlushChunkOf | writerdata.go:193-210 | the stream and file after writing a chunk, deflated only when that is shorter |
| WriterObject.Writer.AppendToStream | writerdata.go:182-189 | stream and file after appending, with a chunk written at the threshold |
| WriterObject.Writer.ListBlock | writerdata.go:253-266 | the filled-in list block equals the specified one: addresses, count and running offsets |
| WriterObject.Writer.Link | writerdata.go:249-269 | address, stream and file as specified for no, one and many segments |
| WriterObject.Writer.AppendTexts | writergroup.go:219-233 | every string joins its stream and its offset is stamped into the caller's record in place |
| WriterObject.Writer.Append | writergroup.go:205-241 | the new state is the specified step; refused exactly when recording cannot begin or the writer is closed; nothing but string offsets of the caller's record changes |
| WriterObject.Writer.Flush | writer.go:179-184 | buffered bytes reach the disk, nothing else changes |
| WriterObject.Writer.Finalize | writerdata.go:273-310 | the loop over groups leaves the specified finalized file |
| WriterObject.Writer.Close | writer.go:188-198 | the state after Close is the specified one; a second Close changes nothing |
| RowStamps.StampsAgree | writergroup.go:219-233 | stale string offsets in a reused record do not influence what is written nor the stamped record |
| RowStamps.StepSame | writergroup.go:205-241 | two records that differ only in string offsets lead to the same writer state |
| Batch.AppendColumns | writergroup.go:256-282 | the batch leaves exactly the state of the single appends of blank records filled row by row, although one record is reused; too few values or a mistyped column leave the writer untouched |
| Batch.AlikeRows | writergroup.go:263-276 | setting a row in a used record and in a blank one gives records that differ at most in string offsets |
| Batch.FailedIff | writergroup.go:140-144 | a record object is failed after the setters exactly when it was before or some column has the wrong type |
| Transpose.SourcesInverse | writerdata.go:314-325 | writer's and reader's position maps are mutually inverse permutations, remainder bytes included |
| Transpose.UntransposeTranspose | internal/datasection/dz.go:45-60 | transposition and its inverse undo each other in both orders whenever the writer's guard lets it transpose, and then the reader's guard does not skip |
| Transpose.TransposePermutes | writerdata.go:314-325 | transposing moves every byte to exactly one place |
| Transpose.TransposeInto | writerdata.go:314-325 | the nested loops compute the permutation |
| Transpose.Untranspose | internal/datasection/dz.go:45-60 | the nested loops, with the skip guard, compute the inverse |
| Zip.BuildDZ | writerdata.go:216-244 | a compressed block only when it is smaller, with transposition exactly for record streams of more than one record |
| Zip.DZFields | internal/blocks/dz.go:17-35 | the decoder reads the fields and the payload where the builder puts them |
| Blocks.Build | internal/blocks/encode.go:7-17 | link after link, the composed bytes are the encoding of the block |
| Blocks.RawBuilt | internal/blocks/block.go:119-139 | decoding an encoded block returns its header, links and data |
| Blocks.DecodeLinks | internal/blocks/block.go:119-139 | the loop returns every link as a signed 64-bit number |
| Blocks.EncodeSetLink | internal/blocks/encode.go:7-17 | eight bytes overwritten at link i give the encoding of the block with that link changed |
| Blocks.TextRoundTrip | internal/blocks/tx_md.go:12-37 | a text block always decodes, and to the text written exactly when that has no NUL byte |
| Blocks.BuildTX | internal/blocks/encode.go:20-26 | the padding loop gives the NUL-terminated text block of a multiple of 8 bytes |
| Meta.IDFields | internal/blocks/id.go:28-45 | version and unfinalized flags are read back from the identification block |
| Meta.DGFields | internal/blocks/dg.go:18-30 | chain, first group and data link are read back |
| Meta.CGFields | internal/blocks/cg.go:33-59 | name, first channel, cycle count and record size are read back |
| Meta.CNFields | internal/blocks/cn.go:39-83 | all links and the field layout of a channel are read back |
| Meta.CCFields | internal/blocks/cc.go:37-78 | the parameters of a linear conversion are read back in their order |
| Sections.SortedSorts | internal/datasection/datasection.go:89-91 | sorting returns the same segments in ascending order |
| Sections.FlatByte | internal/datasection/datasection.go:249-292 | over contiguous readable segments the byte found by search is that byte of one flat string, and there is none past its end |
| SectionReader.Reader.New | internal/datasection/datasection.go:72-87 | succeeds exactly when the section resolves, with the resolved, sorted segments |
| SectionReader.Reader.ResolveChain | internal/datasection/datasection.go:126-163 | the walk over list blocks collects the specified segments |
| SectionReader.Reader.SearchAfter | internal/datasection/datasection.go:257-258 | binary search returns one past the last segment that starts at or before the offset |
| SectionReader.Reader.Decompressed | internal/datasection/dz.go:11-28 | the payload is the decoding of the block, whether cached or not |
| SectionReader.Reader.Prefetch | internal/datasection/datasection.go:309-354 | keeps the reader valid: every cached payload stays the decoding of its segment |
| SectionReader.Reader.ReadAt | internal/datasection/datasection.go:249-292 | terminates and delivers the section's bytes up to the first one missing; the outcome depends on file and segments only, not on cache contents, budget or prefetching |
| SectionReader.OutcomeUnique | internal/datasection/datasection.go:249-292 | two reads of one request have the same bytes, count and failure, whatever the cache holds: a failing read stops before the first piece with an unreadable byte |
| SectionReader.Reader.ReadFlat | internal/datasection/datasection.go:249-292 | over contiguous readable segments ReadAt is slicing of one flat string and fails exactly when the request passes its end |
| Lru.EveryInterleavingKeepsInv | internal/datasection/cache.go:24-62 | over every interleaving of get and put steps by any number of workers, also two that missed the same key: keys unique and in recency order, size exact, within budget save one oversized entry, every payload the decoding of its segment, every read right |
| Lru.EveryRunFromEmpty | internal/datasection/cache.go:15-62 | so from the empty cache and idle workers on, every run ends in such a state |
| Lru.PutKeeps | internal/datasection/cache.go:34-52 | an insert keeps bookkeeping, order and budget, never replaces a payload already held, and invents none |
| Lru.EvictKeeps | internal/datasection/cache.go:41-48 | eviction drops oldest entries until the payload fits or nothing is left, keeping size and order exact |
| Lru.LruCache.Lookup | internal/datasection/cache.go:24-32 | a hit returns the payload and makes its key the most recent |
| Lru.LruCache.Insert | internal/datasection/cache.go:34-52 | the object's new state is the specified insertion |
| Lru.LruCache.TouchKey | internal/datasection/cache.go:54-62 | the key moves to the end, all others keep their order |
| FileObject.File.BuildChannels | tree.go:100-166 | the loop over the channel chain returns the specified views, or the first decoding error |
| FileObject.File.BuildTree | tree.go:15-47 | the nested loops append the specified groups in file order, service groups excluded |
| FileObject.File.FixCycleCounts | tree.go:285-298 | every record count is overwritten with the whole records its section holds |
| FileObject.OpenFile | file.go:102-140 | opens exactly the files the specification opens, with the same version, finalization and groups |
| Vlsd.OffsetIsEarlierBytes | writergroup.go:224-233 | the offset of a row's text is the sum of 4 + length over the earlier rows |
| Vlsd.OffsetStored | writergroup.go:224-233 | that offset stands in the channel's field of the stored record, undisturbed by later channels |
| Vlsd.OthersUntouched | writergroup.go:224-233 | bytes outside string fields are the caller's |
| Vlsd.EntryResolves | vlsd.go:28-53 | resolving the offset of row i gives the text of row i |
| Vlsd.ColumnResolves | vlsd.go:28-53 | all offsets resolve to the original texts in order |
| Vlsd.StringColumn | vlsd.go:14-54 | a string column reads back if and only if it has a row: with no rows the link is NIL, which the reader refuses |
| Vlsd.ResolveVLSD | vlsd.go:14-54 | value by value through the section reader the loop returns the resolved texts, wherever chunk borders fall |
| TextColumns.TextsRoundTrip | vlsd.go:14-54 | strings through the whole file: for every history and string channel, the offsets extracted from the opened file and resolved in its signal section give the appended texts in order, if and only if there is a row |
| TextColumns.FirstTextBreaks | writergroup.go:224-233 | with a string channel in front and one row, whatever its bytes, the growing file reads back if and only if no string channel fills a chunk |
| Deinterleave.ParsesIffEncoded | unsorted.go:30-114 | the pass yields these records if and only if the section is their encoding and every one is well tagged |
| Deinterleave.StreamsConserve | unsorted.go:30-114 | stream lengths plus ID bytes make up the section |
| Deinterleave.StreamOfAppend | unsorted.go:83-105 | records of one ID keep their order whatever stands between them |
| Deinterleave.StreamAround | unsorted.go:83-105 | record i stands in its ID's stream between the bodies of the earlier and the later records of that ID |
| Deinterleave.ValueAtOffset | unsorted.go:86-97 | the stream of a variable-length ID is signal data: the i-th record's value is found at the length of the stream before it |
| Deinterleave.Deinterleave | unsorted.go:30-114 | succeeds exactly when the ID size is legal and the section parses into whole records with known IDs; every ID's buffer is then its stream |
| Deinterleave.BufferedReader.Read | unsorted.go:128-141 | delivers the next bytes of the section, and fails exactly at its end |
| Deinterleave.BufferedReader.ReadFull | unsorted.go:118-141 | succeeds exactly when so many bytes are left, and delivers them |
| Deinterleave.ReadRecord | unsorted.go:70-104 | the next record, or failure exactly when none starts at the cursor |
| Dbc.RawFails | internal/dbc/decode.go:13-21 | extraction fails if and only if the length is out of range or some byte the field touches is missing |
| Dbc.RawLittle | internal/dbc/decode.go:23-37 | shifts, ninth byte and mask compute the sum of bit(start + i) * 2^i |
| Dbc.RawBig | internal/dbc/decode.go:39-60 | shifts, ninth byte and mask compute the field read most significant bit first |
| Dbc.IntelDigits | internal/dbc/decode.go:23-37 | the bit sum is the digits of the payload as one little-endian number |
| Dbc.MotorolaDigit | internal/dbc/decode.go:39-60 | bit q of the Motorola numbering is a bit of the payload as one big-endian number |
| Dbc.LeWord | internal/dbc/decode.go:63-73 | the loop gives the little-endian value of at most eight bytes |
| Dbc.BeWord | internal/dbc/decode.go:76-86 | the loop gives the big-endian value of eight bytes, missing ones zero |
| Dbc.SignedIsTwosComplement | internal/dbc/decode.go:127-133 | a signed signal is the two's complement reading of its bits |
| Records.BitField | internal/records/bits.go:10-27 | the accumulator loop, truncated to one word, computes the specified field |
| Records.WordExact | internal/records/bits.go:10-27 | a field that ends within 64 bits is (integer of the bytes / 2^bitOffset) mod 2^bitCount |
| Records.WordExactIff | internal/records/bits.go:10-27 | one word is right for every payload if and only if the field is empty or ends within 64 bits |
| Records.FastAgrees | internal/records/extract.go:59-117 | the aligned fast paths agree with the bit-by-bit one |
| Records.SampleExact | internal/records/extract.go:59-117 | an integer sample within 64 bits is the field, or its two's complement value when signed |
| Records.Extract | internal/records/extract.go:18-56 | samples of all records join the column and their flags the flag set; fails exactly when buffer or field do not fit |
| RecordObject.SetUintRead | writergroup.go:171-178 | extracting an 8, 16, 32 or 64 bit channel returns the value set, reduced to its width |
| RecordObject.SetIntRead | writergroup.go:161-168 | the same with sign; a value in range comes back unchanged |
| RecordObject.OthersUntouched | writergroup.go:148-200 | a setter leaves every other channel's sample alone |
| RecordObject.SetterStaysInside | writergroup.go:189-200 | the integer setter stays within its channel if and only if the channel is as wide as what it writes |
| RecordObject.SetterFailsIff | writergroup.go:189-200 | the setter writes past the end of the record, a failure at run time, never on a channel as wide as what it writes, and on the last channel exactly when that is narrower |
| RecordObject.Record.SetFloat64 | writergroup.go:148-158 | writes 8 or 4 bytes of a float channel, failing at run time and writing nothing where they do not fit in the record; another channel only records the first failure |
| RecordObject.Record.SetInt | writergroup.go:161-168 | writes the value modulo 2^64, cut to the width, failing at run time and writing nothing where that does not fit in the record; another channel only records the first failure |
| RecordObject.Record.SetUint | writergroup.go:171-178 | the same for an unsigned value |
| RecordObject.Record.SetString | writergroup.go:181-187 | keeps the text of a string channel, or records the failure |
| Bitsets.Bitset.Append | internal/records/bitset.go:17-25 | one flag more at the end of the sequence the words stand for |
| Bitsets.Bitset.Get | internal/records/bitset.go:28-33 | the flag at i, false outside |
| Bitsets.Bitset.Count | internal/records/bitset.go:39-45 | word by word, the number of set flags |
| Tables.AtKey | internal/conversion/numeric.go:8-31 | at a key both forms return the value of that key |
| Tables.StaysBetween | internal/conversion/numeric.go:8-31 | interpolation stays between the neighbouring values |
| Tables.LookupMonotone | internal/conversion/numeric.go:8-31 | a monotone table gives a monotone conversion in both forms |
| Tables.LookupNearest | internal/conversion/numeric.go:8-31 | without interpolation the value is that of the nearest key, ties to the lower, edges included |
| Tables.TabLookup | internal/conversion/numeric.go:8-31 | binary search and branches compute the specified lookup, on any keys and values |
| Tables.LookupRuns | internal/conversion/numeric.go:8-31 | on ascending keys it is the lookup over the real numbers the rows above are about |
| Tables.LookupFails | internal/conversion/numeric.go:8-31 | the lookup indexes out of range for exactly one argument: the one that is not a number |
| Tables.Find | internal/conversion/numeric.go:42-53 | the first range that contains the argument, -1 exactly when none does |
| Conversions.Convert | internal/conversion/conversion.go:44-50 | every value is converted by the rule on its own, for all compiled kinds, also when destination and source are one array and rules nest; fails exactly when the rule fails on some value |
| Conversions.ToTexts | internal/conversion/conversion.go:52-55 | a column of numbers becomes the texts of its values, nested rules and bit fields included |
| Conversions.FromTexts | internal/conversion/conversion.go:57-58 | every text becomes its value, or the default |
| Conversions.ReplaceTexts | internal/conversion/conversion.go:60-61 | every text is replaced, by the default when it has none of its own, or stays |
| Conversions.ConvertOne | internal/conversion/conversion.go:65-72 | a nested rule applied through a column of one value is the rule on that value |
| Rules.Compile | internal/conversion/conversion.go:85-336 | fails exactly for blocks with too few values or references, a formula without meaning or an unknown kind; otherwise the compiled rule does to every value what the block's own parameters say, identities included |
| Rules.UnitQuotient | internal/conversion/conversion.go:116-128 | the rational rule that is skipped as an identity is one exactly for values that are not infinite |
| Rules.FailsIff | internal/conversion/conversion.go:143-159 | a numeric rule fails at run time exactly when a value that is not a number reaches a value table |
| Signals.ApplyConversion | read.go:267-291 | the conversion of a column by its kind and the kind of rule, numbers within their own array |
| Signals.ReadVirtual | read.go:294-308 | record numbers as samples, converted unless they are wanted raw |
| Signals.AppliedJoin | read.go:267-291 | converting two columns in place and joining them is converting the joined column |
| Signals.ReadingJoin | read.go:108-146 | reads of consecutive record ranges give together the samples of one read, and fail together with it |
| Signals.SignalsJoin | chunks.go:75-119 | consecutive windows of a channel join to one signal: samples, master values and offset |
| Signals.SignalAligned | chunks.go:75-119 | every window has one sample and one master value per record and starts at its first record |
| ChunkReads.Chunks.ReadChannel | read.go:108-146 | extraction and conversion of a range, with its invalidation flags, or failure, as specified |
| FormulaPrint.RoundTrip | internal/conversion/expr.go:49-138 | every tree, printed with the parentheses it needs, any redundant ones and any blanks between tokens, is read back using up the whole text |
| FormulaAccepts.FormulasAreTexts | internal/conversion/expr.go:17-28 | a text is accepted with meaning e if and only if it writes some tree that means e |
| FormulaCompiler.Compile | internal/conversion/expr.go:17-28 | succeeds exactly on formulas whose numbers have values; the compiled closure equals the tree's evaluation at every argument |
| FormulaCompiler.ExprParser.ParseExpr | internal/conversion/expr.go:49-76 | position and closure agree with the grammar of sums, left associative |
| FormulaCompiler.ExprParser.ParseTerm | internal/conversion/expr.go:78-105 | the same for products |
| FormulaCompiler.ExprParser.ParsePower | internal/conversion/expr.go:107-122 | the same for powers, right associative |
| FormulaCompiler.ExprParser.ParseUnary | internal/conversion/expr.go:124-138 | the same for signs, which bind tighter than powers on the left |
| FormulaCompiler.ExprParser.ParsePrimary | internal/conversion/expr.go:159-246 | the same for parentheses, numbers, the raw value and calls |
| Arrays.TuplesAreElements | tree.go:194-280 | mixed-radix bijection: a tuple is in range if and only if some element has it, and no two elements share one |
| Arrays.RowMajor | tree.go:194-280 | elements come in lexicographic order of their tuples |
| Arrays.DisplacementByLevels | tree.go:194-280 | an element's displacement is the sum over the levels of its index there times that level's base |
| Arrays.OneLevel | tree.go:194-280 | with one level element k lies k bases behind the first |
| Arrays.ElementsDisjoint | tree.go:194-280 | elements do not overlap when every base covers the extent below it |
| Arrays.RunningWraps | tree.go:194-280 | the running element count is the count modulo 2^64 |
| Arrays.CountIff | tree.go:194-280 | the running count is the element count if and only if that is below 2^64 |
| Arrays.LimitIff | tree.go:194-280 | an array that passes the check of the limit on its elements keeps to that limit if and only if it has less than 2^64 elements |
| Arrays.CountWraps | tree.go:194-280 | concrete dimensions whose count passes the limit of 2^20 by wrapping around |
| Arrays.Expand | tree.go:194-280 | expands exactly when every level has dimensions and the running count is within limits; element k then has the k-th tuple and its place |
| ArrayPlaces.PlacedIff | tree.go:194-280 | with bases that cover the extent below them, every expanded element, its offset cut to 32 bits, is where its indices say if and only if the last element begins below 2^32 |
| ArrayPlaces.ElementsApartIff | tree.go:194-280 | the byte ranges of the expanded elements overlap for no offset of the array if and only if any two of them have room: their distance modulo 2^32 is at least the element's width and leaves as much below 2^32 |
| ArrayPlaces.SmallHasRoom | tree.go:194-280 | which holds for every array that takes at most 2^32 bytes |
| ArrayPlaces.LastOnFirst | tree.go:194-280 | concrete dimensions within the limits for which the fifth element is placed on the first |
| Bus.OthersIrrelevant | bus.go:242-315 | frames of other keys make no difference to a signal, wherever they stand |
| Bus.ColumnsAligned | bus.go:318-335 | times, values and texts of a signal have one entry per selected frame |
| Bus.Accumulator.Lookup | bus.go:200-239 | cached or not, found or not, the entry is what a fresh first-database-wins search and a filter over all frames give |
| Bus.Accumulator.Decode | bus.go:318-335 | each selected signal of the message gains exactly this frame's sample |
| Bus.Accumulator.AddFrame | bus.go:286-315 | after any frame every cached entry equals the per-signal filter over all frames so far |
| Bus.Accumulator.AddGroup | bus.go:242-315 | a frame group adds its frames in order, cut to their logged lengths, missing bus and flag entries being zero |
| ColumnStorage.StreamsAligned | internal/datasection/ld.go:77-114 | streams walked in sample order settle into gap-free ones, and omitted blocks become zeros of exactly their samples |
| ColumnStorage.OmittedReadsZero | internal/datasection/ld.go:52-75 | in streams walked in sample order, every invalidation byte under an omitted block reads as zero |
| ColumnStorage.ZeroLengthIs | internal/datasection/ld.go:95-104 | the search finds the data block of the same sample and no other |
| ColumnStorage.EqualStarts | internal/datasection/ld.go:30-50 | blocks of equal count start at multiples of it, which places them in the equal-count form |
| ColumnChains.ChainWalked | internal/datasection/ld.go:19-75 | induction over the chain of list blocks: consecutive sample offsets or equal counts, whole-record blocks, one flag and fitting invalidation blocks make the walk lay both streams out by sample |
| ColumnChains.ChainAligned | internal/datasection/ld.go:19-114 | conditions on the decoded lists and block lengths alone: the resolved data stream is gap-free with recSize bytes per sample; there is an invalidation stream exactly when the lists carry one, gap-free with invalSize bytes per sample |
| ColumnChains.OmittedAreValid | internal/datasection/ld.go:52-75 | under the same conditions every sample of a block with an omitted invalidation block reads as valid, whatever bit its channel uses |
| ColumnStorage.Resolve | internal/datasection/ld.go:19-75 | the walk over lists, the settling of omitted blocks and the sort give the specified streams |
| ColumnStorage.ResolveList | internal/datasection/ld.go:28-58 | one list block adds the specified segments, the first failing entry decides |
| Windows.ExtractColumn | read.go:149-205 | for every chunk size and range: the samples and flags of exactly these records; fails exactly when the type, record size, range or field is bad |
| Windows.ReadWindow | read.go:186-199 | a window can be read exactly when the stream holds its records |
| Windows.ReadSeparateInvalid | read.go:209-227 | one flag per sample of the range from the separate stream, whatever the chunking |
| Windows.ExtractInvalidBits | internal/records/extract.go:205-214 | one flag per entry, none when the bit lies outside the entries |
| Windows.OmittedIsValid | internal/datasection/ld.go:52-75 | in streams walked in sample order, every sample under an omitted invalidation block reads as valid, whatever bit its channel uses |
| Windows.ZeroIsValid | read.go:209-227 | zero invalidation bytes mean valid for every bit position |
| ChunkReads.Chunks.constructor | chunks.go:32-71 | the range is cut to the records there are; a start outside fails at once |
| ChunkReads.Chunks.Next | chunks.go:75-119 | one converted signal per channel with the master over the same records, directly behind the previous window; succeeds exactly when the channels and the master can be read there |
| ChunkReads.Chunks.All | chunks.go:141-149 | all windows put together are what one read of the whole range gives, for any window size: samples after conversion, master values, flags, consecutive offsets; the windows fail exactly when that one read fails |

## Left out

- CrashRecovery: for a group without string channels; `CrashTexts` and `CrashLong` treat those with string channels, where the count
  can be wrong during Close; files of 2^63 bytes and more are excluded.
- CutCountsIff: texts shorter than a chunk; `CrashLong` has the crash images of the others.
- CloseThenOpen: in the growing layout under the condition that texts stay below a chunk, which is sufficient for every
  recording and, by `Twins.AnyRecordsIff`, necessary for all choices of record bytes together; names and comments without NUL
  and not starting with `<`; sizes and counts within the format's 32 and 64 bit fields.
- AnyRecordsIff: a record that starts with a string channel's offset; `Limits.MarklessReadsIff` covers those whose first eight
  bytes have no `#`, and `Grown.GrownReadsIff` all others.
- StepRunning: appends that fail halfway because of an I/O error; I/O does not fail in the model.
- Writer: group handles are indices and channels are values inside the writer object, so the aliasing of `GroupWriter`, `wchan`
  and `chunkStream` pointers is not modelled; XML escaping of comments is not applied.
- ReadsIffNoLate: a channel added by `AddChannel` after recording has started; the other definition calls that are accepted then
  (conversion, comment) change nothing that is written any more. It keeps the conditions of CloseThenOpen for the histories without
  late channels.
- CallsDefine: the width of an integer channel is any number of bits below 2^32; the program's signed parameter is cut to that.
- Close: what the writer's stream buffers hold after finalization, which nothing reads any more.
- Prefetch: runs its workers one after the other; `Lru.EveryInterleavingKeepsInv` covers all interleavings of their cache steps.
- BuildChannels: structure compositions, source information and conversion summaries; array compositions are modelled in `Arrays`
  from the decoded levels on. A cyclic chain, on which the program does not return, is an error here.
- FixCycleCounts: unsorted and column-storage groups of an unfinalized file are an error here.
- SortedSorts: the order of segments with equal offsets, which the program's sort does not fix.
- BufferedReader: its use after the first failed read, when its bounds are already widened.
- ChainAligned: one flag for all lists; lists that mix both forms count as equal only when the whole chain has equal counts but
  for its last block; 64-bit overflow of offset sums.
- StreamsAligned: about streams as walked; `ColumnChains.ChainWalked` says which lists give such streams.
- EvictKeeps: payloads are bytes; the memory of the cache itself is not counted.
- SampleExact: fields that do not end within 64 bits; `Records.WordExactIff` shows that those are not read exactly.
- SetFloat64: the bit patterns of floating-point numbers are given; conversion between 64, 32 and 16 bit floats is left out.
- LookupMonotone: over real numbers, without rounding.
- Convert: rounding and the sign of zero; a failure at run time ends the program, here it is a result.
- Compile: formulas are read character by character and their functions are parameters; the references of a rule come resolved,
  and the limit of 16 on their nesting belongs to the walk over the file.
- Expand: template storage; arrays stored in own groups or sections (`expandFragmentedArray`) and element names are left out.
- AddFrame: raw values and texts; the scaling to physical values and the order of the output are left out.
- RawFails: start bits are not negative.
- Chunks: fixed-length and virtual channels of one record stream; variable-length channels are resolved in `Vlsd`, array
  elements with their own streams are left out, and the cache of the master column holds what is read here.
- ReadVirtual: record numbers as floating-point values by a parameter.
- ReadSeparateInvalid: an entry size of 0, which the program cannot divide by.
- Files, memory mapping and the operating system: a file is a sequence of bytes.
- zlib, XML parsing, DBC text parsing and number parsing: foreign code or library calls, taken as parameters.
- Attachments, events, file history as read, hierarchy, sample reduction: metadata without invariants of their own.
- Latin-1, UTF-8 and UTF-16 decoding: texts are bytes.
