# Snitchaser in Dafny

Snitchaser records a Linux process at the level of machine code and replays it later: logged system
call data go through a buffer, a compressor and a log file, and come back through a reader that feeds
the replayed process over a pair of sockets. This project models the algorithms on that path and
their relatives in the repository, and proves what they promise for all inputs and all runs.

- **LZO**: `LzoFormat`, `LzoCompress`, `LzoDecoder`, `LzoDecompress`, with the overlapping copy in
  `Lz77`. The compressor and the decompressor are each proved against the format, and are inverse.
- **Log**: `LogFormat`, `LogWriter`, `LogReader`. Frames, the buffered writer, the reader, and
  recording followed by replay.
- **Dictionary**: `Probe`, `BitHacks`, `Dict`. Open addressing with growth refines a map.
- **Inflate**: `Reverse`, `Canonical`, `InfTable`, `CodeTables` build two-level decoding tables;
  `InflateSpec` says what a block decodes to, bit by bit; `InflateSlow`, `InflateFast`, `Window` and
  `Inflate` prove the resumable and the fast path, alone and mixed over any number of calls, equal to
  it; `InflateHeader` reads the header of a dynamic block, `InflateStored` a stored block, and
  `InflateBlocks` one block of a stream.
- **Deflate**: `BitFields` and `BitWriter` send bits; `DeflateCodes`, `DeflateBlock`, `CodeLengths`,
  `DeflateHeader` send blocks; `KraftSums`, `BitLengths`, `Heap`, `HuffmanTree`, `BuildTree`,
  `BlockCost`, `DynamicTrees`, `StaticTrees` build the codes; `OptimalCode`, `MergeCost`, `TreeDepth` and
  `CheapCodes` show that none is shorter; `Deflater` chooses an encoding and counts its bits;
  `DynamicRoundTrip` and `RoundTrip` take blocks from tokens to bytes and back.
- **Exceptions**: `Exceptions`, the setjmp state machine against a big-step meaning.
- **Signals**: `SyscallLatch`, the latch that tells a handler whether it interrupted a system call.
- **Replay protocol**: `ReadProtocol`, host and target over byte channels.
- **Numbers and checksums**: `Numbers`, `Adler`. `Bits` holds the bit arithmetic used throughout.

Where the code and its comments disagree, the model follows the code:

- `inflate_fast` documents `state->bits < 8` on entry (src/zlib/inffast.c:46). State LEN can be resumed
  with more bits after a call that ended inside a code. `InflateFast.Fast` needs only that the first
  symbol uses more than `bits - 8` bits, which `Inflate.Visit` establishes in every case.
- `build_tree` says that a forced node is 0 or 1 (src/zlib/deftree.c:575). It is 2 if symbol 1 is the
  only one in use. It has no extra bits either, so the costs are still exact (`BuildTree.ForceTwo`).
- `build_bl_tree` would compute three lengths to send, one less than the format allows, if only the
  repeat symbols had codes; `DynamicTrees.SomeLength` shows that this cannot happen.
- Exceptions of the highest level are named uncatchable; a CATCH does catch them
  (src/host/exception.c:183-186).
- The 8 bytes behind the log buffer are said to be needed because of rdtsc (src/arch/x86/xasm/logger.h:21),
  whose record has 12. They suffice exactly if all data are whole words (`LogWriter.SpareIff`).
- `__lzo_compress` asserts only that the input is no longer than the work buffer
  (src/interp/compress.c:252), which is not enough (`LzoCompress.AssertTooWeak`); up to buffer_sz + 59
  bytes always fit, and the logger never passes more.
- A comment in `zlib_inflate_table` says that the sufficiency of ENOUGH has not been shown
  (src/zlib/inftrees.c:156-158); `CodeTables.EnoughIsEnough` shows it, so the check is never needed.
- A dictionary of one slot could not grow, since twice its mask and one is one slot again
  (`Dict.GrowthIff`); the code never makes one.
- A flush of an empty buffer puts an empty region into the log, and `read_log_full` then refuses reads across
  it (`LogReader.EmptyBlockBlocks`); `LogReader.CanReadIff` and `LogReader.RecordThenReplay` give the exact
  condition. A flush at exit does no harm.

## Model

| member | source | states |
|---|---|---|
| `LzoCompress.Compress` | src/lzo/lzo1x_compress.c:175-220 | for every input and every dictionary contents the output is a well-formed stream of greedy maximal matches that expands to the input; lzo1x_decompress_safe on it halts with OK, all input consumed and exactly the input as output; its size is at most n + n/16 + 4 |
| `LzoCompress.CompressInto` | src/interp/compress.c:187-260 | for all inputs that the assertion admits the call stays within the work buffer of lzo1x_worst_compress(buffer_sz) bytes exactly if the stream of greedy matches fits it, and then the buffer holds that stream, which decompresses to the input; up to buffer_sz + 59 bytes always fit, texts without matches that come within four bytes of its size never do |
| `LzoCompress.Incompressible` | src/lzo/lzo1x_compress.c:175-220 | a text in which no three bytes come again within the reach of a match cannot be compressed: every stream for it is at least four bytes longer |
| `LzoCompress.AssertTooWeak` | src/interp/compress.c:250-257 | for every buffer size, an input that the assertion admits and for which every well-formed stream is longer than the work buffer |
| `LzoCompress.DoCompress` | src/lzo/lzo1x_compress.c:19-173 | whatever the dictionary holds, the main loop leaves an output that encodes the input up to the returned position, matches maximal and literals patched into the previous match |
| `LzoCompress.FindMatch` | src/lzo/lzo1x_compress.c:34-67 | a position taken from the dictionary is used only if it is a real earlier occurrence of the next three bytes within the offset limit |
| `LzoCompress.MatchLength` | src/lzo/lzo1x_compress.c:100-131 | the length found is maximal: the match cannot be extended, except at the end of the input |
| `LzoCompress.EmitMatch` | src/lzo/lzo1x_compress.c:107-164 | each of the short, M3 and M4 forms is exactly the format of the offset and length, including the escape for long lengths |
| `LzoCompress.PatchMatch` | src/lzo/lzo1x_compress.c:81-82 | or-ing a literal count into the byte two back changes only the two spare bits, so it turns the bytes of a match into those of the match with that count |
| `LzoCompress.EmitLiterals` | src/lzo/lzo1x_compress.c:78-98 | after a match, one to three literals go into the spare bits and longer runs get a run header; the bytes become those of the match with its literals |
| `LzoCompress.EmitCount` | src/lzo/lzo1x_compress.c:86-93 | the zero-byte escape for counts, as the format defines it |
| `LzoCompress.EmitRun` | src/lzo/lzo1x_compress.c:83-97 | four or more literals become the counted run of the format |
| `LzoCompress.EmitOffset` | src/lzo/lzo1x_compress.c:161-163 | the last two bytes of a long match hold the low fourteen bits of the offset, the second truncated to a byte |
| `LzoCompress.AddMatch` | src/lzo/lzo1x_compress.c:76-164 | appending a maximal match to an encoding of the input so far gives an encoding of the input up to its end |
| `LzoCompress.AddLiterals` | src/lzo/lzo1x_compress.c:78-98 | appending pending literals to an encoding of the input so far gives an encoding up to them |
| `LzoCompress.Finish` | src/lzo/lzo1x_compress.c:189-219 | the last literals and the end marker complete any encoding of a prefix to a well-formed stream for the whole input |
| `LzoFormat.WorstCase` | src/lzo/lzo1x_compress.c:78-164 | every well-formed stream is at most n + n/16 + 4 bytes long for n bytes of text |
| `LzoFormat.BodyCost` | src/lzo/lzo1x_compress.c:78-164 | matches with their literals never take more than 17/16 of the text they stand for |
| `LzoDecoder.DecodeStream` | src/lzo/lzo1x_decompress.c:26-244 | for every well-formed stream the decoder, a machine over the labels of the code, halts with OK at the end of the stream and with the expansion as output |
| `LzoDecoder.DecodeMatch` | src/lzo/lzo1x_decompress.c:113-206 | the bytes of a match are read back as its offset and length, never as the end marker, and the copy may overlap itself |
| `LzoDecoder.MatchLong` | src/lzo/lzo1x_decompress.c:125-206 | the bytes of either long form of a match, with or without the length escape, are read back as its offset, length and spare bits, never as the end marker |
| `LzoDecoder.AfterRun` | src/lzo/lzo1x_decompress.c:94-111 | two bytes right after a literal run stand for a match of three bytes at an offset between 2049 and 3072, which is copied exactly if it is within the output and fits the room; its spare bits are kept |
| `LzoDecoder.DecodeItem` | src/lzo/lzo1x_decompress.c:113-223 | a match with its literals takes the decoder from the first byte of the one item to the first byte of the next |
| `LzoDecompress.Decompress` | src/lzo/lzo1x_decompress.c:26-244 | the loops with four-byte copies compute exactly the decoder, never write past the capacity and always halt, on every input |
| `LzoDecompress.CopyWords` | src/lzo/lzo1x_decompress.c:182-204 | copying four bytes at a time where the distance allows it equals the byte-by-byte overlapping copy |
| `LzoDecompress.CopyLiterals` | src/lzo/lzo1x_decompress.c:71-92 | t + 3 literals are copied, four at a time and then singly |
| `LzoDecompress.ExtendCount` | src/lzo/lzo1x_decompress.c:55-65 | the loop over zero bytes computes the count of the format, or an overrun if the input ends in it |
| `LzoDecompress.AtMatch` | src/lzo/lzo1x_decompress.c:113-204 | one pass at label match: every form of match with its bounds checks in the order of the code |
| `LzoDecompress.AtTop` | src/lzo/lzo1x_decompress.c:51-92 | the literal run at the top of the outer loop, with its overrun checks, is the step of the decoder |
| `LzoDecompress.CheckedCopy` | src/lzo/lzo1x_decompress.c:177-204 | the checks of position and room, and the copy by words or bytes, are the checked copy of the decoder |
| `LzoDecompress.CopyBytes` | src/lzo/lzo1x_decompress.c:198-203 | byte by byte the copy may read what it has just written |
| `LogFormat.ParseFrame` | src/host/replay_log.c:79-150 | wherever the bytes of a frame lie in a file, reading a region there gives back the data of the frame and the position after it |
| `LogFormat.ParseOnly` | src/host/replay_log.c:79-150 | conversely, a region that is accepted was one frame up to the position left, raw or with data that decompress to the region, of the announced size |
| `LogWriter.Logger.FlushBuffer` | src/interp/logger.c:180-254 | the buffered bytes, also those that a record put behind the end of the buffer, become one frame, whose compressed form always fits the work buffer; nothing is lost or reordered |
| `LogWriter.Logger.Append` | src/interp/logger.c:299-350 | the bytes appended are the next bytes of the log whether they are buffered, flushed first or written directly; the assertions of the code hold exactly for sizes other than 0 and MAX_LOGGER_SIZE |
| `LogWriter.Logger.Store` | src/interp/logger.c:314-321 | data that fit are appended to buffer and log alike |
| `LogWriter.Logger.WriteDirect` | src/interp/logger.c:339-346 | the data, too large for the buffer, becomes one frame of exactly that data |
| `LogWriter.Logger.Record` | src/interp/logger.c:256-272 | a record of generated code and the check after it add exactly the record to the log; it runs past the allocation exactly if fill and record exceed the buffer and the eight spare bytes |
| `LogWriter.SpareIff` | src/arch/x86/xasm/logger.h:21-22 | the spare bytes are enough for every run that appends in units of u bytes and records one or three words if and only if u is a multiple of four |
| `LogWriter.WordsFit` | src/arch/x86/xasm/logger.h:21-22 | if only whole words are logged, no operation of the run is refused and no record leaves the allocation |
| `LogWriter.UnevenFails` | src/arch/x86/interp/branch_template.S:173-183 | for every other unit, a run of one append and word records after which the record of rdtsc leaves the allocation |
| `LogWriter.Logger.Flush` | src/interp/logger.c:274-281 | an explicit flush keeps the log, and on an empty buffer writes an empty frame |
| `LogWriter.RunOp` | src/interp/logger.c:256-350 | each operation gets through exactly if it is accepted at the current fill, and then adds exactly its data to the log; an empty frame is written exactly by a flush of an empty buffer |
| `LogWriter.RunLogger` | src/interp/logger.c:180-350 | a run gets through exactly if each operation is accepted; then file and buffer together hold exactly the bytes logged, cut into exactly the blocks that the operations determine, and exactly what was logged before the first flush of an empty buffer lies before any empty frame |
| `LogWriter.SolidIff` | src/interp/logger.c:274-297 | everything logged lies before the first flush of an empty buffer if and only if nothing is logged after such a flush |
| `LogReader.Reader.Advance` | src/host/replay_log.c:79-150 | on a log that was written by the logger the next region is the data of the next frame, and the end is found exactly after the last |
| `LogReader.Reader.ReadLog` | src/host/replay_log.c:153-181 | returns the rest of the region up to the size asked for, or nothing and the next region |
| `LogReader.Reader.ReadLogFull` | src/host/replay_log.c:183-202 | succeeds exactly if no empty region lies before the last byte asked for, and then returns exactly the next bytes of the log and leaves exactly what comes after them |
| `LogReader.Reader.Readahead` | src/host/replay_log.c:207-245 | returns the next bytes without consuming anything; an error exactly if they would cross into another region; nothing found exactly at the end of the log |
| `LogReader.CanReadIff` | src/host/replay_log.c:183-202 | closed form of when a read succeeds: the bytes asked for lie before the first empty frame |
| `LogReader.EmptyBlockBlocks` | src/host/replay_log.c:190-196 | an empty region in the middle of the log makes a read of both neighbours fail although the bytes are there |
| `LogReader.ServableIff` | src/host/replay_log.c:183-245 | a sequence of reads and readaheads can be served one after the other if and only if all that is read can be read at once and every readahead, at its place, stays in one region |
| `LogReader.Replay` | src/host/replay_log.c:183-245 | for any log and any sequence of requests: all are served exactly under that condition, and the reads return consecutive pieces of the log |
| `LogReader.RecordThenReplay` | src/interp/logger.c:180-350 | end to end, with the unconditional flush at exit: what is logged, compressed, written, parsed and decompressed is replayed byte for byte; reads and readaheads succeed if and only if they are in reach of the blocks that the operations determine, and plain reads if and only if they ask for no more than was logged before the first flush of an empty buffer |
| `Probe.FullCycle` | src/interp/dict.c:44-64 | for every k and every start the first 2^k iterates of i -> 5i + 1 are pairwise different modulo 2^k |
| `Probe.EverySlot` | src/interp/dict.c:51-64 | so the probe sequence visits every slot of the table |
| `Dict.SearchFails` | src/interp/dict.c:41-67 | get_entry returns NULL only if the table is full and the key is not in it |
| `Dict.Table.GetEntry` | src/interp/dict.c:41-67 | the probe loop, with its 32-bit signed index, finds the first slot of the probe sequence that holds the key or is free |
| `Dict.Table.constructor` | src/interp/dict.c:14-27 | a new table has a power of two of free slots and stands for the empty map |
| `Dict.Table.InsertClean` | src/interp/dict.c:70-78 | with a free slot, the contents become the old map with the key set, the assertion of the code holds, and one more slot is occupied exactly if the key is new |
| `Dict.Table.Get` | src/interp/dict.c:123-138 | returns the value that the map holds for the key, and 0 for absent keys |
| `Dict.CopyDict` | src/interp/dict.c:80-94 | the larger table has the same contents, and active counts its keys again without the overwrites |
| `Dict.CreateDict` | src/interp/dict.c:14-27 | an empty map in a table of the next power of two |
| `Dict.Grow` | src/interp/dict.c:108-118 | growing keeps the contents, leaves the table uncrowded and starts the count again from the keys that are there |
| `Dict.GrowthIff` | src/interp/dict.c:108-118 | the size asked for in growing rounds up to twice the slots if and only if there is more than one |
| `Dict.Insert` | src/interp/dict.c:96-121 | for any table, including NULL and a crowded one, the contents become the old map with the key set; the load bound that guarantees a free slot is kept |
| `Dict.RunDict` | src/interp/dict.c:96-138 | after any run of insertions that no table of more than 2^27 slots is needed for, dict_get returns the last value inserted for a key and 0 for absent keys; 89478486 insertions never need one, and more new keys than that always do |
| `Dict.Lookup` | src/interp/dict.c:123-138 | a search of a sound table answers as the map of its contents does |
| `BitHacks.Pow2RoundUp` | src/common/bithacks.h:35-47 | the least power of two not below x for 1 to 2^30, 0 for x <= 0, and the signed wrap-around to -2^31 above 2^30 |
| `Reverse.BackIncIs` | src/zlib/inftrees.c:227-236 | incrementing a code backwards is incrementing the number it is the reversal of |
| `Reverse.BiReverse` | src/zlib/defutil.h:291-300 | the loop computes the reversal of the low bits |
| `Canonical.HuffNext` | src/zlib/inftrees.c:227-243 | stepping backwards through a set of lengths in canonical order runs through the canonical codes |
| `Canonical.Interval` | src/zlib/inftrees.c:202-275 | a word starts with the k-th canonical code exactly if its reversal lies in the k-th interval of the code space |
| `Canonical.PrefixFree` | src/zlib/inftrees.c:116-124 | no word starts with two different codes of a set that is not over-subscribed |
| `InfTable.Replicate` | src/zlib/inftrees.c:218-225 | exactly the indices that end in the code get the entry |
| `InfTable.Increment` | src/zlib/inftrees.c:227-236 | the loop is the backwards increment, with 0 after the last code |
| `InfTable.SubSize` | src/zlib/inftrees.c:254-262 | the size found from the remaining counts is large enough for every code under the same root index |
| `InfTable.TightHead` | src/zlib/inftrees.c:254-262 | the table size found from the counts is that of the longest code in it |
| `InfTable.GroupSize` | src/zlib/inftrees.c:245-275 | codes with the same head, the first of them l bits long, are at least 2^(l - root) in number |
| `InfTable.CompactOpen` | src/zlib/inftrees.c:245-275 | so when a new table is started, what is allocated is at most the root table and as many entries as there are codes up to the end of that new group |
| `InfTable.WriteCode` | src/zlib/inftrees.c:203-225 | writing one code keeps all earlier codes decodable and makes this one so, in the root table or in a sub-table |
| `InfTable.OpenSub` | src/zlib/inftrees.c:245-274 | opening a sub-table keeps all codes decodable, and the link to it is exact in its 16-bit offset field |
| `InfTable.FillTables` | src/zlib/inftrees.c:186-275 | after all codes every word that starts with a code is looked up to it, through at most one link; for a complete set the tables take at most 2^root + n + 2^(15 - root) entries |
| `CodeTables.GenCodes` | src/zlib/deftree.c:495-528 | every symbol gets the code of its place in canonical order, bit-reversed |
| `CodeTables.SentIsHuff` | src/zlib/deftree.c:495-528 | the codes that gen_codes assigns are the codes that zlib_inflate_table enumerates |
| `CodeTables.SentPrefixFree` | src/zlib/deftree.c:495-528 | a bit string starts with the code of at most one symbol |
| `CodeTables.SortSymbols` | src/zlib/inftrees.c:126-133 | the counting sort puts the symbols in order of length, then of symbol |
| `CodeTables.CountLengths` | src/zlib/inftrees.c:92-96 | the counters hold the number of symbols of every length |
| `CodeTables.Extremes` | src/zlib/inftrees.c:98-114 | finds the longest and shortest length in use, and none exactly if there are no codes |
| `CodeTables.Offsets` | src/zlib/inftrees.c:126-129 | the offset of a length is the number of symbols with shorter codes |
| `CodeTables.NextCodes` | src/zlib/deftree.c:506-511 | the first code of each length is the canonical one |
| `CodeTables.CodeSpace` | src/zlib/inftrees.c:116-124 | over-subscribed exactly if the code space exceeds 2^15 units; otherwise what is left of it |
| `CodeTables.CompleteTable` | src/zlib/inftrees.c:201-275 | with a complete set of lengths every word leads to an entry, after at most one link, and the bits behind a code do not matter |
| `CodeTables.BuildTables` | src/zlib/inftrees.c:126-309 | the tables decode every symbol of the set, also for a lone one-bit code, whose other entry is invalid, within the bound on their size |
| `CodeTables.InflateTable` | src/zlib/inftrees.c:23-315 | -1 exactly for over-subscribed sets and for incomplete ones other than a single one-bit code outside the code-length alphabet; 1, lack of space, never with the nine root bits that inflate asks for; on 0 every word that starts with the code of a symbol is looked up to that symbol and its length, in tables within the bound on their size; no symbols at all give two invalid entries |
| `CodeTables.EnoughIsEnough` | src/zlib/inftrees.c:150-160 | the bounds on the sizes of the tables, with the root bits that inflate asks for, stay below the limit of the check and together below ENOUGH |
| `CodeTables.SomeSymbol` | src/zlib/inftrees.c:116-124 | with a complete code every bit string starts with the code of some symbol |
| `CodeTables.FlatTable` | src/zlib/inflate.c:499-505 | no entry is a link if no code is longer than the first level, so CODELENS may look up without following links |
| `Window.Window.Update` | src/zlib/inflate.c:116-146 | for output of any size the window again holds the last bytes of the whole history, ending just before the write position |
| `Window.Window.Replace` | src/zlib/inflate.c:125-129 | more output than the window holds leaves its last bytes |
| `Window.Window.Extend` | src/zlib/inflate.c:130-144 | output that fits before the end of the buffer keeps the older bytes in place |
| `Window.Window.WrapAround` | src/zlib/inflate.c:131-139 | output that runs past the end continues at the start, over the oldest bytes |
| `Window.Window.StoreAround` | src/zlib/inflate.c:131-138 | the two copies around the end of the buffer put the output where the history needs it |
| `Window.Window.Store` | src/zlib/inflate.c:131-133 | a copy into the buffer changes only its own range |
| `Window.FastCopy` | src/zlib/inffast.c:182-254 | pieces of the window and three-byte copies of the output together equal the plain overlapping copy from the whole history |
| `Window.FromPieces` | src/zlib/inffast.c:182-228 | the part of a match in the window, in one piece or two, leaves a shorter match with the same result that lies in the output |
| `Window.Piece` | src/zlib/inffast.c:190-228 | copying one contiguous piece from the window leaves a shorter match with the same result |
| `Window.CopyThrees` | src/zlib/inffast.c:229-254 | three bytes at a time from the output itself equal the overlapping copy |
| `Window.SlowCopy` | src/zlib/inflate.c:662-686 | one visit to state MATCH copies at least one byte of the match and no more than is left of it or of the room, with the window and the output as one history |
| `InflateSpec.DecodeBounds` | src/zlib/inffast.c:56-66 | a length and distance pair uses at most 48 bits and yields 3 to 258 bytes at a distance of at most 32768; any other symbol uses at most 35 bits |
| `InflateSpec.HoldSmall` | src/zlib/inffast.c:120-126 | the accumulator never exceeds the bits it counts |
| `InflateSpec.RunSplit` | src/zlib/inflate.c:572-692 | decoding j symbols and then k is decoding j + k |
| `InflateSpec.NearIff` | src/zlib/inflate.c:656-660 | with only the last n bytes of the text at hand a match goes on as with all of it if and only if it reaches back at most n bytes, or further than the text |
| `InflateSlow.OpBits` | src/zlib/inflate.c:596-609 | on the operation codes in the tables the bit tests of the code tell literals, lengths, links, end of block and errors apart |
| `InflateSlow.Partial` | src/zlib/inflate.c:579-593 | an entry found with too few bits in the accumulator is used only if it is the entry that all the input would give |
| `InflateSlow.DecodeEntry` | src/zlib/inflate.c:579-594 | looking up with zero bits for the missing input and pulling one byte at a time finds the entry of the whole input, and stops exactly if the input ends inside the code |
| `InflateSlow.DecodeLinked` | src/zlib/inflate.c:584-594 | the second lookup, behind a link, finds the entry of the whole input, and stops exactly if the input ends inside the code |
| `InflateSlow.PeekLinked` | src/zlib/inflate.c:585-591 | the loop of the second lookup finds the entry of the whole input exactly if its code has come |
| `InflateSlow.NeedBits` | src/zlib/inflate.c:211-225 | stops exactly if the input ends before the bits are there, and loses none of them |
| `InflateSlow.TakeExtra` | src/zlib/inflate.c:611-616 | extra bits are taken exactly if they are all there, and otherwise nothing is |
| `InflateSlow.StepLen` | src/zlib/inflate.c:572-610 | state LEN keeps the decoder inside the symbol at its start, or finishes it for an end of block or an error |
| `InflateSlow.StepLenExt` | src/zlib/inflate.c:611-617 | state LENEXT, suspended only for want of input |
| `InflateSlow.StepDist` | src/zlib/inflate.c:618-642 | state DIST, suspended only for want of input |
| `InflateSlow.StepDistExt` | src/zlib/inflate.c:643-661 | state DISTEXT: a distance is rejected exactly if it reaches before what is still available |
| `InflateSlow.StepMatch` | src/zlib/inflate.c:662-686 | state MATCH: part of the copy, or its end, when the symbol is complete |
| `InflateSlow.StepLit` | src/zlib/inflate.c:687-692 | state LIT completes a literal |
| `InflateFast.FastSymbol` | src/zlib/inffast.c:120-279 | one turn of the loop, which checks neither input nor room, decodes exactly the next symbol within six bytes of input and 258 of output, and the accumulator stays within 30 bits |
| `InflateFast.FastEntry` | src/zlib/inffast.c:127-132 | with 15 bits at hand the lookup and one link give the entry of the whole input |
| `InflateFast.Refill` | src/zlib/inffast.c:121-126 | two bytes are enough for 15 bits, and the accumulator stays within 30 |
| `InflateFast.LengthExtra` | src/zlib/inffast.c:136-147 | one more byte is enough for the extra bits of a length |
| `InflateFast.DistanceExtra` | src/zlib/inffast.c:162-180 | two more bytes are enough for the extra bits of a distance |
| `InflateFast.FastFinish` | src/zlib/inffast.c:181-255 | the copy, or the rejection of a distance too far back, completes the symbol |
| `InflateFast.FastLength` | src/zlib/inffast.c:136-147 | length and extra bits without running out of input |
| `InflateFast.FastDistance` | src/zlib/inffast.c:148-180 | distance and extra bits, at most two more bytes, within the 48 bits of a pair |
| `InflateFast.Fast` | src/zlib/inffast.c:69-296 | inflate_fast decodes at least one symbol, and all of them as bit by bit; it stops inside a block only with less than nine bytes of input or less than 258 bytes of room left, and gives back every whole byte it did not use |
| `Inflate.Visit` | src/zlib/inflate.c:572-692 | one visit to the switch, by inflate_fast or by a state of the slow path, keeps the decoder on the same stream of symbols |
| `Inflate.Call` | src/zlib/inflate.c:332-755 | one call, with any window: it decodes k whole symbols, and stops inside the next one only because the input ends there, or in LIT or MATCH without room |
| `Inflate.Calls` | src/zlib/inflate.c:332-755 | any sequence of calls, however input and output are cut up, with a window of any size that the matches of the stream fit into: after each call the pieces of output make up the text of whole symbols and a part of the next, which was left unfinished only because the input of that call ends inside it or its room ran out before its text did |
| `Inflate.FullCalls` | src/zlib/inflate.c:332-755 | with a window of 32K that holds for every stream |
| `Inflate.CallsToEnd` | src/zlib/inflate.c:332-755 | for a block that the input holds: if the last call sees all of it, the block ends exactly if that call has room for what the calls before it left, and then the pieces are the whole text; if every call sees all of it, exactly if the rooms together are enough |
| `Inflate.EndIff` | src/zlib/inflate.c:572-692 | a call with all the input of a block ends it if and only if its room is enough for the rest of the text, and else fills its room |
| `Inflate.RoomsIff` | src/zlib/inflate.c:332-755 | calls that all see the whole input end the block if and only if their rooms together hold its text |
| `BitWriter.BitWriter.SendBits` | src/zlib/deftree.c:205-217 | the 16-bit buffer and the pending bytes together are what was sent before followed by the value, whether or not it crosses the buffer |
| `BitWriter.BitWriter.Flush` | src/zlib/defutil.h:305-316 | whole bytes leave the buffer, nothing sent changes and fewer than eight bits stay |
| `BitWriter.BitWriter.Windup` | src/zlib/defutil.h:321-333 | zero bits up to the next byte, and the bytes are then exactly the bits sent |
| `BitWriter.BitWriter.PutWord` | src/zlib/defutil.h:281-284 | on a byte boundary a word is sixteen more bits |
| `BitWriter.BitWriter.PutBytes` | src/zlib/deftree.c:1109-1111 | bytes copied behind a byte boundary are eight more bits each |
| `BitWriter.Cross` | src/zlib/deftree.c:208-212 | a value that crosses the buffer splits into the part in the full word and the rest |
| `BitFields.StartsSent` | src/zlib/deftree.c:205-217 | the bits at the place of some fields start with exactly these fields |
| `DeflateCodes.StaticInit` | src/zlib/deftree.c:238-269 | the loops fill the length and distance tables so that every length and every distance up to 32768 has a code whose range contains it |
| `DeflateCodes.FillLengths` | src/zlib/deftree.c:238-251 | every length gets a code whose range contains it, 258 its own |
| `DeflateCodes.FillNear` | src/zlib/deftree.c:253-260 | every distance below 256 gets the code whose range contains it |
| `DeflateCodes.FillFar` | src/zlib/deftree.c:262-268 | every block of 128 further distances lies in the range of its code, and the nearer codes stay |
| `DeflateCodes.DCodeOk` | src/zlib/deftree.c:165-170 | the two-level distance table finds the right code for every distance |
| `DeflateCodes.LengthOps` | src/zlib/inftrees.c:46-51 | the bases and extra bits in the table of inflate are the running sums of the ranges that deflate gives its length codes |
| `DeflateCodes.DistanceOps` | src/zlib/inftrees.c:52-59 | the same for the distance codes |
| `DeflateBlock.CompressBlock` | src/zlib/deftree.c:1018-1064 | sends for every token the codes and extra bits of its symbols, then the end-of-block code |
| `DeflateBlock.SendToken` | src/zlib/deftree.c:1030-1055 | sends the fields of a literal or a match |
| `DeflateBlock.SendLength` | src/zlib/deftree.c:1038-1044 | sends the code and extra bits of a length |
| `DeflateBlock.SendDistance` | src/zlib/deftree.c:1045-1054 | sends the code and extra bits of a distance |
| `DeflateBlock.TokenRead` | src/zlib/deftree.c:1030-1055 | the bits of a token are decoded to the token, using all of them |
| `DeflateBlock.BlockRoundTrip` | src/zlib/deftree.c:1018-1064 | inflating what compress_block sent gives the plain text back after one symbol per token and stops behind the end-of-block code |
| `CodeLengths.RleExpands` | src/zlib/deftree.c:672-718 | expanding the items for the lengths of a tree by the rules of CODELENS gives the lengths back, whatever came before |
| `CodeLengths.TreesExpand` | src/zlib/inflate.c:499-546 | the items of the literal and the distance tree, one after the other, give back both length arrays |
| `CodeLengths.ScanTree` | src/zlib/deftree.c:626-666 | the tallies are exactly the numbers of each symbol that send_tree sends |
| `CodeLengths.Tally` | src/zlib/deftree.c:647-656 | one turn of the loop counts exactly the items that the same turn of send_tree sends |
| `DeflateHeader.SendTree` | src/zlib/deftree.c:672-718 | sends exactly the items of the tree with the code-length codes |
| `DeflateHeader.SendRun` | src/zlib/deftree.c:693-708 | one turn of the loop sends exactly the items for its run of equal lengths |
| `DeflateHeader.SendItem` | src/zlib/deftree.c:694-707 | sends the code of an item and its repeat count |
| `DeflateHeader.SendAllTrees` | src/zlib/deftree.c:760-787 | sends the counts, the code-length lengths in their order and both trees |
| `DeflateHeader.ItemsRead` | src/zlib/inflate.c:499-546 | reading the sent items gives their expansion and the position behind them |
| `DeflateHeader.HeaderRoundTrip` | src/zlib/inflate.c:462-546 | the counts, the code-length lengths and the lengths of both trees come back from the bits of the header |
| `InflateHeader.CodeLens` | src/zlib/inflate.c:499-546 | state CODELENS, resumable: it goes through exactly if the input reaches to the last symbol, and then rejects exactly the lists that are malformed |
| `InflateHeader.OneItem` | src/zlib/inflate.c:501-545 | one code-length symbol: all of it or nothing, rejected exactly as the meaning of the bits is |
| `InflateHeader.PeekEntry` | src/zlib/inflate.c:501-505 | the lookup loop finds the entry of the whole input exactly if its code has come |
| `InflateHeader.LenLens` | src/zlib/inflate.c:479-497 | state LENLENS, resumable, stores the three-bit lengths in their order and zeros for the rest |
| `InflateHeader.ZeroRest` | src/zlib/inflate.c:485-486 | lengths that were not sent are zero |
| `InflateHeader.OrderOnce` | src/zlib/deftree.c:72-73 | every code-length symbol has one place in the order |
| `Heap.DownHeap` | src/zlib/deftree.c:371-395 | permutes the heap and restores its order from the given node on |
| `Heap.TopLeast` | src/zlib/deftree.c:342-350 | the first node of a heap goes before all others by frequency, then depth |
| `HuffmanTree.RemoveTop` | src/zlib/deftree.c:350-355 | takes out a least node and leaves a heap of the others |
| `HuffmanTree.MergeTwo` | src/zlib/deftree.c:589-607 | the two least nodes become the sons of a new one, with the wrap-around of its 16-bit frequency and 8-bit depth |
| `HuffmanTree.ReplaceTop` | src/zlib/deftree.c:605-607 | the new node takes the place of the least one, and the heap is a heap again |
| `HuffmanTree.MergeAll` | src/zlib/deftree.c:584-611 | the upper part of the heap array lists the root and then the sons of every inner node, each father before its sons, every node once; unless a frequency wraps around, no prefix code for the leaves costs less than the weights of the inner nodes, and in every pair neither node weighs less than a son of the other |
| `OptimalCode.MergeOptimal` | src/zlib/deftree.c:588-609 | if no prefix code costs less than c after two least weights are merged, none costs less than c and both weights before |
| `OptimalCode.Deepest` | src/zlib/deftree.c:588-593 | some code for the same weights costs no more and gives the two least weights its longest length |
| `MergeCost.BestStep` | src/zlib/deftree.c:588-609 | each merge of the loop keeps the balance: what is best for the nodes left, with what has been merged, is best for the leaves |
| `MergeCost.TreeBill` | src/zlib/deftree.c:424-448 | the leaves at their depths cost exactly the weights of the inner nodes |
| `MergeCost.NoneCheaper` | src/zlib/deftree.c:424-448 | so without repair no prefix code for the leaves is cheaper than the lengths of the first pass |
| `TreeDepth.RisingStep` | src/zlib/deftree.c:588-609 | each merge of two least nodes keeps them in order: no node with a father weighs more than one without |
| `TreeDepth.Climb` | src/zlib/deftree.c:424-448 | so the weights along a path grow at least like the Fibonacci numbers |
| `TreeDepth.Shallow` | src/zlib/deftree.c:424-448 | a tree with a node deeper than the limit has Fib(max + 1) uses at least |
| `BitLengths.FirstPass` | src/zlib/deftree.c:424-448 | every node gets the minimum of its depth and the limit; the counts, the overflow and both costs are exact |
| `BitLengths.PassNode` | src/zlib/deftree.c:428-447 | one node keeps lengths, counts, overflow and both costs exact |
| `BitLengths.TreeSpace` | src/zlib/deftree.c:424-448 | after the first pass the leaves take the whole code space and half the overflow on top |
| `BitLengths.TreeShallow` | src/zlib/deftree.c:424-448 | the leaves above the limit never take more than the whole code space |
| `BitLengths.Repair` | src/zlib/deftree.c:453-464 | the repair loop finds a leaf to move each time, never makes a count negative, and ends with a complete set of lengths for the same number of codes |
| `BitLengths.Reassign` | src/zlib/deftree.c:466-484 | gives every length to as many leaves as the counts say and corrects the cost by exactly the difference |
| `BitLengths.GenBitlen` | src/zlib/deftree.c:407-485 | for every Huffman tree whose leaves fit the limit: lengths from 1 to the limit, complete, counted exactly, and opt_len and static_len raised by exactly the cost of all uses; if no node lies deeper than the limit the lengths are the depths |
| `BuildTree.ForceTwo` | src/zlib/deftree.c:565-577 | at least two symbols get codes; the added ones are different, unused and among the first three, and are taken off the costs in advance |
| `BuildTree.Collect` | src/zlib/deftree.c:550-563 | the heap holds exactly the symbols in use, and the others have length zero |
| `BuildTree.Heapify` | src/zlib/deftree.c:579-582 | a heap of the same nodes |
| `BuildTree.TwoLeaves` | src/zlib/deftree.c:565-577 | the only complete code for two symbols has one bit for each, so the advance is exact |
| `BuildTree.Complete` | src/zlib/deftree.c:506-516 | counts that take the whole space belong to a complete canonical code |
| `BuildTree.Lengths` | src/zlib/deftree.c:579-616 | from a heap of the symbols in use to the lengths of their codes, with the tree of merges behind them |
| `BuildTree.Build` | src/zlib/deftree.c:538-620 | for all frequencies the code is complete, limited and codes exactly the symbols in use and the added ones; opt_len and static_len grow by exactly the bits of the real uses; unless some tree of least merges for the frequencies is deeper than the limit, or their sum wraps around, no prefix code takes fewer bits |
| `BuildTree.DeepHeavy` | src/zlib/deftree.c:450-484 | a tree of least merges is deeper than the limit only with Fib(max + 1) uses or more, 2584 for the symbols of a block |
| `BuildTree.CheapestMerged` | src/zlib/deftree.c:424-448 | lengths that are the depths in the tree of merges cost no more than those of any prefix code |
| `BlockCost.Tally` | src/zlib/deftree.c:969-990 | the counters hold the number of uses of every symbol by the tokens, and one use of END_BLOCK |
| `BlockCost.FreqCost` | src/zlib/deftree.c:445-446 | summing over symbols by frequency or over tokens gives the same cost |
| `BlockCost.BlockTotal` | src/zlib/deftree.c:1018-1064 | the bits that compress_block sends are the sum of frequency times length with extra bits |
| `DynamicTrees.BlCodes` | src/zlib/deftree.c:744-746 | the number of code-length lengths to send: at least four, and the last one sent is not zero |
| `DynamicTrees.SomeLength` | src/zlib/deftree.c:672-718 | lengths that are not all zero are never sent by repeats alone |
| `DynamicTrees.BuildBlTree` | src/zlib/deftree.c:724-753 | the code-length tree can send both trees, and opt_len grows by exactly the bits of the whole header; unless it may need repair no other code takes fewer bits for the lengths |
| `DynamicTrees.BuildTrees` | src/zlib/deftree.c:865-891 | opt_len is exactly the number of bits of header and symbols with these trees, static_len that of the symbols with the fixed codes, and every token can be sent; unless a code may need repair no other codes take fewer bits for the symbols, and likewise for the header |
| `DynamicTrees.SmallShortest` | src/zlib/deftree.c:538-620 | below 2584 symbols no other codes take fewer bits for the symbols |
| `CheapCodes.TreeIsCode` | src/zlib/deftree.c:487-537 | every set of codes that can be decoded is a prefix code for the symbols that it codes |
| `CheapCodes.CheapestShort` | src/zlib/deftree.c:538-620 | two codes that are cheapest for the frequencies of a block send its symbols in fewest bits |
| `DynamicTrees.BuildOne` | src/zlib/deftree.c:538-620 | a complete code with exact costs for one descriptor, cheapest unless it may need repair or the sum of frequencies wraps around |
| `StaticTrees.StaticLTree` | src/zlib/deftree.c:271-282 | the fixed literal code is the canonical code of its lengths and complete |
| `StaticTrees.StaticRun` | src/zlib/deftree.c:274-277 | one loop over a range of symbols keeps lengths and counters in step |
| `StaticTrees.StaticDTree` | src/zlib/deftree.c:284-288 | the reversed five-bit numbers are the canonical code of thirty fives |
| `Deflater.Deflater.StoredBlock` | src/zlib/deftree.c:792-804 | type, padding, length, complement and bytes; the count of bits stays exact |
| `Deflater.CopyBlock` | src/zlib/deftree.c:1089-1112 | padding, length, complement and bytes, and the position this leads to |
| `Deflater.Deflater.Finish` | src/zlib/deftree.c:955-962 | after the last block the padding makes the number of bytes exact |
| `Deflater.Deflater.StoredTypeOnly` | src/zlib/deftree.c:808-815 | sends a type and pads up while the count is rounded down: it stays exact if and only if count + 3 is a multiple of eight |
| `Deflater.Deflater.StaticBlock` | src/zlib/deftree.c:940-944 | the count grows by 3 + static_len and stays exact |
| `Deflater.Deflater.DynamicBlock` | src/zlib/deftree.c:945-951 | the count grows by 3 + opt_len and stays exact |
| `Deflater.Deflater.FlushBlock` | src/zlib/deftree.c:856-963 | the smallest of stored, fixed and own encoding is sent, its bits are counted exactly, and after the last block the result is the number of bytes of the output; its own codes are the shortest for the symbols unless one may need repair |
| `DynamicRoundTrip.ReadHeader` | src/zlib/inflate.c:462-571 | the states TABLE to CODELENS and both tables in one go, with the exact result: too little input, rejected, or tables for the lengths, in the order in which the code finds out |
| `DynamicRoundTrip.ReadType` | src/zlib/inflate.c:409-434 | the flag and the type of a block, read exactly if their three bits are there |
| `DynamicRoundTrip.ReadCounts` | src/zlib/inflate.c:462-469 | the three counts, read exactly if their fourteen bits are there |
| `DynamicRoundTrip.CodesTable` | src/zlib/inflate.c:479-498 | the table for code lengths, refused exactly if their code is over-subscribed or incomplete |
| `DynamicRoundTrip.SymbolTables` | src/zlib/inflate.c:551-571 | both tables for the symbols, refused if and only if one of the codes is unusable; otherwise they fit the space for both |
| `DynamicRoundTrip.ReadBack` | src/zlib/inflate.c:462-692 | inflate accepts every dynamic block that deflate sends, and decodes it to the plain text of its tokens |
| `RoundTrip.RoundTrip` | src/zlib/deftree.c:856-963 | any sequence of blocks from tokens to bytes, each stored, with the fixed codes or with its own, and back: one call of inflate with room for the text, with any window, gives exactly the text |
| `RoundTrip.OneBlock` | src/zlib/inflate.c:409-571 | wherever a block lies in the input, its type, header and symbols are read back to its text, up to exactly its last bit |
| `RoundTrip.FlushAll` | src/zlib/deftree.c:856-963 | the output for a sequence of blocks is exactly the bits of their encodings, one after the other, and the padding |
| `InflateStored.Stored` | src/zlib/inflate.c:434-461 | states STORED and COPY: rejected exactly if the two lengths do not agree; as many bytes are copied as the length, the input and the room allow |
| `InflateBlocks.InflateBlock` | src/zlib/inflate.c:572-692 | a block that the input holds, with room for its text, is decoded to its end, and the next block follows at exactly its last bit |
| `InflateBlocks.FixedTables` | src/zlib/inflate.c:93-100 | the tables built for the fixed codes, with all thirty-two distances, decode every code that a static block is sent with |
| `Exceptions.Simulates` | src/host/exception.c:45-202 | for every nesting of TRY, FINALLY, CATCH, throw, rethrow, break and continue the machine with its stack of catchers and jump buffers reaches what the big-step meaning says, with the stack as before |
| `Exceptions.Program` | src/host/exception.c:161-202 | a whole program ends with no catcher left, or stops with the exception that nothing catches |
| `Exceptions.NeverFaults` | src/host/exception.c:79-136 | in no state of any run is MC_FAULT reached |
| `Exceptions.LifeIff` | src/host/exception.c:79-136 | a sequence of actions takes a catcher from its creation to its end without a fault if and only if it enters the body once and then breaks, ends or throws once before FINALLY |
| `Exceptions.CatchIffThrown` | src/host/exception.h:154-166 | the handler runs exactly if the body threw, for a TRY whose variable no TRY inside its body or FINALLY block uses |
| `Exceptions.CatchIffCaught` | src/host/exception.h:154-166 | for every TRY: the handler runs if and only if the last TRY with its variable that ran, itself or one inside, caught an exception |
| `Exceptions.SharedVariable` | src/host/exception.h:154-166 | around a TRY that dealt with an exception, the outer handler runs although the outer body ended normally if and only if both use the same variable |
| `Exceptions.FinallyOnce` | src/host/exception.h:163-165 | however the body ends, the FINALLY block runs once, right after it and before the handler |
| `Exceptions.Nothrow` | src/host/exception.h:211-230 | NOTHROW swallows the two lower levels and passes on all other exceptions |
| `Exceptions.Untouched` | src/host/exception.h:154-166 | a statement changes only the exception variables of its own TRYs |
| `Exceptions.Catchers.ThrowException` | src/host/exception.c:161-202 | the exception, made uncatchable at the highest level, goes to the variable of the innermost catcher, which is then jumped to; without a catcher it is fatal |
| `SyscallLatch.BreakIff` | oldcode/libwrapper/signal.c:174-200 | for every run: the test at handler entry is right at every signal if and only if no signal interrupts a system call within 127 interrupted ones |
| `SyscallLatch.RoomIff` | oldcode/libwrapper/injector.h:185-194 | for every run: ENTER_SYSCALL always found room in the counter if and only if every signal was taken rightly and so would have been one in any of the system calls made |
| `SyscallLatch.QuietDeep` | oldcode/libwrapper/injector.h:185-194 | a run in which ENTER_SYSCALL finds no room and yet every signal is taken rightly |
| `SyscallLatch.OutsideEqual` | oldcode/libwrapper/wrapper.c:137-139 | as long as signals are taken rightly the two bytes are equal outside system calls |
| `SyscallLatch.StepKeeps` | oldcode/libwrapper/wrapper.c:118-208 | every step keeps the latch a function of where the activities are, short of wrap-around, if and only if ENTER_SYSCALL finds room |
| `SyscallLatch.RunKeeps` | oldcode/libwrapper/wrapper.c:118-208 | and so does every run in which ENTER_SYSCALL always finds room |
| `SyscallLatch.TrackedRun` | oldcode/libwrapper/wrapper.c:118-208 | up to the wrap-around of its bytes the latch is that function after every run in which signals are taken rightly |
| `SyscallLatch.HandlerRestores` | oldcode/libwrapper/signal.c:212-271 | a signal taken rightly, anything its handler does with further ones and with system calls, and its return leave the process exactly as it was |
| `SyscallLatch.CallRestores` | oldcode/libwrapper/wrapper.c:118-208 | the seven steps of a system call give the process back exactly, and a signal while it is in the kernel is seen as a break if and only if fewer than 127 others are interrupted |
| `SyscallLatch.GateIff` | oldcode/libwrapper/injector.h:185-194 | past ENTER_SYSCALL the test holds exactly if the signed byte did not wrap |
| `SyscallLatch.TooDeep` | oldcode/libwrapper/injector.h:169-195 | a run from the start in which the signal in the 128th nested system call is not seen as a break |
| `SyscallLatch.DiveRuns` | oldcode/libwrapper/injector.h:169-195 | up to 127 system calls can be nested within the handlers of the signals that interrupt them, each seen rightly |
| `SyscallLatch.Process.Advance` | oldcode/libwrapper/wrapper.c:118-208 | the updates of base and counter at each point of wrapped_syscall |
| `SyscallLatch.Process.SigHandler` | oldcode/libwrapper/signal.c:174-200 | saves the latch, and reports a break exactly if the kernel was interrupted within fewer than 127 others |
| `SyscallLatch.Process.SigReturn` | oldcode/libwrapper/signal.c:212-271 | restores the latch of a broken system call |
| `SyscallLatch.Process.WrappedSyscall` | oldcode/libwrapper/wrapper.c:118-208 | runs the kernel with the latch that makes a signal there a break, exactly if fewer than 127 system calls are interrupted, and leaves the process as it was |
| `ReadProtocol.ReadsExact` | src/host/syscall_replayer.c:14-44 | for any requests, also past the end of the log: in every state of every run the target has exactly the log up to where its reads are, and the host fails only if the reads ask for more than the log |
| `ReadProtocol.CompleteIff` | src/interp/syscall_replayer.c:9-27 | no run goes on for ever, and one that cannot go on is complete, with all data delivered and both sides done, if and only if the log is long enough; otherwise the host has failed at a chunk and the target waits with all chunks before it |
| `ReadProtocol.Progress` | src/host/sockpair.c:23-91 | some move is possible until both are done, or the host has failed and the target has all it sent |
| `ReadProtocol.StepKeeps` | src/interp/syscall_replayer.c:9-27 | every move of some bytes by either side keeps the invariant that ties requests, data under way and log position together |
| `ReadProtocol.RunKeeps` | src/interp/syscall_replayer.c:9-27 | and so does every run |
| `ReadProtocol.RunMoves` | src/host/sockpair.c:23-91 | every move brings the end closer, and bytes taken from the log plus bytes still owed stay the same |
| `ReadProtocol.WordValue` | src/host/syscall_replayer.c:17-43 | a 32-bit number sent is the number received |
| `Numbers.Tenth` | oldcode/libwrapper/vsprintf.c:290-295 | the multiplication by 0xcd and the shift by 11 are an exact division by ten up to 339 |
| `Numbers.ShortTenth` | oldcode/libwrapper/vsprintf.c:301-302 | the multiplication by 0xd and the shift by 7 are an exact division by ten up to 68 |
| `Numbers.PutDecFull` | oldcode/libwrapper/vsprintf.c:318-356 | five decimal digits with the value of the argument, for all arguments below 100000 |
| `Numbers.PutDecTrunc` | oldcode/libwrapper/vsprintf.c:282-316 | the decimal digits of the argument without leading zeros |
| `Numbers.PutUpper` | oldcode/libwrapper/vsprintf.c:293-314 | the digits after the first, with the carries between them, and no leading zero |
| `Numbers.PutDec` | oldcode/libwrapper/vsprintf.c:358-367 | the decimal digits of any number |
| `Numbers.NumberDigits` | oldcode/libwrapper/vsprintf.c:413-432 | the digits of any number in base 8, 10 or 16, least significant first |
| `Numbers.DigitsOnly` | oldcode/libwrapper/vsprintf.c:413-432 | digits below the base without a leading zero are determined by their value |
| `Numbers.Strtoull` | oldcode/libwrapper/vsprintf.c:103-129 | prefix, base detection and digit loop, modulo 2^64 |
| `Numbers.PrintParse` | oldcode/libwrapper/vsprintf.c:103-129 | for every 64-bit value and base 8, 10 or 16: parsing the digits printed gives the value and stops right behind them if and only if no digit of the base follows, nor an x after a hexadecimal 0 |
| `Numbers.PrintParseAuto` | oldcode/libwrapper/vsprintf.c:452-462 | with the 0 or 0x prefix the value is read back without naming the base, under a condition that is exact as well |
| `Numbers.PrintThenParse` | oldcode/libwrapper/vsprintf.c:411-432 | the code of both directions together, with and without the prefix |
| `Adler.Adler32` | src/zlib/zutil.h:79-105 | reducing only every 5552 bytes gives the per-byte definition, without overflow of 32 bits; without a buffer the result is the checksum of no bytes |
| `Adler.AddBlock` | src/zlib/zutil.h:92-100 | within a block of at most 5552 bytes neither sum exceeds 32 bits |
| `Adler.AddByte` | src/zlib/zutil.h:58-62 | after one more byte both sums are still within 32 bits |
| `Adler.RawMod` | src/zlib/zutil.h:101-102 | reducing both sums at the end is the same as reducing them at every byte |
| `Adler.BoundedFits` | src/zlib/zutil.h:55-56 | the bound behind NMAX, also for a start that is not reduced |
| `Adler.InPieces` | src/zlib/zutil.h:65-78 | a checksum continued over a second piece is the checksum of both pieces |

## Left out

- Numbers.NumberDigits: sign, padding, precision and the limit of the output buffer in number are not modelled.
- Dict.RunDict: keys 0 and 1 are reserved by the code; a request for 2^28 slots, whose size in bytes does not fit an int, is a result of its own.
- BlockCost.Tally: the heuristic that ends a block early and the wrap-around of 16-bit frequencies above 65535 uses in a block are not modelled.
- Deflater.Deflater.FlushBlock: set_data_type and the STORED_FILE_OK and FORCE_ build options are not modelled; blocks to be stored are below 64K, as the format requires.
- LzoDecoder.DecodeStream: malformed input is covered only in so far as the decompressor equals the decoder; reads that the code does not guard are modelled as a status of their own.
- LzoCompress.FindMatch: dictionary entries are positions or anything else; the wrap-around of address differences for buffers in the first 48K of the address space is not modelled.
- Output buffers, trees, tables and the heap array are sequences that the methods reassign; overlap of the pending buffer with the token buffers is not modelled.
- Literal and stored-block copies with memcpy are slices.
- InflateBlocks.FixedTables: builds the fixed decoding tables; that the constants of src/zlib/inffixed.h are these tables is taken from its statement that they were generated so.
- RoundTrip.RoundTrip: one call of inflate for the whole stream; many calls are covered within a block (Inflate.CallsToEnd) and within the headers (InflateHeader), not across them.
- Exceptions.CatchIffThrown: its condition on the variables is sufficient only; Exceptions.CatchIffCaught is the exact form for every TRY.
- Inflate.Calls: says nothing of a stream from a match on that reaches further back than the window and not further than the text; InflateSpec.NearIff shows that only such a match goes differently.
- BuildTree.Build: says nothing of the cost where lengths may need repair, which is a heuristic, or where 16-bit frequencies wrap around.
- State CHECK, zlib headers, dictionaries, INFLATE_STRICT, packet flush and the search for a sync point.
- The match search of src/zlib/deflate.c; the tokens it produces are arbitrary here.
- Files, socket errors, time-outs, spin locks, memory allocation and debug output.
- ptrace, ELF loading, checkpoints and the per-system-call handlers.
- The replay branch of wrapped_syscall, the signal mask and the registers saved in signal frames.
