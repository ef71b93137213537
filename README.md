# db721 column reader

A Dafny model of the column reader behind the `db721_fdw` PostgreSQL foreign
data wrapper (`cmudb/extensions/db721_fdw/src/reader.cpp` and `reader.h`).

A db721 file is laid out as `[column blocks][metadata document][metaSize]`.
`metaSize` is a 4-byte little-endian word. Each column is stored as consecutive
blocks of fixed-width slots: 4 bytes for `float` and `int`, and 32 NUL-padded
bytes for strings. The metadata document lists the columns in order. For each
column it gives a type name, a start offset, a block count and per-block
statistics (`num`, `min`, `max`, and `min_len`/`max_len` for strings).

The model has one module per part of the reader:

- `Bytes`: fixed-width integers, casts as explicit reductions (`Wrap8`,
  `Wrap16`, `Wrap32`), little-endian words and C strings.
- `Db721Types`: the data model of `reader.h`. `DB721Data` is a sum type whose
  case is the one the column's `DB721Type` selects.
- `FileStream`: the `std::ifstream` as a class over an immutable byte sequence
  with a read position.
- `Metadata`: pure decoding of the trailer and the parsed document. This is the
  specification `DB721Table.Open` is proved against.
- `Table`: the `DB721Table` class with `Open`, `IsOpen` and `EstimateRows`.
- `Cursor`: the `ExecStateColumn` class, a per-column cursor that loads one
  block at a time.
  - Its ghost field `pending` is what the cursor still has to hand out: the
    unread rest of the block in memory, then every block not yet loaded.
  - Each method states its effect on `pending` and on the concrete fields.
- `Lowercase`: `tolowercase` over a caller's buffer.
- `ExecState`: the `DB721ExecState` class.
  - The constructor builds the attribute-to-cursor map and opens one cursor per
    used attribute, matching names case-insensitively.
  - `Next` assembles a row.
  - `ReScan` rewinds every cursor.

Two things are parameters of the model:

- The JSON parser is a function `parse: seq<u8> -> Option<MetaDocument>`.
- The file is a byte sequence given to the stream's constructor.

`Cursor.ExecStateColumn.Next` states its result without reference to where the
shared stream was positioned before the call, because the cursor seeks to its
own offset before reading.

The code in `reader.cpp` is followed where it differs from the declarations in
`reader.h`:

- the table is built from a table identifier (`Oid`) rather than a name, and its
  constructor runs `Open` at once; the model takes the file's bytes in place of
  the identifier;
- the scan state takes the set of used attributes;
- the scan state keeps a map from attributes to cursors;
- the buffer is `buffer_`.

## Model

| member | source | states |
|---|---|---|
| Bytes.Wrap8 | cmudb/extensions/db721_fdw/src/reader.cpp:92-93 | a `uint8_t` store keeps the value modulo 2^8, and values already in range unchanged |
| Bytes.Wrap16 | cmudb/extensions/db721_fdw/src/reader.h:46 | a `uint16_t` store keeps the value modulo 2^16, and values already in range unchanged |
| Bytes.Wrap32 | cmudb/extensions/db721_fdw/src/reader.h:63 | a `uint32_t` store keeps the value modulo 2^32, and values already in range unchanged |
| Bytes.LeU32 | cmudb/extensions/db721_fdw/src/reader.cpp:44 | the word `memcpy` reads from 4 bytes is stored as exactly those bytes, least significant first |
| Bytes.LeI32 | cmudb/extensions/db721_fdw/src/reader.cpp:146 | the `int` read from 4 bytes agrees with the unsigned word modulo 2^32 and is negative exactly when the last byte's top bit is set |
| Bytes.LeU32RoundTrip | cmudb/extensions/db721_fdw/src/reader.cpp:44 | reading back the 4 little-endian bytes of a word gives the word |
| Bytes.EncodeLeU32RoundTrip | cmudb/extensions/db721_fdw/src/reader.cpp:44 | any 4 bytes are the encoding of the word they are read as |
| Bytes.LeI32RoundTrip | cmudb/extensions/db721_fdw/src/reader.cpp:144-146 | a two's-complement int survives storage in 4 bytes |
| Bytes.CStr | cmudb/extensions/db721_fdw/src/reader.cpp:150-152 | the C string of a buffer is its NUL-free prefix, and it ends at the first NUL when there is one |
| Bytes.CStrOfTerminated | cmudb/extensions/db721_fdw/src/reader.cpp:152 | bytes after the terminating NUL do not change the C string |
| Bytes.CStrAppendNul | cmudb/extensions/db721_fdw/src/reader.cpp:173 | a NUL placed after a buffer does not change what C reads from it |
| Db721Types.ZeroData | cmudb/extensions/db721_fdw/src/reader.cpp:72 | the value-initialised union has the column's type: a zero float, a zero int or a null string |
| Db721Types.ZeroStat | cmudb/extensions/db721_fdw/src/reader.cpp:72 | a statistic created by `resize` counts 0 values and has bounds of the column's type |
| Db721Types.SumNumValsBound | cmudb/extensions/db721_fdw/src/reader.cpp:102-104 | the count of values in a run of blocks is at most 65535 per block |
| Db721Types.DecodeValue | cmudb/extensions/db721_fdw/src/reader.cpp:139-154 | a decoded slot has the interpretation its column type selects, and a string value is at most 32 NUL-free bytes |
| Db721Types.StringSlotRoundTrip | cmudb/extensions/db721_fdw/src/reader.cpp:148-152 | every string of at most 32 NUL-free bytes is read back from its padded slot, a 32-byte one included |
| Db721Types.IntSlotRoundTrip | cmudb/extensions/db721_fdw/src/reader.cpp:144-146 | an int value is read back from its 4-byte slot |
| Db721Types.FloatSlotRoundTrip | cmudb/extensions/db721_fdw/src/reader.cpp:140-143 | a float's bit pattern is read back from its 4-byte slot |
| Db721Types.DecodeRunTyped | cmudb/extensions/db721_fdw/src/reader.cpp:137-155 | every value of a run of slots has the column's interpretation |
| Db721Types.DecodeRunSplit | cmudb/extensions/db721_fdw/src/reader.cpp:136-156 | a run of `a + b` slots reads as the first `a` slots followed by the `b` slots after them |
| Db721Types.DecodeRunStep | cmudb/extensions/db721_fdw/src/reader.cpp:137-155 | one more iteration of the slot loop appends the next slot's value |
| Metadata.DecodeType | cmudb/extensions/db721_fdw/src/reader.cpp:68-70 | "float" gives Float, "int" gives Int, and every other name gives String, in both directions |
| Metadata.DecodeBound | cmudb/extensions/db721_fdw/src/reader.cpp:76-94 | a bound converts exactly when its kind fits the column type, to a value of that type; a string keeps its bytes before the first NUL |
| Metadata.WriteStat | cmudb/extensions/db721_fdw/src/reader.cpp:75-93 | one entry writes a statistic exactly when both bounds fit the column type, else fails with a type error; the count is the 16-bit `num`, the bounds have the column's type, a string column takes the 8-bit `min_len`/`max_len`, and other columns keep their lengths |
| Metadata.TrailerRoundTrip | cmudb/extensions/db721_fdw/src/reader.cpp:40-54 | for a file of blocks, a document and the document's 4-byte size, the size read is the document's size and the metadata read is the document |
| Metadata.MetaSize | cmudb/extensions/db721_fdw/src/reader.cpp:40-44 | the metadata size is the word whose little-endian bytes are the file's last four |
| Metadata.MetadataBytes | cmudb/extensions/db721_fdw/src/reader.cpp:50-58 | the metadata is readable exactly when `metaSize` fits before the trailer, else the error is `MetadataUnreadable`; it is then exactly `metaSize` bytes, and the file is the bytes before it, then it, then the trailer |
| Metadata.DecodeTable | cmudb/extensions/db721_fdw/src/reader.cpp:40-97 | opening fails as unreadable metadata exactly when the metadata does not fit, as a parse error exactly when the parser rejects it, never because of the 4-byte size read, and otherwise yields the decoded document |
| Metadata.MetadataRange | cmudb/extensions/db721_fdw/src/reader.cpp:40-58 | the metadata is the `metaSize` bytes just before the trailer word; it is unreadable exactly when `metaSize` exceeds the bytes before the trailer |
| Metadata.DecodeDocumentErrors | cmudb/extensions/db721_fdw/src/reader.cpp:62-97 | decoding the document fails only with a type error or a block key out of range |
| Metadata.ApplyStatsSucceeds | cmudb/extensions/db721_fdw/src/reader.cpp:73-96 | the block statistics decode exactly when every key is below `num_blocks` and every bound fits the type; the count of statistics stays `num_blocks` |
| Metadata.ApplyStatsResult | cmudb/extensions/db721_fdw/src/reader.cpp:73-96 | after decoding, a block no entry names keeps its initial statistic, and a named block holds what its last entry writes |
| Metadata.ApplyStat | cmudb/extensions/db721_fdw/src/reader.cpp:73-95 | one entry succeeds exactly when its key is in range and its bounds fit; an out-of-range key is reported before a type error; the number of statistics stays the same |
| Metadata.ApplyStats | cmudb/extensions/db721_fdw/src/reader.cpp:73-96 | applying the entries keeps the number of statistics and fails only with an out-of-range key or a type error |
| Metadata.DecodeColumn | cmudb/extensions/db721_fdw/src/reader.cpp:66-96 | a decoded column keeps the record's name, has the decoded type and the wrapped start offset, and holds `num_blocks` statistics; it fails only with an out-of-range key or a type error |
| Metadata.DecodeColumnsFrom | cmudb/extensions/db721_fdw/src/reader.cpp:64-97 | decoding the records adds one column per record to those already present, failing only with an out-of-range key or a type error; `DecodeColumnsAppend` states that the ones present are kept in front |
| Metadata.DecodeDocument | cmudb/extensions/db721_fdw/src/reader.cpp:62-97 | a decoded document has one column per record and the 16-bit "Max Values Per Block"; it fails only with an out-of-range key or a type error |
| Metadata.WriteStatOverwrites | cmudb/extensions/db721_fdw/src/reader.cpp:74-95 | a later entry for the same block overwrites every field an earlier entry wrote |
| Metadata.ApplyStatsTyped | cmudb/extensions/db721_fdw/src/reader.cpp:76-95 | every decoded statistic has bounds of the column's type |
| Metadata.DecodeColumnShape | cmudb/extensions/db721_fdw/src/reader.cpp:66-96 | a column decodes exactly when its entries are in range and well typed; it then keeps its name, the decoded type, the wrapped start offset, exactly `num_blocks` statistics and bounds of its type |
| Metadata.DecodeColumnsInOrder | cmudb/extensions/db721_fdw/src/reader.cpp:64-97 | the columns decode in document order, one per record, and decoding fails exactly when some record fails |
| Metadata.DecodeColumnsAppend | cmudb/extensions/db721_fdw/src/reader.cpp:66 | decoding appends to the columns already present and fails in the same way whatever they are |
| Metadata.DocumentColumns | cmudb/extensions/db721_fdw/src/reader.cpp:59-97 | a decoded document lists exactly its records in order, each with its type, offset and `num_blocks` statistics |
| Metadata.OutOfRangeKeyRejected | cmudb/extensions/db721_fdw/src/reader.cpp:74 | a `block_stats` key at or beyond `num_blocks` makes the whole table fail to decode (`.at` throws) |
| FileStream.Stream.ReadInto | cmudb/extensions/db721_fdw/src/reader.cpp:141 | an unchecked read copies the next `n` bytes of the file into the buffer, advances the position by `n` and leaves the rest of the buffer alone |
| FileStream.Stream.Read | cmudb/extensions/db721_fdw/src/reader.cpp:44-58 | a checked read succeeds exactly when `n` bytes remain, and then returns them |
| FileStream.Stream.constructor | cmudb/extensions/db721_fdw/src/reader.cpp:32-40 | a stream opened with `ios::ate` holds the file and is positioned at its end, so `tellg` gives the file's size |
| FileStream.Stream.Seek | cmudb/extensions/db721_fdw/src/reader.cpp:43 | `seekg` places the read position at the given offset |
| Table.DB721Table.constructor | cmudb/extensions/db721_fdw/src/reader.cpp:15 | a new table runs Open over its file; its outcome passes exactly when the file decodes, and otherwise carries the decode error; on a pass the table holds exactly the decoded columns and block maximum |
| Table.DB721Table.Open | cmudb/extensions/db721_fdw/src/reader.cpp:17-99 | Open succeeds exactly when `DecodeTable` does, fails with the same error, and on success sets `max_val_block_` and appends exactly the decoded columns |
| Table.DB721Table.DecodeBlockStats | cmudb/extensions/db721_fdw/src/reader.cpp:72-96 | the in-place loop over `block_stats` computes `ApplyStats` over `num_blocks` fresh statistics |
| Table.DB721Table.EstimateRows | cmudb/extensions/db721_fdw/src/reader.cpp:101-107 | `total` grows by the sum of column 0's block counts, without being reset, and `match` equals the new `total` |
| Table.ColumnFailure | cmudb/extensions/db721_fdw/src/reader.cpp:65-97 | a failing column record makes the rest of the document fail with its error |
| Cursor.BlockStartOrder | cmudb/extensions/db721_fdw/src/reader.cpp:111 | block 0 starts at the column's start offset (`cur_offset_`'s initial value), and a later block starts no earlier than an earlier one |
| Cursor.ValuesFromLength | cmudb/extensions/db721_fdw/src/reader.cpp:136-156 | the values of blocks `k` onward are as many as their statistics count |
| Cursor.Start | cmudb/extensions/db721_fdw/src/reader.h:101-102 | a new cursor is at the column's start offset (reader.cpp:111), with `next_blk_` and `blk_offset_` at 0 and no block in memory |
| Cursor.BlockBounds | cmudb/extensions/db721_fdw/src/reader.cpp:135-156 | block `k` ends where block `k + 1` starts: its start plus `num_vals_` slot widths, inside the file |
| Cursor.BlockValues | cmudb/extensions/db721_fdw/src/reader.cpp:135-155 | the values of block `k` are exactly `num_vals_[k]` slots |
| Cursor.ValuesAfterSum | cmudb/extensions/db721_fdw/src/reader.cpp:135 | the values after block `k` are the ones the remaining statistics count |
| Cursor.RestFits | cmudb/extensions/db721_fdw/src/reader.cpp:156 | the slots of blocks `k` onward end where the column ends |
| Cursor.ValuesFromRun | cmudb/extensions/db721_fdw/src/reader.cpp:123-159 | reading block by block from block `k` gives the same values as reading every remaining slot in one run |
| Cursor.ColumnScan | cmudb/extensions/db721_fdw/src/reader.cpp:123-159 | a full scan yields the column's slots in file order, as many as the block statistics count |
| Cursor.StartPending | cmudb/extensions/db721_fdw/src/reader.cpp:109-112 | a cursor that has not read anything is consistent and has the whole column pending |
| Cursor.RescanRestarts | cmudb/extensions/db721_fdw/src/reader.cpp:232-242 | a rescanned cursor has the whole column pending again, and keeps block 0 in memory when it holds it |
| Cursor.Rescan | cmudb/extensions/db721_fdw/src/reader.cpp:233-241 | with the corrected condition, a rescanned cursor is at block offset 0, and is either the start state or keeps block 0 in memory, which happens only when it holds block 0 |
| Cursor.RescanAsWritten | cmudb/extensions/db721_fdw/src/reader.cpp:235 | as written, a rescanned cursor is at block offset 0 and is either the start state or keeps its state with `next_blk_` at most 1 |
| Cursor.RescanAsWrittenDiffers | cmudb/extensions/db721_fdw/src/reader.cpp:235 | the rescan as written differs from the corrected one exactly for a cursor that loaded block 0 and then dropped it |
| Cursor.RescanAsWrittenLosesRows | cmudb/extensions/db721_fdw/src/reader.cpp:232-242 | for a drained one-block column, the rescan as written leaves nothing pending although the column holds a value |
| Cursor.LoadStepAsWritten | cmudb/extensions/db721_fdw/src/reader.cpp:132-136 | one block load with the 16-bit counter: none exactly when `next_blk_` is past the last block; otherwise it takes that block's `num_vals_`, reads from `cur_offset_`, and stores `next_blk_ + 1` modulo 2^16. `cur_offset_` then moves on by that many slot widths (line 156) |
| Cursor.NarrowBlockCounterWraps | cmudb/extensions/db721_fdw/src/reader.cpp:132-156 | with 65536 blocks, loading block 65535 stores 0 in the counter and leaves `cur_offset_` at the column's end. The next load takes block 0's `num_vals_` but reads from that end, past the column's last slot, instead of reporting exhaustion |
| Cursor.PendingAdvance | cmudb/extensions/db721_fdw/src/reader.cpp:158 | handing out the value at the read position removes exactly that value from the front of what is pending |
| Cursor.PendingExhausted | cmudb/extensions/db721_fdw/src/reader.cpp:125-134 | past the last block nothing is pending, with or without the block in memory |
| Cursor.PendingLoad | cmudb/extensions/db721_fdw/src/reader.cpp:125-157 | loading the next block does not change what is pending |
| Cursor.ReadRun | cmudb/extensions/db721_fdw/src/reader.cpp:136-156 | the slot loop reads `n` slots from the stream position, decodes them in order and moves the position past them; the buffer's last byte stays NUL |
| Cursor.ReadSlot | cmudb/extensions/db721_fdw/src/reader.cpp:139-154 | one slot read through the buffer is decoded as its type selects, a string cut at its first NUL |
| Cursor.ExecStateColumn.constructor | cmudb/extensions/db721_fdw/src/reader.cpp:109-112 | a new cursor starts at the column's start offset with `next_blk_` and `blk_offset_` at 0 and no block in memory (reader.h:101-103); the whole column is pending |
| Cursor.ExecStateColumn.ClearBlock | cmudb/extensions/db721_fdw/src/reader.cpp:114-121 | the block in memory is dropped and every other field is unchanged |
| Cursor.ExecStateColumn.LoadNextBlock | cmudb/extensions/db721_fdw/src/reader.cpp:125-157 | the block in memory is dropped and `blk_offset_` reset; block `next_blk_` is loaded exactly when one remains; `next_blk_` then grows by 1, the block holds `num_vals_` values, and `cur_offset_` advances by `num_vals_` slot widths; what is pending does not change |
| Cursor.ExecStateColumn.Next | cmudb/extensions/db721_fdw/src/reader.cpp:123-159 | each call hands out the head of what is pending and drops it; it reports false exactly when nothing is pending, and then nothing stays pending and the next call may be made, so exhaustion is sticky |
| Cursor.ExecStateColumn.Take | cmudb/extensions/db721_fdw/src/reader.cpp:158 | the value at the read position is the head of what is pending, and the position moves past it |
| Cursor.ExecStateColumn.Rewind | cmudb/extensions/db721_fdw/src/reader.cpp:233-241 | one cursor of the corrected `ReScan` ends in the `Rescan` state with the whole column pending |
| Lowercase.Lower | cmudb/extensions/db721_fdw/src/reader.cpp:164-166 | folding yields one byte per input byte; what each byte becomes is `LowerByte`'s contract, and `LowerBytes` states the whole-name consequences |
| Lowercase.LowerBytes | cmudb/extensions/db721_fdw/src/reader.cpp:164-166 | folding keeps every byte that is not a capital letter, neither adds nor removes a NUL, and leaves no upper-case letter |
| Lowercase.LowerByte | cmudb/extensions/db721_fdw/src/reader.cpp:165 | `tolower` maps an ASCII capital to its lower-case letter and leaves every other byte as it is |
| Lowercase.LowerCStr | cmudb/extensions/db721_fdw/src/reader.cpp:161-168 | folding commutes with cutting at the first NUL |
| Lowercase.ToLowerCase | cmudb/extensions/db721_fdw/src/reader.cpp:161-168 | the output holds the folded name followed by its NUL, keeping the length, and the rest of the buffer is untouched |
| ExecState.AttNum | cmudb/extensions/db721_fdw/src/reader.cpp:180 | the member tested for attribute index `i` is positive, and adding back `FirstLowInvalidHeapAttributeNumber` gives the attribute number `i + 1` |
| ExecState.AttrMap | cmudb/extensions/db721_fdw/src/reader.cpp:174-196 | the map has one entry per attribute; `AttrMapEntry` and `AttrMapShape` state what each entry is |
| ExecState.RowOf | cmudb/extensions/db721_fdw/src/reader.cpp:200-227 | a row has one cell per attribute; `RowOfShape` states which cells are null and which hold a cursor's value |
| ExecState.AttrMapEntry | cmudb/extensions/db721_fdw/src/reader.cpp:177-196 | entry `i` is -1 for an unused attribute and, for a used one, the number of used attributes before it |
| ExecState.AttrMapShape | cmudb/extensions/db721_fdw/src/reader.cpp:177-196 | unused attributes map to -1; used ones map to cursors 0, 1, ... in increasing order, and every cursor is the target of its attribute |
| ExecState.UsedBeforeInjective | cmudb/extensions/db721_fdw/src/reader.cpp:195 | distinct used attributes get distinct cursors |
| ExecState.CursorAttr | cmudb/extensions/db721_fdw/src/reader.cpp:194-195 | cursor `k` belongs to the used attribute that has exactly `k` used attributes before it |
| ExecState.FirstMatch | cmudb/extensions/db721_fdw/src/reader.cpp:186-192 | the matched column has the attribute's folded name |
| ExecState.FirstMatchIsFirst | cmudb/extensions/db721_fdw/src/reader.cpp:186-192 | no column before the match has the name, so the match is the first one |
| ExecState.RowOfShape | cmudb/extensions/db721_fdw/src/reader.cpp:200-227 | attribute `i` of a row is null exactly when the map sends it to -1, and otherwise the next value of the cursor the map names |
| ExecState.DB721ExecState.constructor | cmudb/extensions/db721_fdw/src/reader.cpp:170-197 | the buffer's last byte is NUL; the map is `AttrMap`; each cursor is newly allocated and distinct, reads the first column whose folded name equals its attribute's, starts before block 0 and has the whole column pending |
| ExecState.DB721ExecState.FindColumn | cmudb/extensions/db721_fdw/src/reader.cpp:183-193 | the inner search stops at the first column whose folded name equals the folded attribute name |
| ExecState.DB721ExecState.OpenCursor | cmudb/extensions/db721_fdw/src/reader.cpp:183-194 | one used attribute gets a new cursor on its first matching column, with the whole column pending |
| ExecState.DB721ExecState.OpenCursors | cmudb/extensions/db721_fdw/src/reader.cpp:177-196 | the constructor's loop ends with every attribute handled (`OpenedUpTo` at the last attribute): one newly allocated cursor per used attribute, in attribute order, and every entry of the map set |
| ExecState.DB721ExecState.OpenAttr | cmudb/extensions/db721_fdw/src/reader.cpp:178-196 | one iteration of the loop handles attribute `i`: it keeps the cursors already opened and adds one newly allocated cursor only for a used attribute |
| ExecState.DB721ExecState.OpenStep | cmudb/extensions/db721_fdw/src/reader.cpp:183-195 | a used attribute gets one new cursor, appended after the others, on its first matching column |
| ExecState.DB721ExecState.OpenedAllAttrs | cmudb/extensions/db721_fdw/src/reader.cpp:177-196 | after the loop the map is `AttrMap`, there is one cursor per used attribute, all distinct, and cursor `k` reads the first column matching the `k`-th used attribute |
| ExecState.DB721ExecState.Next | cmudb/extensions/db721_fdw/src/reader.cpp:199-230 | it succeeds exactly when every cursor has a value pending; the cursors it passes advance by exactly one value; on failure it stops at the first exhausted cursor and leaves the later ones untouched; on success the row is null for unused attributes and the head of each used attribute's cursor otherwise |
| ExecState.DB721ExecState.Advance | cmudb/extensions/db721_fdw/src/reader.cpp:206-210 | advancing one cursor returns its next value exactly when it has one, keeps the scan state consistent, and leaves the other cursors untouched |
| ExecState.DB721ExecState.ReScan | cmudb/extensions/db721_fdw/src/reader.cpp:232-242 | with the corrected reset condition, every cursor ends in its `Rescan` state with its whole column pending, so a rescan replays every column from the start |
| ExecState.DB721ExecState.RewindAt | cmudb/extensions/db721_fdw/src/reader.cpp:233-241 | one cursor of the corrected rescan ends in its `Rescan` state with its whole column pending; the other cursors are untouched |

## Left out

- JSON parsing (`nlohmann::ordered_json`) is a parameter. Its number conversions,
  `int(...)` and `float(...)`, are carried in the parsed document (`Scalar.Number`).
  A `block_stats` key arrives as a number, so `std::stoul` and its exceptions are
  not modelled. The typed document also stands for the parser's other
  conversions: `Max Values Per Block`, `start_offset`, `num_blocks`, `num`,
  `min_len` and `max_len` (reader.cpp:63, 71-72, 75, 92-93) convert implicitly,
  and a missing key reads as null. A `type_error` from any of these shows in the
  model only as `ParseError`.
- Looking up catalog options and opening a file by name (`GetForeignTable`, the
  option loop, `ifstream::open` and `elog`) are left out. The table is built over
  a byte sequence instead.
- Files of 4 GiB or more are not modelled, because `fsize` is a `uint32_t`.
  `Table.DB721Table.Open` requires a file longer than the 4-byte trailer, as the
  source's `assert(fsize > sizeof(meta_size))` does.
- Reads of column slots are unchecked in the source. The model requires every
  column's blocks to lie inside the file (`Cursor.ColumnInFile`), so short reads
  are not modelled.
- A failed read puts the stream in a failed state. The model places the position
  at the end of the file instead; no later read depends on it.
- The host is taken to be little-endian: `memcpy` of 4 bytes reads a
  little-endian word.
- Floats are opaque 32-bit patterns. They are never compared or converted.
- `tolower` folds ASCII letters only (the C locale).
- Memory management is left out: `DB721Allocator`, `palloc`/`pfree`,
  `malloc`/`strcpy`/`free` of statistic strings, and the destructors of
  `DB721Column` and `ExecStateColumn`. Strings are values.
- Building PostgreSQL `Datum`s and `bytea`s and `ExecStoreVirtualTuple` are left
  out. A row is a sequence of `Cell`s.
- `DB721ExecState::Init`, `IsOpen`'s callers, and the foreign data wrapper glue
  are not part of this model.
- Table.DB721Table.constructor: in the source, a failed `Open` does not return
  to the constructor. `elog(ERROR)` (reader.cpp:46, 56) jumps out of it, and the
  JSON library's parse and type errors and `.at`'s `out_of_range` propagate as
  exceptions, so no table is constructed. The model finishes construction
  and records the outcome in the ghost field `openOutcome`.
- Table.DB721Table.EstimateRows: `match` and `total` are `Cardinality`, a
  `double` (reader.h:73), and the model uses `int`. The planner passes in a
  whole number of tuples, and each step adds a 16-bit count. The double sum is
  exact while it stays below 2^53, and the model does not model rounding beyond
  that.
- Cursor.LoadStepAsWritten: `cur_offset_` is a `nat`; the model does not say
  what the failed reads past the end of the file would leave in the buffer.
- `Table.DB721Table.IsOpen` is the predicate `|columns| > 0` itself, so it has no
  contract of its own.
- Cursor.ExecStateColumn.Next: requires `CanAdvance`, meaning a block it is about
  to load holds at least one value. In the source, an empty block makes
  `block_[blk_offset_++]` index out of range.
- ExecState.DB721ExecState.Next: requires `CanAdvance` of every cursor, so it
  demands more than the source does. The source evaluates a cursor only while
  every cursor before it still has values. An empty block further on does no
  harm when an earlier cursor is exhausted, but the model excludes that case.
  For a cursor it does reach, the source has the same undefined behaviour as
  `Cursor.ExecStateColumn.Next`.
- ExecState.DB721ExecState.Next: on failure the row is left incomplete. The
  source writes null flags and values into the slot up to that point, and the
  model states nothing about that partial row.
- ExecState.DB721ExecState.constructor: requires every used attribute to be
  `Resolvable`. This covers three conditions:
  - the debug `Assert(col)` that a matching column exists;
  - the `Assert(strlen(input) < NAMEDATALEN - 1)` of `tolowercase` for the
    attribute's name;
  - the same assertion for every column name compared before the match.
- ExecState.DB721ExecState.FindColumn: allocates its two 255-byte scratch
  buffers on every call. The source declares them once on the constructor's
  stack; their contents do not carry over between attributes.
- `blk_offset_` is `uint16_t` in the source and a `nat` here. It never exceeds a
  block's `num_vals_`, which is itself below 2^16, so no wrap is lost.
- `next_blk_` is a `nat` in the corrected model; its 16-bit wrap is a finding
  below.
- The cursor's ghost field `pending` and the ghost `stop` result of `Next` are
  specification devices with no counterpart in the source.

## Findings

| source | as written | input that shows it | evidently intended | confidence | as-written member | corrected member |
|---|---|---|---|---|---|---|
| cmudb/extensions/db721_fdw/src/reader.cpp:235 | `ReScan` resets a cursor only when `next_blk_ > 1` | a column of one block, scanned to exhaustion: the last `Next` clears the block and leaves `next_blk_ == 1`, so after `ReScan` the cursor reports exhaustion at once | a rescan replays the whole column; reset whenever block 0 is not in memory (`next_blk_ > 1` or the block is empty) | not executed | Cursor.RescanAsWrittenLosesRows | Cursor.RescanRestarts |
| cmudb/extensions/db721_fdw/src/reader.h:101 | `next_blk_` is `uint16_t` and `next_blk_++` wraps | a column with 65536 blocks: after block 65535 the counter is 0 again, so `next_blk_ >= block_stat_.size()` never holds. Only block 0's `num_vals_` is reused; `cur_offset_` is not rewound (lines 136, 156). Reading goes on past the column's end, into the next column and the metadata, and then through failed reads that leave stale buffer bytes | the cursor reports exhaustion after the last block | not executed | Cursor.NarrowBlockCounterWraps | Cursor.ExecStateColumn.LoadNextBlock |
