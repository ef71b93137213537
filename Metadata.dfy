/**
 * Decoding of a db721 file's trailer and metadata document into the table's
 * column descriptors: the specification that DB721Table.Open is proved against.
 *
 * File layout: [column blocks][metadata document: metaSize bytes][metaSize: 4 bytes, little-endian].
 */
module Metadata {
  import opened Bytes
  import opened Wrappers
  import opened Db721Types

  /** Size in bytes of the trailer word that holds the metadata size. */
  const MetaSizeBytes: nat := 4

  /** The type names the decoder recognises, as bytes: "float" and "int". */
  const FloatName: seq<u8> := [0x66, 0x6c, 0x6f, 0x61, 0x74]
  const IntName: seq<u8> := [0x69, 0x6e, 0x74]

  /**
   * A scalar of the parsed document. A number carries the two conversions the
   * JSON library performs on it, to a C `int` and to a C `float` (as its bit pattern).
   */
  datatype Scalar = Number(asInt: i32, asFloat: u32) | Text(bytes: seq<u8>)

  /** One entry of a column's "block_stats" object; `index` is its key as a number. */
  datatype StatRecord = StatRecord(index: nat, num: int, min: Scalar, max: Scalar, minLen: int, maxLen: int)

  /** One entry of the "Columns" object, with its key as `name`. */
  datatype ColumnRecord = ColumnRecord(name: seq<u8>, typeName: seq<u8>, startOffset: int, numBlocks: nat, blockStats: seq<StatRecord>)

  /** The parsed metadata document, its "Columns" entries in document order. */
  datatype MetaDocument = MetaDocument(maxValuesPerBlock: int, columns: seq<ColumnRecord>)

  datatype OpenError =
    | MetaSizeUnreadable    // the 4-byte trailer could not be read
    | MetadataUnreadable    // the metadata range lies outside the file
    | ParseError            // the metadata is not a document
    | TypeError             // a block bound has the wrong kind for its column type
    | BlockIndexOutOfRange  // a block_stats key is not below num_blocks

  /** What Open leaves in the table. */
  datatype TableMeta = TableMeta(maxValBlock: u16, columns: seq<DB721Column>)

  /** The column type named by a document's "type" entry; every other name is a string column. */
  function DecodeType(typeName: seq<u8>): (t: DB721Type)
    ensures t == Float <==> typeName == FloatName
    ensures t == Int <==> typeName == IntName
    ensures t == String <==> typeName != FloatName && typeName != IntName
  {
    if typeName == FloatName then Float
    else if typeName == IntName then Int
    else String
  }

  /** A block bound converted to the column type; a string bound keeps the bytes before its first NUL. */
  function DecodeBound(t: DB721Type, v: Scalar): (r: Result<DB721Data, OpenError>)
    ensures r.Success? <==> (t == String <==> v.Text?)
    ensures r.Failure? ==> r.error == TypeError
    ensures r.Success? ==> HasType(r.value, t)
    ensures r.Success? && t == String ==> r.value == StrVal(CStr(v.bytes))
  {
    match t
    case Float => if v.Number? then Success(FloatVal(v.asFloat)) else Failure(TypeError)
    case Int => if v.Number? then Success(IntVal(v.asInt)) else Failure(TypeError)
    case String => if v.Text? then Success(StrVal(CStr(v.bytes))) else Failure(TypeError)
  }

  /** Both bounds of a record convert to the column type. */
  predicate BoundsFit(t: DB721Type, rec: StatRecord) {
    DecodeBound(t, rec.min).Success? && DecodeBound(t, rec.max).Success?
  }

  /**
   * The fields one record writes into a block statistic: the count, both bounds,
   * and for a string column the two lengths; the other fields keep their value.
   */
  function WriteStat(s: DB721BlockStat, t: DB721Type, rec: StatRecord): (r: Result<DB721BlockStat, OpenError>)
    ensures r.Success? <==> BoundsFit(t, rec)
    ensures r.Failure? ==> r.error == TypeError
    ensures r.Success? ==>
      && r.value.numVals == Wrap16(rec.num)
      && HasType(r.value.minVal, t) && HasType(r.value.maxVal, t)
      && (t == String ==> r.value.minStrLen == Wrap8(rec.minLen) && r.value.maxStrLen == Wrap8(rec.maxLen))
      && (t != String ==> r.value.minStrLen == s.minStrLen && r.value.maxStrLen == s.maxStrLen)
  {
    if !BoundsFit(t, rec) then Failure(TypeError)
    else
      var s1 := s.(numVals := Wrap16(rec.num), minVal := DecodeBound(t, rec.min).value, maxVal := DecodeBound(t, rec.max).value);
      Success(if t == String then s1.(minStrLen := Wrap8(rec.minLen), maxStrLen := Wrap8(rec.maxLen)) else s1)
  }

  /** One "block_stats" entry applied to the statistics, its key checked against their number. */
  function ApplyStat(stats: seq<DB721BlockStat>, t: DB721Type, rec: StatRecord): (r: Result<seq<DB721BlockStat>, OpenError>)
    ensures r.Success? <==> rec.index < |stats| && BoundsFit(t, rec)
    ensures r.Failure? ==> r.error == if rec.index < |stats| then TypeError else BlockIndexOutOfRange
    ensures r.Success? ==> |r.value| == |stats|
  {
    if rec.index >= |stats| then Failure(BlockIndexOutOfRange)
    else match WriteStat(stats[rec.index], t, rec)
      case Failure(e) => Failure(e)
      case Success(s) => Success(stats[rec.index := s])
  }

  /** The "block_stats" entries applied in document order; the first failing one ends decoding. */
  function ApplyStats(stats: seq<DB721BlockStat>, t: DB721Type, recs: seq<StatRecord>): (r: Result<seq<DB721BlockStat>, OpenError>)
    ensures r.Success? ==> |r.value| == |stats|
    ensures r.Failure? ==> r.error == TypeError || r.error == BlockIndexOutOfRange
    decreases |recs|
  {
    if recs == [] then Success(stats)
    else match ApplyStat(stats, t, recs[0])
      case Failure(e) => Failure(e)
      case Success(next) => ApplyStats(next, t, recs[1..])
  }

  /** One column record decoded: its type, its wrapped start offset and exactly num_blocks statistics. */
  function DecodeColumn(rec: ColumnRecord): (r: Result<DB721Column, OpenError>)
    ensures r.Success? ==>
      && r.value.name == rec.name && r.value.typ == DecodeType(rec.typeName)
      && r.value.startOffset == Wrap32(rec.startOffset) && |r.value.blockStat| == rec.numBlocks
    ensures r.Failure? ==> r.error == TypeError || r.error == BlockIndexOutOfRange
  {
    var t := DecodeType(rec.typeName);
    match ApplyStats(seq(rec.numBlocks, _ => ZeroStat(t)), t, rec.blockStats)
    case Failure(e) => Failure(e)
    case Success(stats) => Success(DB721Column(rec.name, t, Wrap32(rec.startOffset), stats))
  }

  /** Column records decoded in document order and appended to `acc`. */
  function DecodeColumnsFrom(acc: seq<DB721Column>, recs: seq<ColumnRecord>): (r: Result<seq<DB721Column>, OpenError>)
    ensures r.Success? ==> |r.value| == |acc| + |recs|
    ensures r.Failure? ==> r.error == TypeError || r.error == BlockIndexOutOfRange
    decreases |recs|
  {
    if recs == [] then Success(acc)
    else match DecodeColumn(recs[0])
      case Failure(e) => Failure(e)
      case Success(c) => DecodeColumnsFrom(acc + [c], recs[1..])
  }

  function DecodeDocument(doc: MetaDocument): (r: Result<TableMeta, OpenError>)
    ensures r.Success? ==> |r.value.columns| == |doc.columns| && r.value.maxValBlock == Wrap16(doc.maxValuesPerBlock)
    ensures r.Failure? ==> r.error == TypeError || r.error == BlockIndexOutOfRange
  {
    match DecodeColumnsFrom([], doc.columns)
    case Failure(e) => Failure(e)
    case Success(cols) => Success(TableMeta(Wrap16(doc.maxValuesPerBlock), cols))
  }

  /** The metadata size: the little-endian word in the last four bytes of the file. */
  function MetaSize(file: seq<u8>): (m: u32)
    requires |file| >= MetaSizeBytes
    ensures EncodeLeU32(m) == file[|file| - MetaSizeBytes ..]
  {
    EncodeLeU32RoundTrip(file[|file| - MetaSizeBytes ..]);
    LeU32(file[|file| - MetaSizeBytes ..])
  }

  /** The metadata: the MetaSize bytes just before the trailer word, when the file holds that many. */
  function MetadataBytes(file: seq<u8>): (r: Result<seq<u8>, OpenError>)
    requires |file| >= MetaSizeBytes
    ensures r.Success? <==> MetaSize(file) <= |file| - MetaSizeBytes
    ensures r.Failure? ==> r.error == MetadataUnreadable
    ensures r.Success? ==> |r.value| == MetaSize(file) && file == file[..|file| - MetaSizeBytes - MetaSize(file)] + r.value + file[|file| - MetaSizeBytes ..]
  {
    var m := MetaSize(file);
    var end := |file| - MetaSizeBytes;
    if m <= end then Success(file[end - m .. end]) else Failure(MetadataUnreadable)
  }

  /** The table a file describes, with the document parser as a parameter. */
  function DecodeTable(file: seq<u8>, parse: seq<u8> -> Option<MetaDocument>): (r: Result<TableMeta, OpenError>)
    requires |file| > MetaSizeBytes
    ensures r.Failure? ==> r.error != MetaSizeUnreadable
    ensures r == Failure(MetadataUnreadable) <==> MetadataBytes(file).Failure?
    ensures r == Failure(ParseError) <==> MetadataBytes(file).Success? && parse(MetadataBytes(file).value).None?
    ensures r.Success? ==>
      && MetadataBytes(file).Success? && parse(MetadataBytes(file).value).Some?
      && r == DecodeDocument(parse(MetadataBytes(file).value).value)
  {
    match MetadataBytes(file)
    case Failure(e) => Failure(e)
    case Success(meta) =>
      match parse(meta)
      case None => Failure(ParseError)
      case Some(doc) => DecodeDocumentErrors(doc); DecodeDocument(doc)
  }

  // ---------------------------------------------------------------------------
  // Properties of the decoding

  /**
   * A file written as blocks, then a metadata document, then the document's size
   * gives back exactly that document.
   */
  lemma TrailerRoundTrip(blocks: seq<u8>, meta: seq<u8>)
    requires |meta| < U32Range
    ensures var file := blocks + meta + EncodeLeU32(|meta|);
      MetaSize(file) == |meta| && MetadataBytes(file) == Success(meta)
  {
    var file := blocks + meta + EncodeLeU32(|meta|);
    assert file[|file| - MetaSizeBytes ..] == EncodeLeU32(|meta|);
    LeU32RoundTrip(|meta|);
    assert file[|blocks| .. |blocks| + |meta|] == meta;
  }

  /** The metadata is unreadable exactly when its size exceeds what precedes the trailer. */
  lemma MetadataRange(file: seq<u8>, parse: seq<u8> -> Option<MetaDocument>)
    requires |file| > MetaSizeBytes
    ensures DecodeTable(file, parse) == Failure(MetadataUnreadable) <==> MetaSize(file) > |file| - MetaSizeBytes
    ensures MetadataBytes(file).Success? ==>
      var m := MetaSize(file);
      MetadataBytes(file).value == file[|file| - MetaSizeBytes - m .. |file| - MetaSizeBytes] &&
      |MetadataBytes(file).value| == m
  {
    if MetaSize(file) <= |file| - MetaSizeBytes {
      var meta := MetadataBytes(file).value;
      match parse(meta)
      case None =>
      case Some(doc) => DecodeDocumentErrors(doc);
    }
  }

  /** Decoding a document never reports a trailer error. */
  lemma DecodeDocumentErrors(doc: MetaDocument)
    ensures DecodeDocument(doc).Failure? ==> DecodeDocument(doc).error in {TypeError, BlockIndexOutOfRange}
  {
    ColumnsFromErrors([], doc.columns);
  }

  lemma {:induction false} ColumnsFromErrors(acc: seq<DB721Column>, recs: seq<ColumnRecord>)
    ensures DecodeColumnsFrom(acc, recs).Failure? ==> DecodeColumnsFrom(acc, recs).error in {TypeError, BlockIndexOutOfRange}
    decreases |recs|
  {
    if recs != [] {
      var t := DecodeType(recs[0].typeName);
      StatsErrors(seq(recs[0].numBlocks, _ => ZeroStat(t)), t, recs[0].blockStats);
      if DecodeColumn(recs[0]).Success? {
        ColumnsFromErrors(acc + [DecodeColumn(recs[0]).value], recs[1..]);
      }
    }
  }

  lemma {:induction false} StatsErrors(stats: seq<DB721BlockStat>, t: DB721Type, recs: seq<StatRecord>)
    ensures ApplyStats(stats, t, recs).Failure? ==> ApplyStats(stats, t, recs).error in {TypeError, BlockIndexOutOfRange}
    decreases |recs|
  {
    if recs != [] && ApplyStat(stats, t, recs[0]).Success? {
      StatsErrors(ApplyStat(stats, t, recs[0]).value, t, recs[1..]);
    }
  }

  /**
   * Applying the entries keeps the number of statistics, and succeeds exactly
   * when every key is below that number and every bound fits the column type.
   */
  lemma {:induction false} ApplyStatsSucceeds(stats: seq<DB721BlockStat>, t: DB721Type, recs: seq<StatRecord>)
    ensures ApplyStats(stats, t, recs).Success? <==>
      forall j :: 0 <= j < |recs| ==> recs[j].index < |stats| && BoundsFit(t, recs[j])
    ensures ApplyStats(stats, t, recs).Success? ==> |ApplyStats(stats, t, recs).value| == |stats|
    decreases |recs|
  {
    if recs != [] {
      if ApplyStat(stats, t, recs[0]).Success? {
        var next := ApplyStat(stats, t, recs[0]).value;
        ApplyStatsSucceeds(next, t, recs[1..]);
        assert forall j :: 1 <= j < |recs| ==> recs[j] == recs[1..][j - 1];
      }
    }
  }

  /** A key no later entry repeats: the entry whose fields the statistic keeps. */
  predicate LastFor(recs: seq<StatRecord>, j: nat) {
    j < |recs| && forall j2 :: j < j2 < |recs| ==> recs[j2].index != recs[j].index
  }

  /**
   * After a successful application, a block no entry names keeps its statistic,
   * and a named block holds what its last entry writes over the original.
   * (Earlier entries for the same key are overwritten field by field, and
   * WriteStat writes the same fields for every entry of one column.)
   */
  lemma {:induction false} ApplyStatsResult(stats: seq<DB721BlockStat>, t: DB721Type, recs: seq<StatRecord>)
    requires ApplyStats(stats, t, recs).Success?
    ensures var r := ApplyStats(stats, t, recs).value;
      |r| == |stats| &&
      (forall k :: 0 <= k < |stats| && (forall j :: 0 <= j < |recs| ==> recs[j].index != k) ==> r[k] == stats[k]) &&
      (forall j :: 0 <= j < |recs| && LastFor(recs, j) ==>
        recs[j].index < |stats| && BoundsFit(t, recs[j]) &&
        r[recs[j].index] == WriteStat(stats[recs[j].index], t, recs[j]).value)
    decreases |recs|
  {
    ApplyStatsSucceeds(stats, t, recs);
    if recs != [] {
      var next := ApplyStat(stats, t, recs[0]).value;
      ApplyStatsResult(next, t, recs[1..]);
      var r := ApplyStats(stats, t, recs).value;
      assert r == ApplyStats(next, t, recs[1..]).value;
      forall j | 0 <= j < |recs| && LastFor(recs, j)
        ensures recs[j].index < |stats| && BoundsFit(t, recs[j])
        ensures r[recs[j].index] == WriteStat(stats[recs[j].index], t, recs[j]).value
      {
        if j == 0 {
          assert forall j2 :: 0 <= j2 < |recs[1..]| ==> recs[1..][j2].index != recs[0].index by {
            forall j2 | 0 <= j2 < |recs[1..]| ensures recs[1..][j2].index != recs[0].index {
              assert recs[1..][j2] == recs[j2 + 1];
            }
          }
          assert r[recs[0].index] == next[recs[0].index];
        } else {
          assert recs[j] == recs[1..][j - 1];
          assert LastFor(recs[1..], j - 1) by {
            forall j2 | j - 1 < j2 < |recs[1..]| ensures recs[1..][j2].index != recs[1..][j - 1].index {
              assert recs[1..][j2] == recs[j2 + 1];
            }
          }
          WriteStatOverwrites(stats[recs[0].index], t, recs[0], recs[j]);
        }
      }
      forall k | 0 <= k < |stats| && (forall j :: 0 <= j < |recs| ==> recs[j].index != k)
        ensures r[k] == stats[k]
      {
        assert recs[0].index != k;
        forall j | 0 <= j < |recs[1..]| ensures recs[1..][j].index != k {
          assert recs[1..][j] == recs[j + 1];
        }
      }
    }
  }

  /** A later entry for the same block overwrites every field an earlier one wrote. */
  lemma WriteStatOverwrites(s: DB721BlockStat, t: DB721Type, first: StatRecord, second: StatRecord)
    requires WriteStat(s, t, first).Success? && WriteStat(s, t, second).Success?
    ensures WriteStat(WriteStat(s, t, first).value, t, second) == WriteStat(s, t, second)
  {
  }

  /** Every statistic a decoded column holds carries bounds of the column's type. */
  lemma {:induction false} ApplyStatsTyped(stats: seq<DB721BlockStat>, t: DB721Type, recs: seq<StatRecord>)
    requires forall k :: 0 <= k < |stats| ==> HasType(stats[k].minVal, t) && HasType(stats[k].maxVal, t)
    requires ApplyStats(stats, t, recs).Success?
    ensures var r := ApplyStats(stats, t, recs).value;
      forall k :: 0 <= k < |r| ==> HasType(r[k].minVal, t) && HasType(r[k].maxVal, t)
    decreases |recs|
  {
    if recs != [] {
      ApplyStatsTyped(ApplyStat(stats, t, recs[0]).value, t, recs[1..]);
    }
  }

  /**
   * A column decodes exactly when all its entries are in range and well typed; it then
   * keeps the record's name, has the named type, the wrapped start offset, exactly
   * num_blocks statistics, and bounds of its own type.
   */
  lemma DecodeColumnShape(rec: ColumnRecord)
    ensures var t := DecodeType(rec.typeName);
      DecodeColumn(rec).Success? <==>
        forall j :: 0 <= j < |rec.blockStats| ==> rec.blockStats[j].index < rec.numBlocks && BoundsFit(t, rec.blockStats[j])
    ensures DecodeColumn(rec).Success? ==>
      var c := DecodeColumn(rec).value;
      c.name == rec.name && c.typ == DecodeType(rec.typeName) && c.startOffset == Wrap32(rec.startOffset) &&
      |c.blockStat| == rec.numBlocks &&
      forall k :: 0 <= k < |c.blockStat| ==> HasType(c.blockStat[k].minVal, c.typ) && HasType(c.blockStat[k].maxVal, c.typ)
  {
    var t := DecodeType(rec.typeName);
    var init := seq(rec.numBlocks, _ => ZeroStat(t));
    ApplyStatsSucceeds(init, t, rec.blockStats);
    if ApplyStats(init, t, rec.blockStats).Success? {
      ApplyStatsTyped(init, t, rec.blockStats);
    }
  }

  /**
   * Column records decode in document order: one descriptor per record, and
   * decoding fails exactly when some record fails.
   */
  lemma {:induction false} DecodeColumnsInOrder(recs: seq<ColumnRecord>)
    ensures DecodeColumnsFrom([], recs).Success? <==> forall i :: 0 <= i < |recs| ==> DecodeColumn(recs[i]).Success?
    ensures DecodeColumnsFrom([], recs).Success? ==>
      var r := DecodeColumnsFrom([], recs).value;
      |r| == |recs| && forall i :: 0 <= i < |recs| ==> r[i] == DecodeColumn(recs[i]).value
    decreases |recs|
  {
    if recs != [] && DecodeColumn(recs[0]).Success? {
      var c := DecodeColumn(recs[0]).value;
      var rest := recs[1..];
      DecodeColumnsInOrder(rest);
      DecodeColumnsAppend([c], rest);
      var none: seq<DB721Column> := [];
      assert none + [c] == [c];
      assert DecodeColumnsFrom([], recs) == DecodeColumnsFrom([c], rest);
      forall i | 0 <= i < |rest| ensures rest[i] == recs[i + 1] { }
    }
  }

  /** Decoding appends to what is already there and fails the same way whatever that is. */
  lemma {:induction false} DecodeColumnsAppend(acc: seq<DB721Column>, recs: seq<ColumnRecord>)
    ensures DecodeColumnsFrom(acc, recs).Success? <==> DecodeColumnsFrom([], recs).Success?
    ensures DecodeColumnsFrom(acc, recs).Success? ==> DecodeColumnsFrom(acc, recs).value == acc + DecodeColumnsFrom([], recs).value
    ensures DecodeColumnsFrom(acc, recs).Failure? ==> DecodeColumnsFrom(acc, recs).error == DecodeColumnsFrom([], recs).error
    decreases |recs|
  {
    if recs != [] && DecodeColumn(recs[0]).Success? {
      var c := DecodeColumn(recs[0]).value;
      DecodeColumnsAppend(acc + [c], recs[1..]);
      DecodeColumnsAppend([c], recs[1..]);
      assert [] + [c] == [c];
      if DecodeColumnsFrom([], recs).Success? {
        assert acc + [c] + DecodeColumnsFrom([], recs[1..]).value == acc + ([c] + DecodeColumnsFrom([], recs[1..]).value);
      }
    }
  }

  /**
   * A decoded document lists exactly its column records, in document order, each
   * with the named type and exactly num_blocks statistics.
   */
  lemma DocumentColumns(doc: MetaDocument)
    requires DecodeDocument(doc).Success?
    ensures var cols := DecodeDocument(doc).value.columns;
      |cols| == |doc.columns| &&
      forall i :: 0 <= i < |cols| ==>
        cols[i].name == doc.columns[i].name &&
        cols[i].typ == DecodeType(doc.columns[i].typeName) &&
        cols[i].startOffset == Wrap32(doc.columns[i].startOffset) &&
        |cols[i].blockStat| == doc.columns[i].numBlocks
  {
    DecodeColumnsInOrder(doc.columns);
    var cols := DecodeDocument(doc).value.columns;
    forall i | 0 <= i < |cols|
      ensures cols[i].name == doc.columns[i].name && cols[i].typ == DecodeType(doc.columns[i].typeName)
      ensures cols[i].startOffset == Wrap32(doc.columns[i].startOffset) && |cols[i].blockStat| == doc.columns[i].numBlocks
    {
      DecodeColumnShape(doc.columns[i]);
    }
  }

  /** A block_stats key at or beyond num_blocks makes the whole table fail to decode. */
  lemma OutOfRangeKeyRejected(doc: MetaDocument, i: nat, j: nat)
    requires i < |doc.columns| && j < |doc.columns[i].blockStats|
    requires doc.columns[i].blockStats[j].index >= doc.columns[i].numBlocks
    ensures DecodeDocument(doc).Failure?
  {
    DecodeColumnShape(doc.columns[i]);
    DecodeColumnsInOrder(doc.columns);
  }
}
