/**
 * A db721 table: its file stream and the column descriptors Open decodes from
 * the file's trailer and metadata.
 */
module Table {
  import opened Bytes
  import opened Wrappers
  import opened Db721Types
  import opened Metadata
  import opened FileStream

  class DB721Table {
    const ifs: Stream
    var maxValBlock: u16              // the maximum number of values in a block
    var columns: seq<DB721Column>     // in document order
    /** What the constructor's Open reported. */
    ghost var openOutcome: Outcome<OpenError>

    /**
     * A table over `file`: the stream is opened at the end of the file and Open
     * runs at once. `openOutcome` records its outcome: a pass exactly when the file
     * decodes, and then the table holds exactly the decoded columns.
     */
    constructor (file: seq<u8>, parse: seq<u8> -> Option<MetaDocument>)
      requires MetaSizeBytes < |file| < U32Range
      ensures fresh(ifs) && ifs.data == file
      ensures openOutcome.Pass? <==> DecodeTable(file, parse).Success?
      ensures openOutcome.Fail? ==> openOutcome.error == DecodeTable(file, parse).error
      ensures openOutcome.Pass? ==>
        maxValBlock == DecodeTable(file, parse).value.maxValBlock &&
        columns == DecodeTable(file, parse).value.columns
    {
      ifs := new Stream(file);
      maxValBlock := 0;
      columns := [];
      openOutcome := Pass;
      new;
      var outcome := Open(parse);
      openOutcome := outcome;
    }

    predicate IsOpen()
      reads this
    {
      |columns| > 0
    }

    /**
     * Reads the trailer and the metadata through the stream and appends one
     * descriptor per column record. It fails exactly when DecodeTable fails, with
     * the same error, and on success leaves exactly what DecodeTable describes.
     */
    method Open(parse: seq<u8> -> Option<MetaDocument>) returns (r: Outcome<OpenError>)
      requires MetaSizeBytes < |ifs.data| < U32Range
      modifies this, ifs
      ensures r.Pass? <==> DecodeTable(ifs.data, parse).Success?
      ensures r.Fail? ==> r.error == DecodeTable(ifs.data, parse).error
      ensures r.Pass? ==>
        maxValBlock == DecodeTable(ifs.data, parse).value.maxValBlock &&
        columns == old(columns) + DecodeTable(ifs.data, parse).value.columns
    {
      var fsize := |ifs.data|;
      ifs.Seek(fsize - MetaSizeBytes);
      var ok, word := ifs.Read(MetaSizeBytes);
      if !ok {
        return Fail(MetaSizeUnreadable);
      }
      var metaSize := LeU32(word);
      // `size_t` arithmetic: a size beyond the file gives an offset that is no
      // stream position, so `seekg` and the read after it fail
      var offset := fsize - MetaSizeBytes - metaSize;
      if offset < 0 {
        return Fail(MetadataUnreadable);
      }
      ifs.Seek(offset);
      var metadata;
      ok, metadata := ifs.Read(metaSize);
      if !ok {
        return Fail(MetadataUnreadable);
      }
      assert MetadataBytes(ifs.data) == Success(metadata);
      var parsed := parse(metadata);
      if parsed.None? {
        return Fail(ParseError);
      }
      var doc := parsed.value;
      DecodeColumnsAppend(old(columns), doc.columns);
      maxValBlock := Wrap16(doc.maxValuesPerBlock);
      var i := 0;
      while i < |doc.columns|
        invariant 0 <= i <= |doc.columns|
        invariant DecodeColumnsFrom(columns, doc.columns[i..]) == DecodeColumnsFrom(old(columns), doc.columns)
        invariant maxValBlock == Wrap16(doc.maxValuesPerBlock)
      {
        var rec := doc.columns[i];
        var t := DecodeType(rec.typeName);
        var decoded := DecodeBlockStats(rec, t);
        if decoded.Failure? {
          ColumnFailure(columns, doc.columns, i);
          return Fail(decoded.error);
        }
        var stats := decoded.value;
        assert doc.columns[i..][0] == rec && doc.columns[i..][1..] == doc.columns[i + 1..];
        columns := columns + [DB721Column(rec.name, t, Wrap32(rec.startOffset), stats)];
        i := i + 1;
      }
      assert doc.columns[i..] == [];
      return Pass;
    }

    /**
     * Sizes a column's statistics to num_blocks and fills them from its
     * "block_stats" entries in document order, rejecting a key at or beyond
     * num_blocks and a bound of the wrong kind.
     */
    static method DecodeBlockStats(rec: ColumnRecord, t: DB721Type) returns (r: Result<seq<DB721BlockStat>, OpenError>)
      ensures r == ApplyStats(seq(rec.numBlocks, _ => ZeroStat(t)), t, rec.blockStats)
    {
      var stats := seq(rec.numBlocks, _ => ZeroStat(t));
      ghost var init := stats;
      var j := 0;
      while j < |rec.blockStats|
        invariant 0 <= j <= |rec.blockStats|
        invariant ApplyStats(stats, t, rec.blockStats[j..]) == ApplyStats(init, t, rec.blockStats)
      {
        var st := rec.blockStats[j];
        assert rec.blockStats[j..][0] == st && rec.blockStats[j..][1..] == rec.blockStats[j + 1..];
        if st.index >= |stats| {
          return Failure(BlockIndexOutOfRange);
        }
        var stat := stats[st.index];
        stat := stat.(numVals := Wrap16(st.num));
        var lo := DecodeBound(t, st.min);
        if lo.Failure? {
          return Failure(TypeError);
        }
        var hi := DecodeBound(t, st.max);
        if hi.Failure? {
          return Failure(TypeError);
        }
        stat := stat.(minVal := lo.value, maxVal := hi.value);
        if t == String {
          stat := stat.(minStrLen := Wrap8(st.minLen), maxStrLen := Wrap8(st.maxLen));
        }
        stats := stats[st.index := stat];
        j := j + 1;
      }
      assert rec.blockStats[j..] == [];
      return Success(stats);
    }

    /**
     * Adds the value counts of column 0's blocks to `total`, the planner's
     * running row count, and reports that many matching rows.
     */
    method EstimateRows(total: int) returns (matchRows: int, newTotal: int)
      requires IsOpen()
      ensures newTotal == total + SumNumVals(columns[0].blockStat)
      ensures matchRows == newTotal
    {
      var stats := columns[0].blockStat;
      newTotal := total;
      for k := 0 to |stats|
        invariant newTotal == total + SumNumVals(stats[..k])
      {
        SumNumValsPrefixStep(stats, k);
        newTotal := newTotal + stats[k].numVals;
      }
      assert stats[..|stats|] == stats;
      matchRows := newTotal;
    }
  }

  /** A column record that fails makes the rest of the document fail with its error. */
  lemma ColumnFailure(acc: seq<DB721Column>, recs: seq<ColumnRecord>, i: nat)
    requires i < |recs| && DecodeColumn(recs[i]).Failure?
    ensures DecodeColumnsFrom(acc, recs[i..]) == Failure(DecodeColumn(recs[i]).error)
  {
    assert recs[i..][0] == recs[i];
  }
}
