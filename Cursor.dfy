/**
 * The per-column scan cursor (`ExecStateColumn`): it walks one column's blocks in
 * file order, decoding a whole block into memory when the previous one is used up
 * and handing out its values one at a time.
 *
 * What a cursor still has to hand out is captured by `StatePending`: the unread
 * rest of the block in memory followed by the values of every block not yet loaded.
 */
module Cursor {
  import opened Wrappers
  import opened Bytes
  import opened Db721Types
  import opened FileStream

  /** File offset of block `k` of a column: the blocks lie back to back from the start offset. */
  function BlockStart(c: DB721Column, k: nat): nat
    requires k <= |c.blockStat|
  {
    c.startOffset as nat + Span(c.typ, SumNumVals(c.blockStat[..k]))
  }

  /** Block 0 starts at the column's start offset, and a later block starts no earlier. */
  lemma BlockStartOrder(c: DB721Column, j: nat, k: nat)
    requires j <= k <= |c.blockStat|
    ensures BlockStart(c, 0) == c.startOffset as nat
    ensures BlockStart(c, j) <= BlockStart(c, k)
  {
    assert c.blockStat[..0] == [];
    SumNumValsPrefixMono(c.blockStat, j, k);
  }

  /** Every block the column's statistics describe lies inside a file the 32-bit offsets can address. */
  predicate ColumnInFile(file: seq<u8>, c: DB721Column) {
    BlockStart(c, |c.blockStat|) <= |file| < U32Range
  }

  /** Block `k` ends where block `k + 1` starts, inside the file. */
  lemma BlockBounds(file: seq<u8>, c: DB721Column, k: nat)
    requires ColumnInFile(file, c) && k < |c.blockStat|
    ensures BlockStart(c, k) + Span(c.typ, c.blockStat[k].numVals as nat) == BlockStart(c, k + 1)
    ensures BlockStart(c, k + 1) <= |file|
  {
    var stats := c.blockStat;
    SumNumValsPrefixStep(stats, k);
    SpanStep(c.typ, SumNumVals(stats[..k]), stats[k].numVals as nat);
    SumNumValsPrefixMono(stats, k + 1, |stats|);
    var upTo := SumNumVals(stats[..k + 1]);
    SpanStep(c.typ, upTo, SumNumVals(stats[..|stats|]) - upTo);
  }

  /** The values of block `k`: its `num` slots decoded from the block's start. */
  function BlockValues(file: seq<u8>, c: DB721Column, k: nat): (r: seq<DB721Data>)
    requires ColumnInFile(file, c) && k < |c.blockStat|
    ensures |r| == c.blockStat[k].numVals as nat
  {
    BlockBounds(file, c, k);
    DecodeRun(file, c.typ, BlockStart(c, k), c.blockStat[k].numVals as nat)
  }

  /** The values of blocks `k`, `k + 1`, ... in file order. */
  function ValuesFrom(file: seq<u8>, c: DB721Column, k: nat): (r: seq<DB721Data>)
    requires ColumnInFile(file, c) && k <= |c.blockStat|
    decreases |c.blockStat| - k
  {
    if k == |c.blockStat| then [] else BlockValues(file, c, k) + ValuesFrom(file, c, k + 1)
  }

  /** Number of values in blocks `k`, `k + 1`, ... */
  function ValuesAfter(c: DB721Column, k: nat): nat
    requires k <= |c.blockStat|
    decreases |c.blockStat| - k
  {
    if k == |c.blockStat| then 0 else c.blockStat[k].numVals as nat + ValuesAfter(c, k + 1)
  }

  /** The values after block `k` are the ones its statistics and those of later blocks count. */
  lemma {:induction false} ValuesAfterSum(c: DB721Column, k: nat)
    requires k <= |c.blockStat|
    ensures ValuesAfter(c, k) == SumNumVals(c.blockStat[k..])
    decreases |c.blockStat| - k
  {
    var stats := c.blockStat;
    if k < |stats| {
      ValuesAfterSum(c, k + 1);
      assert stats[k..] == [stats[k]] + stats[k + 1..];
      SumNumValsAppend([stats[k]], stats[k + 1..]);
      assert [stats[k]][..0] == [];
    }
  }

  /** The slots of blocks `k`, `k + 1`, ... end where the column ends. */
  lemma {:induction false} RestFits(file: seq<u8>, c: DB721Column, k: nat)
    requires ColumnInFile(file, c) && k <= |c.blockStat|
    ensures BlockStart(c, k) + Span(c.typ, ValuesAfter(c, k)) == BlockStart(c, |c.blockStat|)
    decreases |c.blockStat| - k
  {
    if k < |c.blockStat| {
      RestFits(file, c, k + 1);
      BlockBounds(file, c, k);
      SpanStep(c.typ, c.blockStat[k].numVals as nat, ValuesAfter(c, k + 1));
    }
  }

  /**
   * Reading block by block gives the same values as reading every slot from
   * block `k` to the end of the column in one run.
   */
  lemma {:induction false} ValuesFromRun(file: seq<u8>, c: DB721Column, k: nat)
    requires ColumnInFile(file, c) && k <= |c.blockStat|
    ensures BlockStart(c, k) + Span(c.typ, ValuesAfter(c, k)) <= |file|
    ensures ValuesFrom(file, c, k) == DecodeRun(file, c.typ, BlockStart(c, k), ValuesAfter(c, k))
    decreases |c.blockStat| - k
  {
    RestFits(file, c, k);
    if k < |c.blockStat| {
      ValuesFromRun(file, c, k + 1);
      ValuesFromStep(file, c, k);
    }
  }

  /** Block `k`'s run followed by the run of the blocks after it is the run from block `k`. */
  lemma ValuesFromStep(file: seq<u8>, c: DB721Column, k: nat)
    requires ColumnInFile(file, c) && k < |c.blockStat|
    requires BlockStart(c, k) + Span(c.typ, ValuesAfter(c, k)) <= |file|
    requires BlockStart(c, k + 1) + Span(c.typ, ValuesAfter(c, k + 1)) <= |file|
    ensures BlockValues(file, c, k) + DecodeRun(file, c.typ, BlockStart(c, k + 1), ValuesAfter(c, k + 1))
         == DecodeRun(file, c.typ, BlockStart(c, k), ValuesAfter(c, k))
  {
    BlockBounds(file, c, k);
    DecodeRunSplit(file, c.typ, BlockStart(c, k), c.blockStat[k].numVals as nat, ValuesAfter(c, k + 1));
  }

  /** The values of blocks `k` onward are as many as their statistics count. */
  lemma {:induction false} ValuesFromLength(file: seq<u8>, c: DB721Column, k: nat)
    requires ColumnInFile(file, c) && k <= |c.blockStat|
    ensures |ValuesFrom(file, c, k)| == ValuesAfter(c, k)
    decreases |c.blockStat| - k
  {
    if k < |c.blockStat| {
      ValuesFromLength(file, c, k + 1);
    }
  }

  /**
   * A full scan of a column yields exactly the column's slots in order, as many
   * as the block statistics count.
   */
  lemma ColumnScan(file: seq<u8>, c: DB721Column)
    requires ColumnInFile(file, c)
    ensures c.startOffset as nat + Span(c.typ, SumNumVals(c.blockStat)) <= |file|
    ensures ValuesFrom(file, c, 0) == DecodeRun(file, c.typ, c.startOffset as nat, SumNumVals(c.blockStat))
    ensures |ValuesFrom(file, c, 0)| == SumNumVals(c.blockStat)
  {
    assert c.blockStat[0..] == c.blockStat;
    assert c.blockStat[..0] == [];
    ValuesAfterSum(c, 0);
    ValuesFromRun(file, c, 0);
  }

  /** The fields of a cursor, as a value. */
  datatype CursorState = CursorState(curOffset: u32, nextBlk: nat, blkOffset: nat, block: seq<DB721Data>)

  /**
   * The cursor invariant: the next block to load is `nextBlk` and the file offset
   * is its start; the block in memory, if any, is block `nextBlk - 1` and the
   * read position lies inside it.
   */
  ghost predicate StateValid(file: seq<u8>, c: DB721Column, s: CursorState) {
    && ColumnInFile(file, c)
    && s.nextBlk <= |c.blockStat|
    && s.curOffset as nat == BlockStart(c, s.nextBlk)
    && s.blkOffset <= |s.block|
    && (s.block == [] || (0 < s.nextBlk && s.block == BlockValues(file, c, s.nextBlk - 1)))
  }

  /** What the cursor still hands out: the unread rest of its block, then the blocks not yet loaded. */
  ghost function StatePending(file: seq<u8>, c: DB721Column, s: CursorState): seq<DB721Data>
    requires StateValid(file, c, s)
  {
    s.block[s.blkOffset..] + ValuesFrom(file, c, s.nextBlk)
  }

  /** The state of a cursor that has not read anything: before block 0, with nothing in memory. */
  function Start(c: DB721Column): (r: CursorState)
    ensures r.curOffset == c.startOffset && r.nextBlk == 0 && r.blkOffset == 0 && r.block == []
  {
    CursorState(c.startOffset, 0, 0, [])
  }

  /** A cursor that has not read anything is valid and hands out the whole column. */
  lemma StartPending(file: seq<u8>, c: DB721Column)
    requires ColumnInFile(file, c)
    ensures StateValid(file, c, Start(c))
    ensures StatePending(file, c, Start(c)) == ValuesFrom(file, c, 0)
  {
    assert c.blockStat[..0] == [];
  }

  /**
   * The cursor state `ReScan` leaves: back to the first block, except that a
   * cursor still holding block 0 keeps it and only rewinds inside it.
   */
  function Rescan(c: DB721Column, s: CursorState): (r: CursorState)
    ensures r.blkOffset == 0
    ensures r == Start(c) || (r == s.(blkOffset := 0) && s.nextBlk <= 1 && s.block != [])
    ensures s.block == [] ==> r == Start(c)
  {
    if s.nextBlk > 1 || s.block == [] then Start(c)
    else s.(blkOffset := 0)
  }

  /** A rescanned cursor hands out the whole column again, and keeps block 0 when it holds it. */
  lemma RescanRestarts(file: seq<u8>, c: DB721Column, s: CursorState)
    requires StateValid(file, c, s)
    ensures StateValid(file, c, Rescan(c, s))
    ensures StatePending(file, c, Rescan(c, s)) == ValuesFrom(file, c, 0)
    ensures s.nextBlk == 1 && s.block != [] ==> Rescan(c, s).block == s.block
  {
    assert c.blockStat[..0] == [];
    if !(s.nextBlk > 1 || s.block == []) {
      assert s.block == BlockValues(file, c, 0);
      assert Rescan(c, s).block[0..] == s.block;
    }
  }

  /** `ReScan` as reader.cpp writes it: it resets only when `next_blk_ > 1`. */
  function RescanAsWritten(c: DB721Column, s: CursorState): (r: CursorState)
    ensures r.blkOffset == 0
    ensures r == Start(c) || (r == s.(blkOffset := 0) && s.nextBlk <= 1)
  {
    if s.nextBlk > 1 then Start(c)
    else s.(blkOffset := 0)
  }

  /** The two differ only for a cursor that has loaded block 0 and already dropped it. */
  lemma RescanAsWrittenDiffers(file: seq<u8>, c: DB721Column, s: CursorState)
    requires StateValid(file, c, s)
    ensures RescanAsWritten(c, s) != Rescan(c, s) <==> s.nextBlk == 1 && s.block == []
  {
  }

  /**
   * A column of one block holding one int: once the scan drained it (the block
   * was dropped and `nextBlk` is 1), the rescan as written hands out nothing.
   */
  lemma RescanAsWrittenLosesRows()
    ensures var file: seq<u8> := [7, 0, 0, 0];
      var c := DB721Column([0x61], Int, 0, [DB721BlockStat(1, IntVal(7), IntVal(7), 0, 0)]);
      var drained := CursorState(4, 1, 0, []);
      && StateValid(file, c, drained)
      && StatePending(file, c, drained) == []
      && StateValid(file, c, RescanAsWritten(c, drained))
      && StatePending(file, c, RescanAsWritten(c, drained)) == []
      && ValuesFrom(file, c, 0) == [IntVal(7)]
  {
    var file: seq<u8> := [7, 0, 0, 0];
    var c := DB721Column([0x61], Int, 0, [DB721BlockStat(1, IntVal(7), IntVal(7), 0, 0)]);
    assert c.blockStat[..0] == [];
    assert c.blockStat[..1] == c.blockStat;
    assert Slot(file, Int, 0, 0) == file;
    assert BlockValues(file, c, 0) == [IntVal(7)];
  }

  /**
   * What loading a block leaves, as reader.cpp writes it: the number of values
   * read, the offset they were read from, and the new `next_blk_` and
   * `cur_offset_`.
   */
  datatype LoadStep = LoadStep(numVals: nat, readAt: nat, nextBlk: u16, curOffset: nat)

  /**
   * Loading the next block as reader.cpp writes it, with a 16-bit block counter:
   * `None` when the cursor reports the column exhausted. Otherwise the count of
   * block `nextBlk` is read from the current offset, the counter is incremented
   * in 16 bits, and the offset moves past the slots read.
   */
  function LoadStepAsWritten(c: DB721Column, nextBlk: u16, curOffset: nat): (r: Option<LoadStep>)
    ensures r.None? <==> nextBlk as nat >= |c.blockStat|
    ensures r.Some? ==>
      && r.value.numVals == c.blockStat[nextBlk].numVals as nat
      && r.value.readAt == curOffset
      && r.value.nextBlk as nat == (nextBlk as nat + 1) % 0x1_0000
      && r.value.curOffset == curOffset + Span(c.typ, r.value.numVals)
  {
    if nextBlk as nat >= |c.blockStat| then None
    else
      var n := c.blockStat[nextBlk].numVals as nat;
      Some(LoadStep(n, curOffset, Wrap16(nextBlk as nat + 1), curOffset + Span(c.typ, n)))
  }

  /**
   * With 65536 blocks the 16-bit counter wraps after the last block, so the
   * exhaustion test never fires. The next load takes block 0's count again but
   * reads from where block 65535 ended, past the column's last slot: the offset
   * is not rewound.
   */
  lemma NarrowBlockCounterWraps(file: seq<u8>, c: DB721Column)
    requires ColumnInFile(file, c) && |c.blockStat| == 0x1_0000
    ensures LoadStepAsWritten(c, 0xFFFF, BlockStart(c, 0xFFFF)) ==
      Some(LoadStep(c.blockStat[0xFFFF].numVals as nat, BlockStart(c, 0xFFFF), 0, BlockStart(c, 0x1_0000)))
    ensures LoadStepAsWritten(c, 0, BlockStart(c, 0x1_0000)) ==
      Some(LoadStep(c.blockStat[0].numVals as nat, BlockStart(c, 0x1_0000), 1,
                    BlockStart(c, 0x1_0000) + Span(c.typ, c.blockStat[0].numVals as nat)))
    ensures BlockStart(c, 0x1_0000) == c.startOffset as nat + Span(c.typ, SumNumVals(c.blockStat))
    ensures forall nextBlk: u16, off: nat :: LoadStepAsWritten(c, nextBlk, off).Some?
  {
    BlockBounds(file, c, 0xFFFF);
    assert c.blockStat[..0x1_0000] == c.blockStat;
  }

  /** Handing out the value at the read position drops it from what is pending. */
  lemma PendingAdvance(file: seq<u8>, c: DB721Column, s: CursorState)
    requires StateValid(file, c, s) && s.blkOffset < |s.block|
    ensures StateValid(file, c, s.(blkOffset := s.blkOffset + 1))
    ensures StatePending(file, c, s) == [s.block[s.blkOffset]] + StatePending(file, c, s.(blkOffset := s.blkOffset + 1))
  {
    var next := s.(blkOffset := s.blkOffset + 1);
    assert next.block == s.block && next.nextBlk == s.nextBlk;
    var rest := ValuesFrom(file, c, s.nextBlk);
    assert s.block[s.blkOffset..] == [s.block[s.blkOffset]] + s.block[s.blkOffset + 1..];
    assert StatePending(file, c, s) == [s.block[s.blkOffset]] + (s.block[s.blkOffset + 1..] + rest);
  }

  /** A cursor past its last block has nothing pending, with or without its block. */
  lemma PendingExhausted(file: seq<u8>, c: DB721Column, s: CursorState)
    requires StateValid(file, c, s) && s.blkOffset >= |s.block| && s.nextBlk >= |c.blockStat|
    ensures StatePending(file, c, s) == []
    ensures StateValid(file, c, s.(blkOffset := 0, block := []))
    ensures StatePending(file, c, s.(blkOffset := 0, block := [])) == []
  {
  }

  /**
   * Loading block `nextBlk` into a cursor whose block is used up leaves what is
   * pending as it was: the loaded block is the head of the blocks not yet loaded.
   */
  lemma PendingLoad(file: seq<u8>, c: DB721Column, s: CursorState, next: CursorState)
    requires StateValid(file, c, s) && s.blkOffset >= |s.block| && s.nextBlk < |c.blockStat|
    requires next.nextBlk == s.nextBlk + 1 && next.blkOffset == 0
    requires next.block == BlockValues(file, c, s.nextBlk)
    requires next.curOffset as nat == BlockStart(c, s.nextBlk + 1)
    ensures StateValid(file, c, next)
    ensures StatePending(file, c, next) == StatePending(file, c, s)
  {
    assert s.block[s.blkOffset..] == [];
    assert next.block[0..] == next.block;
  }

  /**
   * The slot loop of `ExecStateColumn::Next`: reads `n` slots of type `t` from the
   * stream's position through `buffer` and decodes each; a string is the bytes
   * before the first NUL, the buffer's last byte guaranteeing there is one.
   */
  method ReadRun(ifs: Stream, buffer: array<u8>, t: DB721Type, n: nat) returns (loaded: seq<DB721Data>)
    requires ifs.pos + Span(t, n) <= |ifs.data|
    requires buffer.Length == StrMaxLen + 1 && buffer[StrMaxLen] == 0
    modifies ifs, buffer
    ensures buffer[StrMaxLen] == 0
    ensures ifs.pos == old(ifs.pos) + Span(t, n)
    ensures loaded == DecodeRun(ifs.data, t, old(ifs.pos), n)
  {
    ghost var start := ifs.pos;
    loaded := [];
    var i: nat := 0;
    while i < n
      invariant i <= n
      invariant ifs.pos == start + Span(t, i)
      invariant loaded == DecodeRun(ifs.data, t, start, i)
      invariant buffer[StrMaxLen] == 0
    {
      SpanStep(t, i + 1, n - (i + 1));
      DecodeRunStep(ifs.data, t, start, i);
      var d := ReadSlot(ifs, buffer, t);
      loaded := loaded + [d];
      i := i + 1;
    }
  }

  /** One slot of the loop: `Width(t)` bytes from the stream, decoded as type `t`. */
  method ReadSlot(ifs: Stream, buffer: array<u8>, t: DB721Type) returns (d: DB721Data)
    requires ifs.pos + Width(t) <= |ifs.data|
    requires buffer.Length == StrMaxLen + 1 && buffer[StrMaxLen] == 0
    modifies ifs, buffer
    ensures buffer[StrMaxLen] == 0
    ensures ifs.pos == old(ifs.pos) + Width(t)
    ensures d == DecodeValue(ifs.data[old(ifs.pos) .. old(ifs.pos) + Width(t)], t)
  {
    match t {
      case Float =>
        ifs.ReadInto(buffer, NumericWidth);
        d := FloatVal(LeU32(buffer[..NumericWidth]));
      case Int =>
        ifs.ReadInto(buffer, NumericWidth);
        d := IntVal(LeI32(buffer[..NumericWidth]));
      case String =>
        ifs.ReadInto(buffer, StrMaxLen);
        assert buffer[..] == buffer[..StrMaxLen] + [0];
        CStrAppendNul(buffer[..StrMaxLen]);
        d := StrVal(CStr(buffer[..]));
    }
  }

  class ExecStateColumn {
    /** The column definition the cursor reads. */
    const c: DB721Column
    /** File offset of the next block to load. */
    var curOffset: u32
    /** Index of the next block to load; unbounded (see `LoadStepAsWritten`). */
    var nextBlk: nat
    /** Read position inside the block in memory. */
    var blkOffset: nat
    /** The decoded values of the block in memory. */
    var block: seq<DB721Data>
    /** What the cursor still has to hand out (see `StatePending`). */
    ghost var pending: seq<DB721Data>

    function State(): CursorState
      reads this
    {
      CursorState(curOffset, nextBlk, blkOffset, block)
    }

    ghost predicate Valid(file: seq<u8>)
      reads this
    {
      StateValid(file, c, State()) && pending == StatePending(file, c, State())
    }

    /**
     * The next call does not index an empty block: when it must load a block,
     * that block holds at least one value.
     */
    predicate CanAdvance()
      reads this
    {
      blkOffset >= |block| && nextBlk < |c.blockStat| ==> c.blockStat[nextBlk].numVals > 0
    }

    /** A cursor positioned before block 0, with nothing in memory: the whole column is pending. */
    constructor (col: DB721Column, ghost file: seq<u8>)
      requires ColumnInFile(file, col)
      ensures c == col && State() == Start(col)
      ensures Valid(file) && pending == ValuesFrom(file, col, 0)
    {
      c := col;
      curOffset := col.startOffset;
      nextBlk := 0;
      blkOffset := 0;
      block := [];
      pending := ValuesFrom(file, col, 0);
      new;
      StartPending(file, col);
    }

    /** Drops the block in memory. */
    method ClearBlock()
      modifies this
      ensures block == [] && curOffset == old(curOffset) && nextBlk == old(nextBlk) && blkOffset == old(blkOffset)
      ensures pending == old(pending)
    {
      block := [];
    }

    /**
     * The block-loading part of `Next`, run when the block in memory is used
     * up: drops that block, then reads block `nextBlk` from `ifs` through
     * `buffer`, or reports that there is none left. What is pending does not
     * change.
     */
    method LoadNextBlock(ifs: Stream, buffer: array<u8>) returns (loaded: bool)
      requires Valid(ifs.data) && blkOffset >= |block|
      requires buffer.Length == StrMaxLen + 1 && buffer[StrMaxLen] == 0
      modifies this, ifs, buffer
      ensures Valid(ifs.data) && buffer[StrMaxLen] == 0
      ensures pending == old(pending)
      ensures loaded <==> old(nextBlk) < |c.blockStat|
      ensures !loaded ==> State() == old(State()).(blkOffset := 0, block := []) && ifs.pos == old(ifs.pos)
      ensures loaded ==>
        && nextBlk == old(nextBlk) + 1
        && block == BlockValues(ifs.data, c, old(nextBlk))
        && blkOffset == 0
        && curOffset as nat == BlockStart(c, nextBlk) == ifs.pos
        && curOffset as nat == old(curOffset) as nat + Span(c.typ, c.blockStat[old(nextBlk)].numVals as nat)
    {
      ghost var s := State();
      if |block| > 0 {
        ClearBlock();
        blkOffset := 0;
      }
      if nextBlk >= |c.blockStat| {
        PendingExhausted(ifs.data, c, s);
        return false;
      }
      var numVal := c.blockStat[nextBlk].numVals;
      nextBlk := nextBlk + 1;
      ifs.Seek(curOffset as nat);
      BlockBounds(ifs.data, c, s.nextBlk);
      block := ReadRun(ifs, buffer, c.typ, numVal as nat);
      curOffset := ifs.pos as u32;
      PendingLoad(ifs.data, c, s, State());
      loaded := true;
    }

    /**
     * Hands out the next value of the column, loading the next block from `ifs`
     * through `buffer` when the one in memory is used up; `ok` is false once the
     * column is exhausted.
     */
    method Next(ifs: Stream, buffer: array<u8>) returns (data: DB721Data, ok: bool)
      requires Valid(ifs.data) && CanAdvance()
      requires buffer.Length == StrMaxLen + 1 && buffer[StrMaxLen] == 0
      modifies this, ifs, buffer
      ensures Valid(ifs.data) && buffer[StrMaxLen] == 0
      ensures ok <==> old(pending) != []
      ensures ok ==> data == old(pending)[0] && pending == old(pending)[1..]
      ensures !ok ==> data == FloatVal(0) && pending == [] == old(pending) && CanAdvance()
      ensures old(blkOffset < |block|) ==>
        State() == old(State()).(blkOffset := old(blkOffset) + 1) && ifs.pos == old(ifs.pos)
      ensures old(blkOffset >= |block|) && old(nextBlk) >= |c.blockStat| ==>
        State() == old(State()).(blkOffset := 0, block := []) && ifs.pos == old(ifs.pos)
      ensures old(blkOffset >= |block|) && old(nextBlk) < |c.blockStat| ==>
        && nextBlk == old(nextBlk) + 1
        && block == BlockValues(ifs.data, c, old(nextBlk))
        && blkOffset == 1
        && curOffset as nat == BlockStart(c, nextBlk) == ifs.pos
        && curOffset as nat == old(curOffset) as nat + Span(c.typ, c.blockStat[old(nextBlk)].numVals as nat)
    {
      if blkOffset >= |block| {
        var loaded := LoadNextBlock(ifs, buffer);
        if !loaded {
          return FloatVal(0), false;
        }
      }
      data := Take(ifs.data);
      ok := true;
    }

    /** The in-block part of `Next`: hands out the value at the read position and moves past it. */
    method Take(ghost file: seq<u8>) returns (data: DB721Data)
      requires Valid(file) && blkOffset < |block|
      modifies this
      ensures Valid(file)
      ensures old(pending) != [] && data == old(pending)[0] && pending == old(pending)[1..]
      ensures State() == old(State()).(blkOffset := old(blkOffset) + 1)
    {
      ghost var s := State();
      data := block[blkOffset];
      blkOffset := blkOffset + 1;
      PendingAdvance(file, c, s);
      pending := pending[1..];
      assert State() == s.(blkOffset := s.blkOffset + 1);
    }

    /**
     * What `ReScan` does to one cursor: back to block 0 unless block 0 is the
     * block in memory, in which case only the read position inside it is reset.
     */
    method Rewind(ghost file: seq<u8>)
      requires Valid(file)
      modifies this
      ensures State() == Rescan(c, old(State()))
      ensures Valid(file) && pending == ValuesFrom(file, c, 0)
    {
      RescanRestarts(file, c, State());
      if nextBlk > 1 || block == [] {
        curOffset := c.startOffset;
        nextBlk := 0;
        ClearBlock();
      }
      blkOffset := 0;
      pending := ValuesFrom(file, c, 0);
    }
  }
}
