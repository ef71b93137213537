/**
 * The scan state of one foreign scan (`DB721ExecState`): one cursor per
 * attribute the query uses, an attribute-to-cursor map, and a shared read
 * buffer whose last byte stays NUL.
 */
module ExecState {
  import opened Bytes
  import opened Db721Types
  import opened FileStream
  import opened Table
  import opened Cursor
  import opened Lowercase

  /** PostgreSQL's `FirstLowInvalidHeapAttributeNumber` (the system attributes occupy -1 .. -6). */
  const FirstLowInvalidHeapAttributeNumber: int := -7

  /** The member of the used-attributes set that stands for attribute index `i`. */
  function AttNum(i: nat): (r: int)
    ensures r > 0 && r + FirstLowInvalidHeapAttributeNumber == i + 1
  {
    i + 1 - FirstLowInvalidHeapAttributeNumber
  }

  predicate IsUsed(attrsUsed: set<int>, i: nat) {
    AttNum(i) in attrsUsed
  }

  /** How many of the attributes before index `i` the query uses. */
  function UsedBefore(attrsUsed: set<int>, i: nat): nat {
    if i == 0 then 0 else UsedBefore(attrsUsed, i - 1) + (if IsUsed(attrsUsed, i - 1) then 1 else 0)
  }

  /** The map entry of attribute `i`: -1 when it is unused, its cursor otherwise. */
  function MapEntry(attrsUsed: set<int>, i: nat): int {
    if IsUsed(attrsUsed, i) then UsedBefore(attrsUsed, i) else -1
  }

  /** The attribute-to-cursor map the constructor builds for the first `natts` attributes. */
  function AttrMap(natts: nat, attrsUsed: set<int>): (m: seq<int>)
    ensures |m| == natts
  {
    if natts == 0 then [] else AttrMap(natts - 1, attrsUsed) + [MapEntry(attrsUsed, natts - 1)]
  }

  /** Entry `i` of the map is the one `MapEntry` gives, whatever the map's length. */
  lemma {:induction false} AttrMapEntry(natts: nat, attrsUsed: set<int>, i: nat)
    requires i < natts
    ensures AttrMap(natts, attrsUsed)[i] == MapEntry(attrsUsed, i)
  {
    if i < natts - 1 {
      AttrMapEntry(natts - 1, attrsUsed, i);
    }
  }

  lemma {:induction false} UsedBeforeMono(attrsUsed: set<int>, i: nat, j: nat)
    requires i <= j
    ensures UsedBefore(attrsUsed, i) <= UsedBefore(attrsUsed, j)
    decreases j
  {
    if i < j {
      UsedBeforeMono(attrsUsed, i, j - 1);
    }
  }

  /**
   * The map sends every unused attribute to -1 and the used ones, in order, to
   * cursors 0, 1, ...: distinct, increasing, and covering every cursor.
   */
  lemma AttrMapShape(natts: nat, attrsUsed: set<int>)
    ensures var m := AttrMap(natts, attrsUsed);
      && (forall i :: 0 <= i < natts ==> (m[i] < 0 <==> !IsUsed(attrsUsed, i)))
      && (forall i :: 0 <= i < natts ==> -1 <= m[i] < UsedBefore(attrsUsed, natts))
      && (forall i, j :: 0 <= i < j < natts && m[i] >= 0 && m[j] >= 0 ==> m[i] < m[j])
      && (forall k :: 0 <= k < UsedBefore(attrsUsed, natts) ==>
            CursorAttr(attrsUsed, natts, k) < natts && m[CursorAttr(attrsUsed, natts, k)] == k)
  {
    var m := AttrMap(natts, attrsUsed);
    forall i | 0 <= i < natts
      ensures m[i] == MapEntry(attrsUsed, i) && -1 <= m[i] < UsedBefore(attrsUsed, natts)
    {
      AttrMapEntry(natts, attrsUsed, i);
      UsedBeforeMono(attrsUsed, i + 1, natts);
    }
    forall i, j | 0 <= i < j < natts && m[i] >= 0 && m[j] >= 0
      ensures m[i] < m[j]
    {
      UsedBeforeMono(attrsUsed, i + 1, j);
    }
  }

  /** Entry `i` of the map, and how the count of used attributes grows past `i`. */
  lemma AttrMapStep(natts: nat, attrsUsed: set<int>, i: nat)
    requires i < natts
    ensures AttrMap(natts, attrsUsed)[i] == if IsUsed(attrsUsed, i) then UsedBefore(attrsUsed, i) else -1
    ensures UsedBefore(attrsUsed, i + 1) == UsedBefore(attrsUsed, i) + if IsUsed(attrsUsed, i) then 1 else 0
    ensures UsedBefore(attrsUsed, i + 1) <= UsedBefore(attrsUsed, natts)
  {
    AttrMapEntry(natts, attrsUsed, i);
    UsedBeforeMono(attrsUsed, i + 1, natts);
  }

  /** Distinct used attributes get distinct cursors. */
  lemma {:induction false} UsedBeforeInjective(attrsUsed: set<int>, a: nat, b: nat)
    requires IsUsed(attrsUsed, a) && IsUsed(attrsUsed, b) && UsedBefore(attrsUsed, a) == UsedBefore(attrsUsed, b)
    ensures a == b
  {
    if a < b {
      UsedBeforeMono(attrsUsed, a + 1, b);
    } else if b < a {
      UsedBeforeMono(attrsUsed, b + 1, a);
    }
  }

  /** The used attribute that gets cursor `k`, among the first `n`. */
  function CursorAttr(attrsUsed: set<int>, n: nat, k: nat): (i: nat)
    requires k < UsedBefore(attrsUsed, n)
    ensures i < n && IsUsed(attrsUsed, i) && UsedBefore(attrsUsed, i) == k
  {
    if k < UsedBefore(attrsUsed, n - 1) then CursorAttr(attrsUsed, n - 1, k) else n - 1
  }

  /** The name an attribute is matched by: its bytes before the NUL, folded to lower case. */
  function FieldKey(attName: seq<u8>): seq<u8> {
    Lower(CStr(attName))
  }

  /** The name a table column is matched by. */
  function ColumnKey(c: DB721Column): seq<u8> {
    Lower(CStr(c.name))
  }

  /** The first column at or after `j` whose key is `key`; `|cols|` when there is none. */
  function FirstMatch(key: seq<u8>, cols: seq<DB721Column>, j: nat): (r: nat)
    requires j <= |cols|
    ensures j <= r <= |cols|
    ensures r < |cols| ==> ColumnKey(cols[r]) == key
    decreases |cols| - j
  {
    if j == |cols| then j
    else if ColumnKey(cols[j]) == key then j
    else FirstMatch(key, cols, j + 1)
  }

  /** No column between `j` and the match has the key: the match is the first one. */
  lemma {:induction false} FirstMatchIsFirst(key: seq<u8>, cols: seq<DB721Column>, j: nat)
    requires j <= |cols|
    ensures forall k :: j <= k < FirstMatch(key, cols, j) ==> ColumnKey(cols[k]) != key
    decreases |cols| - j
  {
    if j < |cols| && ColumnKey(cols[j]) != key {
      FirstMatchIsFirst(key, cols, j + 1);
    }
  }

  /**
   * What the constructor demands of an attribute it uses: a NUL-terminated name
   * short enough for `tolowercase`, a table column that matches it, and short
   * names on every column compared before the match.
   */
  predicate Resolvable(attName: seq<u8>, cols: seq<DB721Column>) {
    && |CStr(attName)| < |attName|
    && |CStr(attName)| < NameDataLen - 1
    && FirstMatch(FieldKey(attName), cols, 0) < |cols|
    && forall k :: 0 <= k <= FirstMatch(FieldKey(attName), cols, 0) ==> |CStr(cols[k].name)| < NameDataLen - 1
  }

  /** One attribute of a produced row. */
  datatype Cell = Null | Value(d: DB721Data)

  /** The next value of a cursor that still has `pending` to hand out. */
  function Head(pending: seq<DB721Data>): Cell {
    if pending == [] then Null else Value(pending[0])
  }

  /**
   * The first `n` attributes of a row, given what each cursor hands out next:
   * a null for an unused attribute, the head of its cursor for a used one.
   */
  function RowOf(attrsUsed: set<int>, heads: seq<Cell>, n: nat): (row: seq<Cell>)
    requires UsedBefore(attrsUsed, n) <= |heads|
    ensures |row| == n
  {
    if n == 0 then []
    else RowOf(attrsUsed, heads, n - 1) + [if IsUsed(attrsUsed, n - 1) then heads[UsedBefore(attrsUsed, n - 1)] else Null]
  }

  /**
   * Attribute `i` of a row is null exactly when the map sends it to -1, and
   * otherwise what the cursor the map names hands out next.
   */
  lemma {:induction false} RowOfShape(attrsUsed: set<int>, heads: seq<Cell>, natts: nat, n: nat, i: nat)
    requires n <= natts && UsedBefore(attrsUsed, natts) <= |heads| && i < n
    ensures UsedBefore(attrsUsed, n) <= |heads|
    ensures 0 <= AttrMap(natts, attrsUsed)[i] < |heads| || AttrMap(natts, attrsUsed)[i] == -1
    ensures RowOf(attrsUsed, heads, n)[i] ==
      if AttrMap(natts, attrsUsed)[i] < 0 then Null else heads[AttrMap(natts, attrsUsed)[i]]
    decreases n
  {
    UsedBeforeMono(attrsUsed, n, natts);
    AttrMapEntry(natts, attrsUsed, i);
    UsedBeforeMono(attrsUsed, i + 1, natts);
    if i < n - 1 {
      RowOfShape(attrsUsed, heads, natts, n - 1, i);
    }
  }

  class DB721ExecState {
    /** The table being scanned. */
    const t: DB721Table
    /** The read buffer shared by every cursor: `str_max_len + 1` bytes, the last one NUL. */
    const buffer: array<u8>
    /** Number of attributes of the scanned relation. */
    const natts: nat
    /** The set of used attributes the constructor was given. */
    ghost const attrsUsed: set<int>
    /** One cursor per used attribute, in attribute order. */
    const columns: seq<ExecStateColumn>
    /** Attribute index to cursor index, -1 for an attribute the query does not use. */
    const attrMap: seq<int>

    /** What the constructor fixes: the attribute map and one distinct cursor per used attribute. */
    ghost predicate Shape() {
      && attrMap == AttrMap(natts, attrsUsed)
      && |columns| == UsedBefore(attrsUsed, natts)
      && (forall i :: 0 <= i < natts ==> -1 <= attrMap[i] < |columns|)
      && (forall j, k :: 0 <= j < k < |columns| ==> columns[j] != columns[k])
    }

    ghost predicate Valid()
      reads buffer, columns
    {
      && Shape()
      && buffer.Length == StrMaxLen + 1 && buffer[StrMaxLen] == 0
      && (forall k {:trigger columns[k].Valid(t.ifs.data)} :: 0 <= k < |columns| ==> columns[k].Valid(t.ifs.data))
    }

    /**
     * Sets up one cursor per used attribute, each on the first table column
     * whose name matches the attribute's name case-insensitively.
     */
    constructor (table: DB721Table, attNames: seq<seq<u8>>, used: set<int>)
      requires forall i :: 0 <= i < |attNames| && IsUsed(used, i) ==> Resolvable(attNames[i], table.columns)
      requires forall c :: c in table.columns ==> ColumnInFile(table.ifs.data, c)
      ensures t == table && natts == |attNames| && attrsUsed == used
      ensures Valid() && fresh(buffer)
      ensures fresh(columns)
      ensures forall k :: 0 <= k < |columns| ==>
        && FirstMatch(FieldKey(attNames[CursorAttr(used, natts, k)]), table.columns, 0) < |table.columns|
        && Opened(columns[k], table.ifs.data, table.columns, FirstMatch(FieldKey(attNames[CursorAttr(used, natts, k)]), table.columns, 0))
    {
      var buf := new u8[StrMaxLen + 1];
      buf[StrMaxLen] := 0;
      var cursors, attrOf, m := OpenCursors(table.ifs.data, table.columns, attNames, used);
      OpenedAllAttrs(table.ifs.data, table.columns, attNames, used, cursors, attrOf, m);
      AttrMapShape(|attNames|, used);
      t := table;
      natts := |attNames|;
      attrsUsed := used;
      buffer := buf;
      columns := cursors;
      attrMap := m;
    }

    /** The value each cursor would hand out next, `Null` for one that is exhausted. */
    ghost function Heads(): (r: seq<Cell>)
      reads columns
      ensures |r| == |columns|
      ensures forall k :: 0 <= k < |columns| ==> r[k] == Head(columns[k].pending)
    {
      seq(|columns|, k requires 0 <= k < |columns| reads columns => Head(columns[k].pending))
    }

    /** What each cursor has still to hand out. */
    ghost function Pendings(): (r: seq<seq<DB721Data>>)
      reads columns
      ensures |r| == |columns|
      ensures forall k :: 0 <= k < |columns| ==> r[k] == columns[k].pending
    {
      seq(|columns|, k requires 0 <= k < |columns| reads columns => columns[k].pending)
    }

    /**
     * Produces the next row: a null for every attribute the query does not use
     * and the next value of its cursor for every one it does. The result is
     * false as soon as a cursor is exhausted; the cursors before it have then
     * advanced, the ones after it are untouched, and the row is incomplete.
     */
    method Next() returns (ok: bool, row: seq<Cell>, ghost stop: nat)
      requires Valid()
      requires forall k :: 0 <= k < |columns| ==> columns[k].CanAdvance()
      modifies t.ifs, buffer, columns
      ensures Valid()
      ensures stop <= |columns| && (ok <==> stop == |columns|)
      ensures ok <==> forall k :: 0 <= k < |columns| ==> old(columns[k].pending) != []
      ensures forall k :: 0 <= k < stop ==> old(columns[k].pending) != [] && columns[k].pending == old(columns[k].pending)[1..]
      ensures !ok ==> old(columns[stop].pending) == [] && columns[stop].pending == []
      ensures forall k :: stop < k < |columns| ==> unchanged(columns[k])
      ensures ok ==> row == RowOf(attrsUsed, old(Heads()), natts)
    {
      ghost var heads := Heads();
      ghost var before := Pendings();
      ok := true;
      row := [];
      stop := 0;
      for attr := 0 to natts
        invariant ok && Valid()
        invariant stop == UsedBefore(attrsUsed, attr) <= |columns|
        invariant row == RowOf(attrsUsed, heads, attr)
        invariant forall k :: 0 <= k < stop ==> before[k] != [] && columns[k].pending == before[k][1..]
        invariant forall k :: stop <= k < |columns| ==> unchanged(columns[k])
      {
        AttrMapStep(natts, attrsUsed, attr);
        var k := attrMap[attr];
        if k < 0 {
          row := row + [Null];
          continue;
        }
        var data, more := Advance(k);
        if !more {
          ok := false;
          break;
        }
        row := row + [Value(data)];
        stop := stop + 1;
      }
    }

    /** One cursor's step of `Next`: the other cursors, and this object's validity, are unaffected. */
    method Advance(k: nat) returns (data: DB721Data, more: bool)
      requires Valid() && k < |columns| && columns[k].CanAdvance()
      modifies t.ifs, buffer, columns[k]
      ensures Valid()
      ensures more <==> old(columns[k].pending) != []
      ensures more ==> data == old(columns[k].pending)[0] && columns[k].pending == old(columns[k].pending)[1..]
      ensures !more ==> columns[k].pending == []
      ensures forall j :: 0 <= j < |columns| && j != k ==> unchanged(columns[j])
    {
      data, more := columns[k].Next(t.ifs, buffer);
    }

    /**
     * Rewinds every cursor to the start of its column; a cursor still holding
     * its first block keeps it and only rewinds inside it.
     */
    method ReScan()
      requires Valid()
      modifies columns
      ensures Valid()
      ensures forall k :: 0 <= k < |columns| ==> columns[k].State() == Rescan(columns[k].c, old(columns[k].State()))
      ensures forall k :: 0 <= k < |columns| ==>
        columns[k].Valid(t.ifs.data) && columns[k].pending == ValuesFrom(t.ifs.data, columns[k].c, 0)
    {
      for k := 0 to |columns|
        invariant Valid()
        invariant forall j :: 0 <= j < k ==>
          && columns[j].State() == Rescan(columns[j].c, old(columns[j].State()))
          && columns[j].Valid(t.ifs.data) && columns[j].pending == ValuesFrom(t.ifs.data, columns[j].c, 0)
        invariant forall j :: k <= j < |columns| ==> unchanged(columns[j])
      {
        RewindAt(k);
      }
    }

    /** One cursor's step of `ReScan`: the other cursors, and this object's validity, are unaffected. */
    method RewindAt(k: nat)
      requires Valid() && k < |columns|
      modifies columns[k]
      ensures Valid()
      ensures columns[k].State() == Rescan(columns[k].c, old(columns[k].State()))
      ensures columns[k].Valid(t.ifs.data) && columns[k].pending == ValuesFrom(t.ifs.data, columns[k].c, 0)
      ensures forall j :: 0 <= j < |columns| && j != k ==> unchanged(columns[j])
    {
      columns[k].Rewind(t.ifs.data);
    }

    /**
     * The constructor's loop over the relation's attributes: a cursor for each
     * used attribute, on the first matching table column, and the map entry
     * pointing at it.
     */
    static method OpenCursors(file: seq<u8>, cols: seq<DB721Column>, attNames: seq<seq<u8>>, used: set<int>)
      returns (cursors: seq<ExecStateColumn>, ghost attrOf: seq<nat>, m: seq<int>)
      requires forall i :: 0 <= i < |attNames| && IsUsed(used, i) ==> Resolvable(attNames[i], cols)
      requires forall c :: c in cols ==> ColumnInFile(file, c)
      ensures OpenedUpTo(file, cols, attNames, used, |attNames|, cursors, attrOf, m)
      ensures fresh(cursors)
    {
      var natts := |attNames|;
      cursors := [];
      attrOf := [];
      m := seq(natts, _ => 0);
      for i := 0 to natts
        invariant OpenedUpTo(file, cols, attNames, used, i, cursors, attrOf, m)
        invariant fresh(cursors)
      {
        ghost var prev := cursors;
        cursors, attrOf, m := OpenAttr(file, cols, attNames, used, i, cursors, attrOf, m);
        FreshGrow(prev, cursors);
      }
    }

    /** Appending a cursor allocated since the method began keeps the sequence fresh. */
    static twostate lemma FreshGrow(new prev: seq<ExecStateColumn>, new next: seq<ExecStateColumn>)
      requires fresh(prev)
      requires next == prev || (|next| == |prev| + 1 && next == prev + [next[|prev|]] && fresh(next[|prev|]))
      ensures fresh(next)
    {
    }

    /** After the last attribute, the loop's invariant is the constructor's promise. */
    static lemma OpenedAllAttrs(file: seq<u8>, cols: seq<DB721Column>, attNames: seq<seq<u8>>, used: set<int>,
                                cursors: seq<ExecStateColumn>, attrOf: seq<nat>, m: seq<int>)
      requires OpenedUpTo(file, cols, attNames, used, |attNames|, cursors, attrOf, m)
      ensures m == AttrMap(|attNames|, used) && |cursors| == UsedBefore(used, |attNames|)
      ensures forall j, k :: 0 <= j < k < |cursors| ==> cursors[j] != cursors[k]
      ensures forall k :: 0 <= k < |cursors| ==>
        && FirstMatch(FieldKey(attNames[CursorAttr(used, |attNames|, k)]), cols, 0) < |cols|
        && Opened(cursors[k], file, cols, FirstMatch(FieldKey(attNames[CursorAttr(used, |attNames|, k)]), cols, 0))
    {
      var natts := |attNames|;
      forall j | 0 <= j < natts
        ensures m[j] == AttrMap(natts, used)[j]
      {
        AttrMapEntry(natts, used, j);
      }
      forall k | 0 <= k < |attrOf|
        ensures attrOf[k] == CursorAttr(used, natts, k)
      {
        UsedBeforeInjective(used, attrOf[k], CursorAttr(used, natts, k));
      }
    }

    /**
     * The cursors opened so far are distinct and each was opened on the first
     * column whose name matches the attribute it serves (`attrOf`).
     */
    static ghost predicate OpenedAll(file: seq<u8>, cols: seq<DB721Column>, attNames: seq<seq<u8>>, cursors: seq<ExecStateColumn>, attrOf: seq<nat>)
      reads cursors
    {
      && |cursors| == |attrOf|
      && (forall j, k :: 0 <= j < k < |cursors| ==> cursors[j] != cursors[k])
      && forall k :: 0 <= k < |cursors| ==>
        && attrOf[k] < |attNames|
        && FirstMatch(FieldKey(attNames[attrOf[k]]), cols, 0) < |cols|
        && Opened(cursors[k], file, cols, FirstMatch(FieldKey(attNames[attrOf[k]]), cols, 0))
    }

    /**
     * The constructor's loop after its first `i` attributes: the map is built
     * for them, and the cursors are one per used attribute among them, in order.
     */
    static ghost predicate OpenedUpTo(file: seq<u8>, cols: seq<DB721Column>, attNames: seq<seq<u8>>, used: set<int>, i: nat,
                                      cursors: seq<ExecStateColumn>, attrOf: seq<nat>, m: seq<int>)
      reads cursors
    {
      && i <= |attNames| == |m|
      && (forall j :: 0 <= j < i ==> m[j] == MapEntry(used, j))
      && |cursors| == |attrOf| == UsedBefore(used, i)
      && (forall k :: 0 <= k < |attrOf| ==> attrOf[k] < i && IsUsed(used, attrOf[k]) && UsedBefore(used, attrOf[k]) == k)
      && OpenedAll(file, cols, attNames, cursors, attrOf)
    }

    /**
     * Attribute `i` of the constructor's loop: its map entry is -1 unless the
     * query uses it, in which case a cursor on its column is opened and the
     * entry points at it.
     */
    static method OpenAttr(file: seq<u8>, cols: seq<DB721Column>, attNames: seq<seq<u8>>, used: set<int>, i: nat,
                           cursors: seq<ExecStateColumn>, ghost attrOf: seq<nat>, m: seq<int>)
      returns (cursors': seq<ExecStateColumn>, ghost attrOf': seq<nat>, m': seq<int>)
      requires i < |attNames| && (IsUsed(used, i) ==> Resolvable(attNames[i], cols))
      requires forall c :: c in cols ==> ColumnInFile(file, c)
      requires OpenedUpTo(file, cols, attNames, used, i, cursors, attrOf, m)
      ensures OpenedUpTo(file, cols, attNames, used, i + 1, cursors', attrOf', m')
      ensures |cursors| <= |cursors'| && cursors'[..|cursors|] == cursors
      ensures cursors' == cursors || (cursors' == cursors + [cursors'[|cursors|]] && fresh(cursors'[|cursors|]))
    {
      m' := m[i := -1];
      cursors', attrOf' := cursors, attrOf;
      if AttNum(i) in used {
        cursors', attrOf' := OpenStep(file, cols, attNames, i, cursors, attrOf);
        m' := m'[i := |cursors'| - 1];
      }
    }

    /** One used attribute `i` of the constructor's loop: a fresh cursor on its column joins the others. */
    static method OpenStep(file: seq<u8>, cols: seq<DB721Column>, attNames: seq<seq<u8>>, i: nat, cursors: seq<ExecStateColumn>, ghost attrOf: seq<nat>)
      returns (cursors': seq<ExecStateColumn>, ghost attrOf': seq<nat>)
      requires i < |attNames| && Resolvable(attNames[i], cols)
      requires forall c :: c in cols ==> ColumnInFile(file, c)
      requires OpenedAll(file, cols, attNames, cursors, attrOf)
      ensures |cursors'| == |cursors| + 1 && cursors'[..|cursors|] == cursors && fresh(cursors'[|cursors|])
      ensures attrOf' == attrOf + [i]
      ensures OpenedAll(file, cols, attNames, cursors', attrOf')
    {
      var cursor := OpenCursor(file, cols, attNames[i]);
      assert cursor !in cursors;
      cursors' := cursors + [cursor];
      attrOf' := attrOf + [i];
    }

    /** A cursor just opened on column `j` of `table`: before its first block, with the whole column pending. */
    static ghost predicate Opened(cursor: ExecStateColumn, file: seq<u8>, cols: seq<DB721Column>, j: nat)
      reads cursor
    {
      && j < |cols| && cursor.c == cols[j]
      && cursor.State() == Start(cursor.c)
      && cursor.Valid(file) && cursor.pending == ValuesFrom(file, cursor.c, 0)
    }

    /** One used attribute of the constructor's loop: find its column and open a cursor on it. */
    static method OpenCursor(file: seq<u8>, cols: seq<DB721Column>, attName: seq<u8>)
      returns (cursor: ExecStateColumn)
      requires Resolvable(attName, cols)
      requires forall c :: c in cols ==> ColumnInFile(file, c)
      ensures fresh(cursor) && Opened(cursor, file, cols, FirstMatch(FieldKey(attName), cols, 0))
    {
      var j := FindColumn(attName, cols);
      cursor := new ExecStateColumn(cols[j], file);
    }

    /**
     * The lookup the constructor does for one attribute: folds the attribute's
     * name into the scratch buffer `fieldName`, then folds each column name in
     * turn into `colName` and compares, stopping at the first match (which the
     * caller guarantees).
     */
    static method FindColumn(attName: seq<u8>, cols: seq<DB721Column>)
      returns (j: nat)
      requires Resolvable(attName, cols)
      ensures j == FirstMatch(FieldKey(attName), cols, 0) && j < |cols|
    {
      var fieldName := new u8[255];
      var colName := new u8[255];
      var key := FieldKey(attName);
      var _ := ToLowerCase(attName, fieldName);
      j := 0;
      while true
        invariant j <= FirstMatch(key, cols, 0) < |cols|
        invariant FirstMatch(key, cols, j) == FirstMatch(key, cols, 0)
        invariant CStr(fieldName[..]) == key
        decreases |cols| - j
      {
        CStrAppendNul(cols[j].name);
        var _ := ToLowerCase(cols[j].name + [0], colName);
        if CStr(fieldName[..]) == CStr(colName[..]) {
          break;
        }
        j := j + 1;
      }
    }
  }
}
