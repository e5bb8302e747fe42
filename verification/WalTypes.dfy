/** The values of src/wal/types.rs: hints, row events and the named columns of a row. */
module WalTypes {
  import opened Basics
  import opened PgOutput

  // ---------- hints and their keys ----------

  datatype QueryHint = QueryHint(table: Str, column: Str, value: Str)

  const COLON: Byte := ':' as int

  function ToKey(h: QueryHint): Str {
    h.table + ([COLON] + (h.column + ([COLON] + h.value)))
  }

  /** Splits a byte string at its first colon; the second part is empty when there is none. */
  function SplitAtColon(s: Str): (Str, Str) {
    if s == [] then ([], [])
    else if s[0] == COLON then ([], s[1..])
    else
      var (front, back) := SplitAtColon(s[1..]);
      ([s[0]] + front, back)
  }

  /** The inverse of `ToKey`: the parts at the first two colons. */
  function FromKey(key: Str): QueryHint {
    var (table, rest) := SplitAtColon(key);
    var (column, value) := SplitAtColon(rest);
    QueryHint(table, column, value)
  }

  lemma {:induction false} SplitAtFirstColon(front: Str, back: Str)
    requires COLON !in front
    ensures SplitAtColon(front + ([COLON] + back)) == (front, back)
  {
    var s := front + ([COLON] + back);
    if front == [] {
      assert s[1..] == back;
    } else {
      assert s[1..] == front[1..] + ([COLON] + back);
      SplitAtFirstColon(front[1..], back);
      assert [front[0]] + front[1..] == front;
    }
  }

  /** A key is table, column and value, in this order, with a colon between them. */
  lemma KeyIsSpelled(h: QueryHint)
    ensures ToKey(h) == h.table + [':' as int] + h.column + [':' as int] + h.value
  {
    assert h.table + ([':' as int] + (h.column + ([':' as int] + h.value)))
        == h.table + [':' as int] + h.column + [':' as int] + h.value;
  }

  lemma {:induction false} FrontHasNoColon(s: Str)
    ensures COLON !in SplitAtColon(s).0
  {
    if s != [] && s[0] != COLON {
      FrontHasNoColon(s[1..]);
    }
  }

  /** Splitting a key gives its hint back exactly when table and column have no colon; the value may have any. */
  lemma KeyInvertible(h: QueryHint)
    ensures FromKey(ToKey(h)) == h <==> COLON !in h.table && COLON !in h.column
  {
    FrontHasNoColon(ToKey(h));
    FrontHasNoColon(SplitAtColon(ToKey(h)).1);
    if COLON !in h.table && COLON !in h.column {
      SplitAtFirstColon(h.table, h.column + ([COLON] + h.value));
      SplitAtFirstColon(h.column, h.value);
    }
  }

  /** Colons in table or column do make keys collide: `a:b` `:` `c` against `a` `:` `b:c`. */
  lemma KeysCollideOverColons()
    ensures exists g, h :: g != h && ToKey(g) == ToKey(h)
  {
    var a: Byte, b: Byte := 'a' as int, 'b' as int;
    var g, h := QueryHint([a, COLON, b], [], []), QueryHint([a], [b], [COLON]);
    assert ToKey(g) == ToKey(h) == [a, COLON, b, COLON, COLON];
  }

  // ---------- rows ----------

  datatype TupleData = TupleData(columns: map<Str, Value>)

  datatype WalEvent =
    | InsertEvent(relationId: U32, relationName: Str, newTuple: TupleData)
    | UpdateEvent(relationId: U32, relationName: Str, oldTuple: Option<TupleData>, newTuple: TupleData)
    | DeleteEvent(relationId: U32, relationName: Str, deletedTuple: TupleData)

  /** The value at a position, and SQL null past the end. */
  function ValueAt(values: seq<Value>, i: nat): Value {
    if i < |values| then values[i] else Null
  }

  /** Names zipped with values, from the left, so that a later column of the same name wins. */
  function FromValues(names: seq<Str>, values: seq<Value>): TupleData {
    if names == [] then TupleData(map[]) else
      var k := |names| - 1;
      TupleData(FromValues(names[..k], values).columns[names[k] := ValueAt(values, k)])
  }

  method BuildTuple(names: seq<Str>, values: seq<Value>) returns (t: TupleData)
    ensures t == FromValues(names, values)
  {
    var columns: map<Str, Value> := map[];
    for i := 0 to |names|
      invariant TupleData(columns) == FromValues(names[..i], values)
    {
      assert names[..i + 1][..i] == names[..i];
      columns := columns[names[i] := ValueAt(values, i)];
    }
    assert names[..|names|] == names;
    return TupleData(columns);
  }

  /** The last position of a column among the names. */
  ghost predicate LastAt(names: seq<Str>, column: Str, i: nat) {
    i < |names| && names[i] == column && forall j :: i < j < |names| ==> names[j] != column
  }

  lemma {:induction false} LastPosition(names: seq<Str>, column: Str) returns (i: nat)
    requires column in names
    ensures LastAt(names, column, i)
  {
    var k := |names| - 1;
    if names[k] == column {
      i := k;
    } else {
      assert names == names[..k] + [names[k]];
      i := LastPosition(names[..k], column);
    }
  }

  /** The row has exactly the relation's columns, and each holds the value at its last position. */
  lemma {:induction false} RowHoldsLastValues(names: seq<Str>, values: seq<Value>)
    ensures var columns := FromValues(names, values).columns;
            && (forall c :: c in columns <==> c in names)
            && forall c, i: nat :: LastAt(names, c, i) ==> columns[c] == if i < |values| then values[i] else Null
  {
    if names != [] {
      var k := |names| - 1;
      var front := names[..k];
      RowHoldsLastValues(front, values);
      assert names == front + [names[k]];
      assert forall c :: c in FromValues(names, values).columns <==> c in names;
      forall c, i: nat | LastAt(names, c, i)
        ensures FromValues(names, values).columns[c] == if i < |values| then values[i] else Null
      {
        if i < k {
          assert LastAt(front, c, i);
        }
      }
    }
  }
}
