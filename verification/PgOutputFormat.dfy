/**
 The message formats of section 55.9 of the PostgreSQL 16 documentation, field by field and with their letters
 written out: what `PgOutputWire.Print` prints, and what becomes of bytes that are not in this format.
 */
module PgOutputFormat {
  import opened Basics
  import opened Utf8
  import opened ByteReading
  import opened PgOutputWire

  // ---------- fields ----------

  function Int16(n: U16): seq<Byte> {
    [n / 0x100, n % 0x100]
  }

  function Int32(n: U32): seq<Byte> {
    [n / 0x100_0000, n / 0x1_0000 % 0x100, n / 0x100 % 0x100, n % 0x100]
  }

  function TerminatedString(s: Str): seq<Byte> {
    s + [0]
  }

  lemma Int16Prints(n: U16, tail: seq<Byte>)
    ensures PutU16(n, tail) == Int16(n) + tail
  {
  }

  lemma Int32Prints(n: U32, tail: seq<Byte>)
    ensures PutU32(n, tail) == Int32(n) + tail
  {
    Halves(n);
  }

  /** The bytes of a number are the bytes of its two halves. */
  lemma Halves(n: int)
    requires 0 <= n < TWO_TO_32
    ensures var high, low := n / 0x1_0000, n % 0x1_0000;
            && high / 0x100 == n / 0x100_0000 && high % 0x100 == n / 0x1_0000 % 0x100
            && low / 0x100 == n / 0x100 % 0x100 && low % 0x100 == n % 0x100
  {
    var high, low := n / 0x1_0000, n % 0x1_0000;
    var a, b, c, d := high / 0x100, high % 0x100, low / 0x100, low % 0x100;
    assert n == 0x100_0000 * a + 0x1_0000 * b + 0x100 * c + d;
    assert n / 0x100_0000 == a && n / 0x100 == 0x1_0000 * a + 0x100 * b + c;
  }

  lemma StringPrints(s: Str, tail: seq<Byte>)
    ensures PutCString(s, tail) == TerminatedString(s) + tail
  {
  }

  /** A negative number stands as its complement to 2^32. */
  function Complement(n: I32): U32 {
    if n < 0 then n + 0x1_0000_0000 else n
  }

  // ---------- messages ----------

  function ColumnFormat(c: WireColumn): seq<Byte> {
    [c.flags] + TerminatedString(c.name) + Int32(c.typeOid) + Int32(Complement(c.typeModifier))
  }

  function ColumnsFormat(cs: seq<WireColumn>): seq<Byte> {
    if cs == [] then [] else ColumnFormat(cs[0]) + ColumnsFormat(cs[1..])
  }

  function ValueFormat(v: WireValue): seq<Byte>
    requires WellFormedValue(v)
  {
    match v
    case Null => ['n' as int]
    case Unchanged => ['u' as int]
    case Data(binary, bytes) => [if binary then 'b' as int else 't' as int] + Int32(|bytes|) + bytes
  }

  function ValuesFormat(t: seq<WireValue>): seq<Byte>
    requires forall v :: v in t ==> WellFormedValue(v)
  {
    if t == [] then [] else ValueFormat(t[0]) + ValuesFormat(t[1..])
  }

  function TupleFormat(t: WireTuple): seq<Byte>
    requires WellFormedTuple(t)
  {
    Int16(|t|) + ValuesFormat(t)
  }

  function OldFormat(o: OldTuple): seq<Byte>
    requires WellFormedTuple(o.tuple)
  {
    [if o.keyOnly then 'K' as int else 'O' as int] + TupleFormat(o.tuple)
  }

  function OldsFormat(os: seq<OldTuple>): seq<Byte>
    requires forall o :: o in os ==> WellFormedTuple(o.tuple)
  {
    if os == [] then [] else OldFormat(os[0]) + OldsFormat(os[1..])
  }

  function MessageFormat(m: WireMessage): seq<Byte>
    requires WellFormedMessage(m)
  {
    match m
    case Relation(id, namespace, name, replicaIdentity, columns) =>
      ['R' as int] + Int32(id) + TerminatedString(namespace) + TerminatedString(name) + [replicaIdentity]
      + Int16(|columns|) + ColumnsFormat(columns)
    case Insert(id, newTuple) => ['I' as int] + Int32(id) + ['N' as int] + TupleFormat(newTuple)
    case Update(id, olds, newTuple) => ['U' as int] + Int32(id) + OldsFormat(olds) + ['N' as int] + TupleFormat(newTuple)
    case Delete(id, oldTuple) => ['D' as int] + Int32(id) + OldFormat(oldTuple)
  }

  function Format(ms: seq<WireMessage>): seq<Byte>
    requires WellFormed(ms)
  {
    if ms == [] then [] else MessageFormat(ms[0]) + Format(ms[1..])
  }

  // ---------- the printer prints the format ----------

  lemma ColumnPrints(c: WireColumn, tail: seq<Byte>)
    ensures PutColumn(c, tail) == ColumnFormat(c) + tail
  {
    hide Int32, PutU32, PutCString, TerminatedString;
    var modifier := Int32(Complement(c.typeModifier));
    Int32Prints(Complement(c.typeModifier), tail);
    Int32Prints(c.typeOid, modifier + tail);
    StringPrints(c.name, Int32(c.typeOid) + (modifier + tail));
  }

  lemma {:induction false} ColumnsPrint(cs: seq<WireColumn>, tail: seq<Byte>)
    ensures PutColumns(cs, tail) == ColumnsFormat(cs) + tail
  {
    hide PutColumn, ColumnFormat;
    if cs != [] {
      ColumnsPrint(cs[1..], tail);
      ColumnPrints(cs[0], PutColumns(cs[1..], tail));
      assert ColumnFormat(cs[0]) + (ColumnsFormat(cs[1..]) + tail) == ColumnFormat(cs[0]) + ColumnsFormat(cs[1..]) + tail;
    } else {
      assert [] + tail == tail;
    }
  }

  lemma ValuePrints(v: WireValue, tail: seq<Byte>)
    requires WellFormedValue(v)
    ensures PutValue(v, tail) == ValueFormat(v) + tail
  {
    hide Int32, PutU32, ValidUtf8;
    if v.Data? {
      Int32Prints(|v.bytes|, v.bytes + tail);
      Regroup([if v.binary then 'b' as int else 't' as int], Int32(|v.bytes|), v.bytes, tail);
    }
  }

  lemma Regroup<T>(a: seq<T>, b: seq<T>, c: seq<T>, d: seq<T>)
    ensures a + (b + (c + d)) == a + b + c + d
  {
  }

  lemma {:induction false} ValuesPrint(t: seq<WireValue>, tail: seq<Byte>)
    requires forall v :: v in t ==> WellFormedValue(v)
    ensures PutValues(t, tail) == ValuesFormat(t) + tail
  {
    hide PutValue, ValueFormat, WellFormedValue;
    if t != [] {
      ValuesPrint(t[1..], tail);
      ValuePrints(t[0], PutValues(t[1..], tail));
      assert ValueFormat(t[0]) + (ValuesFormat(t[1..]) + tail) == ValueFormat(t[0]) + ValuesFormat(t[1..]) + tail;
    } else {
      assert [] + tail == tail;
    }
  }

  lemma TuplePrints(t: WireTuple, tail: seq<Byte>)
    requires WellFormedTuple(t)
    ensures PutTuple(t, tail) == TupleFormat(t) + tail
  {
    ValuesPrint(t, tail);
    Int16Prints(|t|, ValuesFormat(t) + tail);
    hide Int16, PutU16, PutValues, ValuesFormat;
    assert Int16(|t|) + (ValuesFormat(t) + tail) == TupleFormat(t) + tail;
  }

  lemma OldPrints(o: OldTuple, tail: seq<Byte>)
    requires WellFormedTuple(o.tuple)
    ensures PutOld(o, tail) == OldFormat(o) + tail
  {
    TuplePrints(o.tuple, tail);
    hide PutTuple, TupleFormat, WellFormedTuple;
  }

  lemma {:induction false} OldsPrint(os: seq<OldTuple>, tail: seq<Byte>)
    requires forall o :: o in os ==> WellFormedTuple(o.tuple)
    ensures PutOlds(os, tail) == OldsFormat(os) + tail
  {
    hide PutOld, OldFormat, WellFormedTuple;
    if os != [] {
      OldsPrint(os[1..], tail);
      OldPrints(os[0], PutOlds(os[1..], tail));
      assert OldFormat(os[0]) + (OldsFormat(os[1..]) + tail) == OldFormat(os[0]) + OldsFormat(os[1..]) + tail;
    } else {
      assert [] + tail == tail;
    }
  }

  lemma RelationPrints(m: WireMessage, tail: seq<Byte>)
    requires m.Relation? && WellFormedMessage(m)
    ensures PutMessage(m, tail) == MessageFormat(m) + tail
  {
    hide Int32, Int16, PutU32, PutU16, ColumnsFormat, PutColumns, PutCString, TerminatedString, IsCString;
    var columns := ColumnsFormat(m.columns) + tail;
    ColumnsPrint(m.columns, tail);
    Int16Prints(|m.columns|, columns);
    var counted := [m.replicaIdentity] + (Int16(|m.columns|) + columns);
    StringPrints(m.name, counted);
    StringPrints(m.namespace, TerminatedString(m.name) + counted);
    Int32Prints(m.id, TerminatedString(m.namespace) + (TerminatedString(m.name) + counted));
  }

  lemma RowPrints(m: WireMessage, tail: seq<Byte>)
    requires !m.Relation? && WellFormedMessage(m)
    ensures PutMessage(m, tail) == MessageFormat(m) + tail
  {
    hide Int32, PutU32, TupleFormat, PutTuple, OldFormat, PutOld, OldsFormat, PutOlds, WellFormedTuple;
    match m
    case Insert(id, newTuple) =>
      TuplePrints(newTuple, tail);
      Int32Prints(id, ['N' as int] + (TupleFormat(newTuple) + tail));
    case Update(id, olds, newTuple) =>
      TuplePrints(newTuple, tail);
      OldsPrint(olds, ['N' as int] + (TupleFormat(newTuple) + tail));
      Int32Prints(id, OldsFormat(olds) + (['N' as int] + (TupleFormat(newTuple) + tail)));
    case Delete(id, oldTuple) =>
      OldPrints(oldTuple, tail);
      Int32Prints(id, OldFormat(oldTuple) + tail);
  }

  lemma {:induction false} MessagesPrint(ms: seq<WireMessage>, tail: seq<Byte>)
    requires WellFormed(ms)
    ensures PutMessages(ms, tail) == Format(ms) + tail
  {
    hide PutMessage, MessageFormat, WellFormedMessage;
    if ms != [] {
      MessagesPrint(ms[1..], tail);
      if ms[0].Relation? {
        RelationPrints(ms[0], PutMessages(ms[1..], tail));
      } else {
        RowPrints(ms[0], PutMessages(ms[1..], tail));
      }
      assert MessageFormat(ms[0]) + (Format(ms[1..]) + tail) == MessageFormat(ms[0]) + Format(ms[1..]) + tail;
    } else {
      assert [] + tail == tail;
    }
  }

  /** A payload is a list of messages, each in its documented format. */
  lemma PrintsTheFormat(ms: seq<WireMessage>)
    requires WellFormed(ms)
    ensures Print(ms) == Format(ms)
  {
    MessagesPrint(ms, []);
  }

  // ---------- what is not in the format ----------

  lemma UnknownTagRejected(tag: Byte, s: seq<Byte>)
    requires tag != 'R' as int && tag != 'I' as int && tag != 'U' as int && tag != 'D' as int
    ensures TakeMessage([tag] + s) == Fail(UnknownMessageTag(tag))
  {
    assert ([tag] + s)[..1] == [tag];
  }

  /** A wrong letter in front of a tuple is reported as an unknown tag, in an update also behind old tuples. */
  lemma UnknownKindRejected(kind: Byte, id: U32, olds: seq<OldTuple>, s: seq<Byte>)
    requires forall o :: o in olds ==> WellFormedTuple(o.tuple)
    ensures kind != 'N' as int ==> TakeInsert(PutU32(id, [kind] + s)) == Fail(UnknownMessageTag(kind))
    ensures kind != 'K' as int && kind != 'O' as int ==> TakeDelete(PutU32(id, [kind] + s)) == Fail(UnknownMessageTag(kind))
    ensures kind != 'K' as int && kind != 'O' as int && kind != 'N' as int ==>
              TakeUpdate(PutU32(id, PutOlds(olds, [kind] + s))) == Fail(UnknownMessageTag(kind))
  {
    U32Complete(id, [kind] + s, "insert relation id");
    U32Complete(id, [kind] + s, "delete relation id");
    U32Complete(id, PutOlds(olds, [kind] + s), "update relation id");
    hide PutU32, TakeU32, PutOlds, TakeUpdateTuples, TakeTuple, WellFormedTuple;
    assert ([kind] + s)[..1] == [kind];
    if kind != 'K' as int && kind != 'O' as int && kind != 'N' as int {
      UnknownUpdateKind(kind, olds, s);
    }
  }

  lemma {:induction false} UnknownUpdateKind(kind: Byte, olds: seq<OldTuple>, s: seq<Byte>)
    requires kind != 'K' as int && kind != 'O' as int && kind != 'N' as int
    requires forall o :: o in olds ==> WellFormedTuple(o.tuple)
    ensures TakeUpdateTuples(PutOlds(olds, [kind] + s)) == Fail(UnknownMessageTag(kind))
  {
    hide TakeTuple, PutTuple, WellFormedTuple;
    if olds == [] {
      assert ([kind] + s)[..1] == [kind];
    } else {
      var rest := PutOlds(olds[1..], [kind] + s);
      UnknownUpdateKind(kind, olds[1..], s);
      TupleComplete(olds[0].tuple, rest);
      var letter := if olds[0].keyOnly then 'K' as int else 'O' as int;
      assert PutOlds(olds, [kind] + s) == [letter] + PutTuple(olds[0].tuple, rest);
      assert ([letter] + PutTuple(olds[0].tuple, rest))[..1] == [letter];
      assert ([letter] + PutTuple(olds[0].tuple, rest))[1..] == PutTuple(olds[0].tuple, rest);
    }
  }

  /** A value of another kind, of negative length, or with bytes that are not UTF-8. */
  lemma BadValueRejected(kind: Byte, len: I32, bytes: seq<Byte>, s: seq<Byte>)
    ensures kind != 'n' as int && kind != 'u' as int && kind != 't' as int && kind != 'b' as int ==>
              TakeValue([kind] + s) == Fail(UnsupportedTupleKind(kind))
    ensures (kind == 't' as int || kind == 'b' as int) && len < 0 ==>
              TakeValue([kind] + PutI32(len, s)) == Fail(Truncated("tuple column bytes"))
    ensures (kind == 't' as int || kind == 'b' as int) && |bytes| < TWO_TO_31 && !ValidUtf8(bytes) ==>
              TakeValue([kind] + PutI32(|bytes|, bytes + s)) == Fail(InvalidUtf8("tuple column"))
  {
    hide PutI32, TakeI32, ValidUtf8;
    assert ([kind] + s)[..1] == [kind];
    I32Complete(len, s, "tuple column length");
    assert ([kind] + PutI32(len, s))[..1] == [kind] && ([kind] + PutI32(len, s))[1..] == PutI32(len, s);
    if |bytes| < TWO_TO_31 {
      I32Complete(|bytes|, bytes + s, "tuple column length");
      BytesComplete(bytes, s, "tuple column bytes");
      assert ([kind] + PutI32(|bytes|, bytes + s))[..1] == [kind];
      assert ([kind] + PutI32(|bytes|, bytes + s))[1..] == PutI32(|bytes|, bytes + s);
    }
  }

  lemma BadStringRejected(bytes: seq<Byte>, s: seq<Byte>, ctx: string)
    requires 0 !in bytes && !ValidUtf8(bytes)
    ensures TakeCString(TerminatedString(bytes) + s, ctx) == Fail(InvalidUtf8(ctx))
  {
    var whole := TerminatedString(bytes) + s;
    assert whole[|bytes|] == 0 && whole[..|bytes|] == bytes;
    FirstNulIs(whole, |bytes|);
  }

  /** Where a relation message ends, the field that is missing is named. */
  lemma RelationContexts(id: U32, namespace: Str, name: Str, replicaIdentity: Byte)
    requires IsCString(namespace) && IsCString(name)
    ensures TakeRelation([]) == Fail(Truncated("relation id"))
    ensures TakeRelation(PutU32(id, [])) == Fail(Truncated("relation namespace"))
    ensures TakeRelation(PutU32(id, PutCString(namespace, []))) == Fail(Truncated("relation name"))
    ensures TakeRelation(PutU32(id, PutCString(namespace, PutCString(name, [])))) == Fail(Truncated("replica identity"))
    ensures TakeRelation(PutU32(id, PutCString(namespace, PutCString(name, [replicaIdentity]))))
         == Fail(Truncated("relation column count"))
  {
    hide PutU32, PutCString, IsCString, BigEndian32, TakeColumns;
    forall tail ensures TakeU32(PutU32(id, tail), "relation id") == Done(id, tail) {
      U32Complete(id, tail, "relation id");
    }
    forall tail ensures TakeCString(PutCString(namespace, tail), "relation namespace") == Done(namespace, tail) {
      CStringComplete(namespace, tail, "relation namespace");
    }
    forall tail ensures TakeCString(PutCString(name, tail), "relation name") == Done(name, tail) {
      CStringComplete(name, tail, "relation name");
    }
    hide FirstNul, TakeU32;
    assert TakeU32([], "relation id") == Fail(Truncated("relation id")) by { NothingToRead("relation id"); }
  }

  lemma NothingToRead(ctx: string)
    ensures TakeU32([], ctx) == Fail(Truncated(ctx)) && TakeI32([], ctx) == Fail(Truncated(ctx))
  {
  }

  lemma ColumnContexts(flags: Byte, name: Str, typeOid: U32)
    requires IsCString(name)
    ensures TakeColumn([]) == Fail(Truncated("relation column flags"))
    ensures TakeColumn([flags]) == Fail(Truncated("relation column name"))
    ensures TakeColumn([flags] + PutCString(name, [])) == Fail(Truncated("relation column type oid"))
    ensures TakeColumn([flags] + PutCString(name, PutU32(typeOid, []))) == Fail(Truncated("relation column type modifier"))
  {
    hide PutU32, PutCString, IsCString, BigEndian32, FirstNul;
    NothingToRead("relation column type oid");
    NothingToRead("relation column type modifier");
    U32Complete(typeOid, [], "relation column type oid");
    CStringComplete(name, [], "relation column name");
    CStringComplete(name, PutU32(typeOid, []), "relation column name");
    hide TakeU32, TakeI32;
    forall tail: seq<Byte> ensures ([flags] + tail)[..1] == [flags] && ([flags] + tail)[1..] == tail {
    }
  }

  lemma RowContexts(id: U32, len: I32)
    ensures TakeInsert([]) == Fail(Truncated("insert relation id"))
    ensures TakeInsert(PutU32(id, [])) == Fail(Truncated("insert tuple kind"))
    ensures TakeUpdate([]) == Fail(Truncated("update relation id"))
    ensures TakeUpdate(PutU32(id, [])) == Fail(Truncated("update tuple kind"))
    ensures TakeDelete([]) == Fail(Truncated("delete relation id"))
    ensures TakeDelete(PutU32(id, [])) == Fail(Truncated("delete tuple kind"))
    ensures TakeTuple([]) == Fail(Truncated("tuple column count"))
    ensures TakeValue([]) == Fail(Truncated("tuple column kind"))
    ensures TakeValue(['t' as int]) == Fail(Truncated("tuple column length"))
    ensures len > 0 ==> TakeValue(['t' as int] + PutI32(len, [])) == Fail(Truncated("tuple column bytes"))
  {
    hide PutU32, PutI32, BigEndian32;
    NothingToRead("insert relation id");
    NothingToRead("update relation id");
    NothingToRead("delete relation id");
    NothingToRead("tuple column length");
    U32Complete(id, [], "insert relation id");
    U32Complete(id, [], "update relation id");
    U32Complete(id, [], "delete relation id");
    I32Complete(len, [], "tuple column length");
    hide TakeU32, TakeI32, TakeTuple;
    var s := ['t' as int] + PutI32(len, []);
    assert s[..1] == ['t' as int] && s[1..] == PutI32(len, []);
    assert TakeTuple([]) == Fail(Truncated("tuple column count")) by { NoTuple(); }
  }

  lemma NoTuple()
    ensures TakeTuple([]) == Fail(Truncated("tuple column count"))
  {
  }
}
