/**
 The messages of the pgoutput stream as they stand on the wire, with everything the decoder throws
 away: section 55.9 of the PostgreSQL 16 documentation, "Logical Replication Message Formats",
 restricted to the four messages the decoder knows and widened where it is more liberal.

 `Put...` prints a construct in front of `tail`; `Take...` reads one from the front of a byte string.
 The two are proved inverse to each other.
 */
module PgOutputWire {
  import opened Basics
  import opened Utf8
  import opened ByteReading

  const TAG_RELATION: Byte := 'R' as int
  const TAG_INSERT: Byte := 'I' as int
  const TAG_UPDATE: Byte := 'U' as int
  const TAG_DELETE: Byte := 'D' as int

  const KIND_NEW: Byte := 'N' as int
  const KIND_KEY: Byte := 'K' as int
  const KIND_OLD: Byte := 'O' as int

  const KIND_NULL: Byte := 'n' as int
  const KIND_UNCHANGED: Byte := 'u' as int
  const KIND_TEXT: Byte := 't' as int
  const KIND_BINARY: Byte := 'b' as int

  datatype WireColumn = WireColumn(flags: Byte, name: Str, typeOid: U32, typeModifier: I32)

  /** A column of a tuple: SQL null, an unchanged TOASTed value, or bytes in text or binary format. */
  datatype WireValue =
    | Null
    | Unchanged
    | Data(binary: bool, bytes: seq<Byte>)

  type WireTuple = seq<WireValue>

  /** The key columns or the whole of a row before its change. */
  datatype OldTuple = OldTuple(keyOnly: bool, tuple: WireTuple)

  /** The decoder accepts any number of old tuples in an update, where the format has at most one. */
  datatype WireMessage =
    | Relation(id: U32, namespace: Str, name: Str, replicaIdentity: Byte, columns: seq<WireColumn>)
    | Insert(id: U32, newTuple: WireTuple)
    | Update(id: U32, olds: seq<OldTuple>, newTuple: WireTuple)
    | Delete(id: U32, oldTuple: OldTuple)

  // ---------- what can be printed ----------

  predicate WellFormedValue(v: WireValue) {
    v.Data? ==> |v.bytes| < TWO_TO_31 && ValidUtf8(v.bytes)
  }

  predicate WellFormedTuple(t: WireTuple) {
    |t| < TWO_TO_16 && forall v :: v in t ==> WellFormedValue(v)
  }

  predicate WellFormedMessage(m: WireMessage) {
    match m
    case Relation(_, namespace, name, _, columns) =>
      && IsCString(namespace)
      && IsCString(name)
      && |columns| < TWO_TO_16
      && forall c :: c in columns ==> IsCString(c.name)
    case Insert(_, newTuple) => WellFormedTuple(newTuple)
    case Update(_, olds, newTuple) =>
      && (forall o :: o in olds ==> WellFormedTuple(o.tuple))
      && WellFormedTuple(newTuple)
    case Delete(_, oldTuple) => WellFormedTuple(oldTuple.tuple)
  }

  predicate WellFormed(ms: seq<WireMessage>) {
    forall m :: m in ms ==> WellFormedMessage(m)
  }

  // ---------- printers ----------

  function PutColumn(c: WireColumn, tail: seq<Byte>): seq<Byte> {
    [c.flags] + PutCString(c.name, PutU32(c.typeOid, PutI32(c.typeModifier, tail)))
  }

  function PutColumns(cs: seq<WireColumn>, tail: seq<Byte>): seq<Byte> {
    if cs == [] then tail else PutColumn(cs[0], PutColumns(cs[1..], tail))
  }

  function PutValue(v: WireValue, tail: seq<Byte>): seq<Byte>
    requires WellFormedValue(v)
  {
    match v
    case Null => [KIND_NULL] + tail
    case Unchanged => [KIND_UNCHANGED] + tail
    case Data(binary, bytes) =>
      [if binary then KIND_BINARY else KIND_TEXT] + PutI32(|bytes|, bytes + tail)
  }

  function PutValues(t: seq<WireValue>, tail: seq<Byte>): seq<Byte>
    requires forall v :: v in t ==> WellFormedValue(v)
  {
    if t == [] then tail else PutValue(t[0], PutValues(t[1..], tail))
  }

  function PutTuple(t: WireTuple, tail: seq<Byte>): seq<Byte>
    requires WellFormedTuple(t)
  {
    PutU16(|t|, PutValues(t, tail))
  }

  function PutOld(o: OldTuple, tail: seq<Byte>): seq<Byte>
    requires WellFormedTuple(o.tuple)
  {
    [if o.keyOnly then KIND_KEY else KIND_OLD] + PutTuple(o.tuple, tail)
  }

  function PutOlds(os: seq<OldTuple>, tail: seq<Byte>): seq<Byte>
    requires forall o :: o in os ==> WellFormedTuple(o.tuple)
  {
    if os == [] then tail else PutOld(os[0], PutOlds(os[1..], tail))
  }

  function PutMessage(m: WireMessage, tail: seq<Byte>): seq<Byte>
    requires WellFormedMessage(m)
  {
    match m
    case Relation(id, namespace, name, replicaIdentity, columns) =>
      [TAG_RELATION] + PutU32(id, PutCString(namespace, PutCString(name,
        [replicaIdentity] + PutU16(|columns|, PutColumns(columns, tail)))))
    case Insert(id, newTuple) =>
      [TAG_INSERT] + PutU32(id, [KIND_NEW] + PutTuple(newTuple, tail))
    case Update(id, olds, newTuple) =>
      [TAG_UPDATE] + PutU32(id, PutOlds(olds, [KIND_NEW] + PutTuple(newTuple, tail)))
    case Delete(id, oldTuple) =>
      [TAG_DELETE] + PutU32(id, PutOld(oldTuple, tail))
  }

  function PutMessages(ms: seq<WireMessage>, tail: seq<Byte>): seq<Byte>
    requires WellFormed(ms)
  {
    if ms == [] then tail else PutMessage(ms[0], PutMessages(ms[1..], tail))
  }

  /** The bytes of a list of messages. */
  function Print(ms: seq<WireMessage>): seq<Byte>
    requires WellFormed(ms)
  {
    PutMessages(ms, [])
  }

  // ---------- readers ----------

  function TakeColumn(s: seq<Byte>): (p: Parsed<WireColumn>)
    ensures p.Done? ==> |p.rest| <= |s|
  {
    var (flags, s1) :- TakeU8(s, "relation column flags");
    var (name, s2) :- TakeCString(s1, "relation column name");
    var (typeOid, s3) :- TakeU32(s2, "relation column type oid");
    var (typeModifier, s4) :- TakeI32(s3, "relation column type modifier");
    Done(WireColumn(flags, name, typeOid, typeModifier), s4)
  }

  /** Puts what was read before in front of what is read next. */
  function Prepend<T>(front: seq<T>, p: Parsed<seq<T>>): Parsed<seq<T>> {
    match p
    case Done(v, rest) => Done(front + v, rest)
    case Fail(e) => Fail(e)
  }

  lemma PrependNothing<T>(p: Parsed<seq<T>>)
    ensures Prepend([], p) == p
  {
    if p.Done? {
      assert [] + p.value == p.value;
    }
  }

  lemma PrependTwice<T>(front: seq<T>, x: T, p: Parsed<seq<T>>)
    ensures Prepend(front, Prepend([x], p)) == Prepend(front + [x], p)
  {
    if p.Done? {
      assert front + ([x] + p.value) == front + [x] + p.value;
    }
  }

  function TakeColumns(s: seq<Byte>, n: nat): (p: Parsed<seq<WireColumn>>)
    ensures p.Done? ==> |p.rest| <= |s|
  {
    if n == 0 then Done([], s) else
      var (c, s1) :- TakeColumn(s);
      Prepend([c], TakeColumns(s1, n - 1))
  }

  function TakeData(binary: bool, s: seq<Byte>): (p: Parsed<WireValue>)
    ensures p.Done? ==> |p.rest| <= |s|
  {
    var (len, s1) :- TakeI32(s, "tuple column length");
    if len < 0 then Fail(Truncated("tuple column bytes")) else
      var (bytes, s2) :- TakeBytes(s1, len, "tuple column bytes");
      if ValidUtf8(bytes) then Done(Data(binary, bytes), s2) else Fail(InvalidUtf8("tuple column"))
  }

  function TakeValue(s: seq<Byte>): (p: Parsed<WireValue>)
    ensures p.Done? ==> |p.rest| <= |s|
  {
    var (kind, s1) :- TakeU8(s, "tuple column kind");
    if kind == KIND_NULL then Done(Null, s1)
    else if kind == KIND_UNCHANGED then Done(Unchanged, s1)
    else if kind == KIND_TEXT || kind == KIND_BINARY then TakeData(kind == KIND_BINARY, s1)
    else Fail(UnsupportedTupleKind(kind))
  }

  function TakeValues(s: seq<Byte>, n: nat): (p: Parsed<seq<WireValue>>)
    ensures p.Done? ==> |p.rest| <= |s|
  {
    if n == 0 then Done([], s) else
      var (v, s1) :- TakeValue(s);
      Prepend([v], TakeValues(s1, n - 1))
  }

  function TakeTuple(s: seq<Byte>): (p: Parsed<WireTuple>)
    ensures p.Done? ==> |p.rest| <= |s|
  {
    var (n, s1) :- TakeU16(s, "tuple column count");
    TakeValues(s1, n)
  }

  function TakeRelation(s: seq<Byte>): (p: Parsed<WireMessage>)
    ensures p.Done? ==> |p.rest| <= |s| && p.value.Relation?
  {
    var (id, s1) :- TakeU32(s, "relation id");
    var (namespace, s2) :- TakeCString(s1, "relation namespace");
    var (name, s3) :- TakeCString(s2, "relation name");
    var (replicaIdentity, s4) :- TakeU8(s3, "replica identity");
    var (n, s5) :- TakeU16(s4, "relation column count");
    var (columns, s6) :- TakeColumns(s5, n);
    Done(Relation(id, namespace, name, replicaIdentity, columns), s6)
  }

  function TakeInsert(s: seq<Byte>): (p: Parsed<WireMessage>)
    ensures p.Done? ==> |p.rest| <= |s|
  {
    var (id, s1) :- TakeU32(s, "insert relation id");
    var (kind, s2) :- TakeU8(s1, "insert tuple kind");
    if kind != KIND_NEW then Fail(UnknownMessageTag(kind)) else
      var (newTuple, s3) :- TakeTuple(s2);
      Done(Insert(id, newTuple), s3)
  }

  /** The old tuples of an update, up to and with the new tuple that ends them. */
  function TakeUpdateTuples(s: seq<Byte>): (p: Parsed<(seq<OldTuple>, WireTuple)>)
    ensures p.Done? ==> |p.rest| <= |s|
    decreases |s|
  {
    var (kind, s1) :- TakeU8(s, "update tuple kind");
    if kind == KIND_NEW then
      var (newTuple, s2) :- TakeTuple(s1);
      Done(([], newTuple), s2)
    else if kind == KIND_KEY || kind == KIND_OLD then
      var (tuple, s2) :- TakeTuple(s1);
      PrependOlds([OldTuple(kind == KIND_KEY, tuple)], TakeUpdateTuples(s2))
    else Fail(UnknownMessageTag(kind))
  }

  function PrependOlds(front: seq<OldTuple>, p: Parsed<(seq<OldTuple>, WireTuple)>): Parsed<(seq<OldTuple>, WireTuple)> {
    match p
    case Done((olds, newTuple), rest) => Done((front + olds, newTuple), rest)
    case Fail(e) => Fail(e)
  }

  lemma PrependNoOlds(p: Parsed<(seq<OldTuple>, WireTuple)>)
    ensures PrependOlds([], p) == p
  {
    if p.Done? {
      assert [] + p.value.0 == p.value.0;
    }
  }

  lemma PrependOldsTwice(front: seq<OldTuple>, o: OldTuple, p: Parsed<(seq<OldTuple>, WireTuple)>)
    ensures PrependOlds(front, PrependOlds([o], p)) == PrependOlds(front + [o], p)
  {
    if p.Done? {
      assert front + ([o] + p.value.0) == front + [o] + p.value.0;
    }
  }

  function TakeUpdate(s: seq<Byte>): (p: Parsed<WireMessage>)
    ensures p.Done? ==> |p.rest| <= |s|
  {
    var (id, s1) :- TakeU32(s, "update relation id");
    var (tuples, s2) :- TakeUpdateTuples(s1);
    Done(Update(id, tuples.0, tuples.1), s2)
  }

  function TakeDelete(s: seq<Byte>): (p: Parsed<WireMessage>)
    ensures p.Done? ==> |p.rest| <= |s|
  {
    var (id, s1) :- TakeU32(s, "delete relation id");
    var (kind, s2) :- TakeU8(s1, "delete tuple kind");
    if kind != KIND_KEY && kind != KIND_OLD then Fail(UnknownMessageTag(kind)) else
      var (tuple, s3) :- TakeTuple(s2);
      Done(Delete(id, OldTuple(kind == KIND_KEY, tuple)), s3)
  }

  function TakeMessage(s: seq<Byte>): (p: Parsed<WireMessage>)
    ensures p.Done? ==> |p.rest| < |s|
  {
    var (tag, s1) :- TakeU8(s, "message tag");
    if tag == TAG_RELATION then TakeRelation(s1)
    else if tag == TAG_INSERT then TakeInsert(s1)
    else if tag == TAG_UPDATE then TakeUpdate(s1)
    else if tag == TAG_DELETE then TakeDelete(s1)
    else Fail(UnknownMessageTag(tag))
  }

  type Messages = Result<seq<WireMessage>, PgOutputError>

  /** Puts messages read before in front of the outcome of reading the rest. */
  function After(front: seq<WireMessage>, r: Messages): Messages {
    match r
    case Success(ms) => Success(front + ms)
    case Failure(e) => Failure(e)
  }

  /** A whole payload: messages up to the end of the input. */
  function TakeMessages(s: seq<Byte>): Messages
    decreases |s|
  {
    if s == [] then Success([]) else
      match TakeMessage(s)
      case Done(m, rest) => After([m], TakeMessages(rest))
      case Fail(e) => Failure(e)
  }

  // ---------- completeness: every printed construct is read back ----------

  lemma ColumnComplete(c: WireColumn, tail: seq<Byte>)
    requires IsCString(c.name)
    ensures TakeColumn(PutColumn(c, tail)) == Done(c, tail)
  {
    var s4 := PutI32(c.typeModifier, tail);
    var s3 := PutU32(c.typeOid, s4);
    var s2 := PutCString(c.name, s3);
    BytesComplete([c.flags], s2, "relation column flags");
    CStringComplete(c.name, s3, "relation column name");
    U32Complete(c.typeOid, s4, "relation column type oid");
    I32Complete(c.typeModifier, tail, "relation column type modifier");
  }

  lemma {:induction false} ColumnsComplete(cs: seq<WireColumn>, tail: seq<Byte>)
    requires forall c :: c in cs ==> IsCString(c.name)
    ensures TakeColumns(PutColumns(cs, tail), |cs|) == Done(cs, tail)
  {
    hide TakeColumn, PutColumn;
    if cs != [] {
      ColumnComplete(cs[0], PutColumns(cs[1..], tail));
      ColumnsComplete(cs[1..], tail);
      assert [cs[0]] + cs[1..] == cs;
    }
  }

  lemma ValueComplete(v: WireValue, tail: seq<Byte>)
    requires WellFormedValue(v)
    ensures TakeValue(PutValue(v, tail)) == Done(v, tail)
  {
    match v
    case Data(binary, bytes) =>
      var body := PutI32(|bytes|, bytes + tail);
      assert PutValue(v, tail)[1..] == body;
      I32Complete(|bytes|, bytes + tail, "tuple column length");
      BytesComplete(bytes, tail, "tuple column bytes");
    case _ =>
      assert PutValue(v, tail)[1..] == tail;
  }

  lemma {:induction false} ValuesComplete(t: seq<WireValue>, tail: seq<Byte>)
    requires forall v :: v in t ==> WellFormedValue(v)
    ensures TakeValues(PutValues(t, tail), |t|) == Done(t, tail)
  {
    hide TakeValue, PutValue;
    if t != [] {
      ValueComplete(t[0], PutValues(t[1..], tail));
      ValuesComplete(t[1..], tail);
      assert [t[0]] + t[1..] == t;
    }
  }

  lemma TupleComplete(t: WireTuple, tail: seq<Byte>)
    requires WellFormedTuple(t)
    ensures TakeTuple(PutTuple(t, tail)) == Done(t, tail)
  {
    U16Complete(|t|, PutValues(t, tail), "tuple column count");
    ValuesComplete(t, tail);
  }

  lemma {:induction false} UpdateTuplesComplete(olds: seq<OldTuple>, newTuple: WireTuple, tail: seq<Byte>)
    requires forall o :: o in olds ==> WellFormedTuple(o.tuple)
    requires WellFormedTuple(newTuple)
    ensures TakeUpdateTuples(PutOlds(olds, [KIND_NEW] + PutTuple(newTuple, tail))) == Done((olds, newTuple), tail)
  {
    hide TakeTuple, PutTuple;
    var s := PutOlds(olds, [KIND_NEW] + PutTuple(newTuple, tail));
    if olds == [] {
      TupleComplete(newTuple, tail);
      assert s[1..] == PutTuple(newTuple, tail);
    } else {
      var rest := PutOlds(olds[1..], [KIND_NEW] + PutTuple(newTuple, tail));
      TupleComplete(olds[0].tuple, rest);
      assert s[1..] == PutTuple(olds[0].tuple, rest);
      UpdateTuplesComplete(olds[1..], newTuple, tail);
      assert [olds[0]] + olds[1..] == olds;
    }
  }

  lemma RelationComplete(m: WireMessage, tail: seq<Byte>)
    requires m.Relation? && WellFormedMessage(m)
    ensures TakeRelation(PutMessage(m, tail)[1..]) == Done(m, tail)
  {
    var s6 := PutColumns(m.columns, tail);
    var s5 := PutU16(|m.columns|, s6);
    var s4 := [m.replicaIdentity] + s5;
    var s3 := PutCString(m.name, s4);
    var s2 := PutCString(m.namespace, s3);
    assert PutMessage(m, tail)[1..] == PutU32(m.id, s2);
    U32Complete(m.id, s2, "relation id");
    CStringComplete(m.namespace, s3, "relation namespace");
    CStringComplete(m.name, s4, "relation name");
    BytesComplete([m.replicaIdentity], s5, "replica identity");
    U16Complete(|m.columns|, s6, "relation column count");
    ColumnsComplete(m.columns, tail);
  }

  lemma InsertComplete(m: WireMessage, tail: seq<Byte>)
    requires m.Insert? && WellFormedMessage(m)
    ensures TakeInsert(PutMessage(m, tail)[1..]) == Done(m, tail)
  {
    var s3 := PutTuple(m.newTuple, tail);
    var s2 := [KIND_NEW] + s3;
    assert PutMessage(m, tail)[1..] == PutU32(m.id, s2);
    U32Complete(m.id, s2, "insert relation id");
    BytesComplete([KIND_NEW], s3, "insert tuple kind");
    TupleComplete(m.newTuple, tail);
  }

  lemma UpdateComplete(m: WireMessage, tail: seq<Byte>)
    requires m.Update? && WellFormedMessage(m)
    ensures TakeUpdate(PutMessage(m, tail)[1..]) == Done(m, tail)
  {
    var s2 := PutOlds(m.olds, [KIND_NEW] + PutTuple(m.newTuple, tail));
    assert PutMessage(m, tail)[1..] == PutU32(m.id, s2);
    U32Complete(m.id, s2, "update relation id");
    UpdateTuplesComplete(m.olds, m.newTuple, tail);
  }

  lemma DeleteComplete(m: WireMessage, tail: seq<Byte>)
    requires m.Delete? && WellFormedMessage(m)
    ensures TakeDelete(PutMessage(m, tail)[1..]) == Done(m, tail)
  {
    var s3 := PutTuple(m.oldTuple.tuple, tail);
    var s2 := PutOld(m.oldTuple, tail);
    assert PutMessage(m, tail)[1..] == PutU32(m.id, s2);
    U32Complete(m.id, s2, "delete relation id");
    BytesComplete([if m.oldTuple.keyOnly then KIND_KEY else KIND_OLD], s3, "delete tuple kind");
    TupleComplete(m.oldTuple.tuple, tail);
  }

  lemma MessageComplete(m: WireMessage, tail: seq<Byte>)
    requires WellFormedMessage(m)
    ensures TakeMessage(PutMessage(m, tail)) == Done(m, tail)
  {
    hide TakeRelation, TakeInsert, TakeUpdate, TakeDelete;
    match m
    case Relation(_, _, _, _, _) => RelationComplete(m, tail);
    case Insert(_, _) => InsertComplete(m, tail);
    case Update(_, _, _) => UpdateComplete(m, tail);
    case Delete(_, _) => DeleteComplete(m, tail);
  }

  lemma {:induction false} MessagesComplete(ms: seq<WireMessage>)
    requires WellFormed(ms)
    ensures TakeMessages(Print(ms)) == Success(ms)
  {
    hide TakeMessage, PutMessage;
    if ms != [] {
      MessageComplete(ms[0], Print(ms[1..]));
      MessagesComplete(ms[1..]);
      assert [ms[0]] + ms[1..] == ms;
    }
  }

  // ---------- soundness: whatever is read was printed ----------

  lemma ColumnSound(s: seq<Byte>)
    requires TakeColumn(s).Done?
    ensures var p := TakeColumn(s); IsCString(p.value.name) && s == PutColumn(p.value, p.rest)
  {
    var (flags, s1) := TakeU8(s, "relation column flags").Extract();
    var (name, s2) := TakeCString(s1, "relation column name").Extract();
    var (typeOid, s3) := TakeU32(s2, "relation column type oid").Extract();
    U8Sound(s, "relation column flags");
    CStringSound(s1, "relation column name");
    U32Sound(s2, "relation column type oid");
    I32Sound(s3, "relation column type modifier");
  }

  lemma {:induction false} ColumnsSound(s: seq<Byte>, n: nat)
    requires TakeColumns(s, n).Done?
    ensures var p := TakeColumns(s, n);
            && |p.value| == n
            && (forall c :: c in p.value ==> IsCString(c.name))
            && s == PutColumns(p.value, p.rest)
    decreases n
  {
    hide TakeColumn, PutColumn;
    if n > 0 {
      ColumnSound(s);
      var (c, s1) := TakeColumn(s).Extract();
      ColumnsSound(s1, n - 1);
      assert TakeColumns(s, n).value[1..] == TakeColumns(s1, n - 1).value;
    }
  }

  lemma ValueSound(s: seq<Byte>)
    requires TakeValue(s).Done?
    ensures var p := TakeValue(s); WellFormedValue(p.value) && s == PutValue(p.value, p.rest)
  {
    var p := TakeValue(s);
    var (kind, s1) := TakeU8(s, "tuple column kind").Extract();
    U8Sound(s, "tuple column kind");
    if p.value.Data? {
      I32Sound(s1, "tuple column length");
      var (len, s2) := TakeI32(s1, "tuple column length").Extract();
      assert s2 == p.value.bytes + p.rest;
    }
  }

  lemma {:induction false} ValuesSound(s: seq<Byte>, n: nat)
    requires TakeValues(s, n).Done?
    ensures var p := TakeValues(s, n);
            && |p.value| == n
            && (forall v :: v in p.value ==> WellFormedValue(v))
            && s == PutValues(p.value, p.rest)
    decreases n
  {
    hide TakeValue, PutValue;
    if n > 0 {
      ValueSound(s);
      var (v, s1) := TakeValue(s).Extract();
      ValuesSound(s1, n - 1);
      assert TakeValues(s, n).value[1..] == TakeValues(s1, n - 1).value;
    }
  }

  lemma TupleSound(s: seq<Byte>)
    requires TakeTuple(s).Done?
    ensures var p := TakeTuple(s); WellFormedTuple(p.value) && s == PutTuple(p.value, p.rest)
  {
    U16Sound(s, "tuple column count");
    var (n, s1) := TakeU16(s, "tuple column count").Extract();
    ValuesSound(s1, n);
  }

  lemma {:induction false} UpdateTuplesSound(s: seq<Byte>)
    requires TakeUpdateTuples(s).Done?
    ensures var p := TakeUpdateTuples(s);
            && (forall o :: o in p.value.0 ==> WellFormedTuple(o.tuple))
            && WellFormedTuple(p.value.1)
            && s == PutOlds(p.value.0, [KIND_NEW] + PutTuple(p.value.1, p.rest))
    decreases |s|
  {
    var (kind, s1) := TakeU8(s, "update tuple kind").Extract();
    U8Sound(s, "update tuple kind");
    TupleSound(s1);
    var (tuple, s2) := TakeTuple(s1).Extract();
    if kind != KIND_NEW {
      UpdateTuplesSound(s2);
      assert TakeUpdateTuples(s).value.0[1..] == TakeUpdateTuples(s2).value.0;
    }
  }

  lemma RelationSound(s: seq<Byte>)
    requires TakeRelation(s).Done?
    ensures var p := TakeRelation(s);
            WellFormedMessage(p.value) && [TAG_RELATION] + s == PutMessage(p.value, p.rest)
  {
    var (id, s1) := TakeU32(s, "relation id").Extract();
    var (namespace, s2) := TakeCString(s1, "relation namespace").Extract();
    var (name, s3) := TakeCString(s2, "relation name").Extract();
    var (replicaIdentity, s4) := TakeU8(s3, "replica identity").Extract();
    var (n, s5) := TakeU16(s4, "relation column count").Extract();
    U32Sound(s, "relation id");
    CStringSound(s1, "relation namespace");
    CStringSound(s2, "relation name");
    U8Sound(s3, "replica identity");
    U16Sound(s4, "relation column count");
    ColumnsSound(s5, n);
  }

  lemma MessageSound(s: seq<Byte>)
    requires TakeMessage(s).Done?
    ensures var p := TakeMessage(s); WellFormedMessage(p.value) && s == PutMessage(p.value, p.rest)
  {
    var (tag, s1) := TakeU8(s, "message tag").Extract();
    U8Sound(s, "message tag");
    if tag == TAG_RELATION {
      RelationSound(s1);
    } else if tag == TAG_INSERT {
      U32Sound(s1, "insert relation id");
      var (id, s2) := TakeU32(s1, "insert relation id").Extract();
      U8Sound(s2, "insert tuple kind");
      var (kind, s3) := TakeU8(s2, "insert tuple kind").Extract();
      TupleSound(s3);
    } else if tag == TAG_UPDATE {
      U32Sound(s1, "update relation id");
      var (id, s2) := TakeU32(s1, "update relation id").Extract();
      UpdateTuplesSound(s2);
    } else {
      U32Sound(s1, "delete relation id");
      var (id, s2) := TakeU32(s1, "delete relation id").Extract();
      U8Sound(s2, "delete tuple kind");
      var (kind, s3) := TakeU8(s2, "delete tuple kind").Extract();
      TupleSound(s3);
    }
  }

  lemma {:induction false} MessagesSound(s: seq<Byte>)
    requires TakeMessages(s).Success?
    ensures var ms := TakeMessages(s).value; WellFormed(ms) && s == Print(ms)
    decreases |s|
  {
    hide TakeMessage, PutMessage;
    if s != [] {
      MessageSound(s);
      var (m, rest) := TakeMessage(s).Extract();
      MessagesSound(rest);
      assert TakeMessages(s).value[1..] == TakeMessages(rest).value;
    }
  }

  /** The reader accepts exactly the printed lists of messages, and yields the list printed. */
  lemma ReadsExactlyThePrinted(s: seq<Byte>, ms: seq<WireMessage>)
    ensures TakeMessages(s) == Success(ms) <==> WellFormed(ms) && s == Print(ms)
  {
    if WellFormed(ms) && s == Print(ms) {
      MessagesComplete(ms);
    }
    if TakeMessages(s) == Success(ms) {
      MessagesSound(s);
    }
  }

  /** No byte string is the printed form of two lists of messages. */
  lemma Unambiguous(ms: seq<WireMessage>, ns: seq<WireMessage>)
    requires WellFormed(ms) && WellFormed(ns)
    requires Print(ms) == Print(ns)
    ensures ms == ns
  {
    MessagesComplete(ms);
    MessagesComplete(ns);
  }

  // ---------- more input ----------

  lemma ColumnExtend(s: seq<Byte>, x: seq<Byte>)
    ensures Extends(TakeColumn(s), TakeColumn(s + x), x)
  {
    hide TakeU8, TakeU32, TakeI32, TakeCString;
    U8Extend(s, x, "relation column flags");
    if TakeU8(s, "relation column flags").Done? {
      var (flags, s1) := TakeU8(s, "relation column flags").Extract();
      CStringExtend(s1, x, "relation column name");
      if TakeCString(s1, "relation column name").Done? {
        var (name, s2) := TakeCString(s1, "relation column name").Extract();
        U32Extend(s2, x, "relation column type oid");
        if TakeU32(s2, "relation column type oid").Done? {
          var (typeOid, s3) := TakeU32(s2, "relation column type oid").Extract();
          I32Extend(s3, x, "relation column type modifier");
        }
      }
    }
  }

  lemma {:induction false} ColumnsExtend(s: seq<Byte>, x: seq<Byte>, n: nat)
    ensures Extends(TakeColumns(s, n), TakeColumns(s + x, n), x)
    decreases n
  {
    hide TakeColumn;
    if n > 0 {
      ColumnExtend(s, x);
      if TakeColumn(s).Done? {
        ColumnsExtend(TakeColumn(s).rest, x, n - 1);
      }
    }
  }

  lemma DataExtend(binary: bool, s: seq<Byte>, x: seq<Byte>)
    ensures Extends(TakeData(binary, s), TakeData(binary, s + x), x)
  {
    I32Extend(s, x, "tuple column length");
    if TakeI32(s, "tuple column length").Done? {
      var (len, s1) := TakeI32(s, "tuple column length").Extract();
      if len >= 0 {
        BytesExtend(s1, x, len, "tuple column bytes");
      }
    }
  }

  lemma {:induction false} ValuesExtend(s: seq<Byte>, x: seq<Byte>, n: nat)
    ensures Extends(TakeValues(s, n), TakeValues(s + x, n), x)
    decreases n
  {
    hide TakeValue;
    if n > 0 {
      ValueExtend(s, x);
      if TakeValue(s).Done? {
        ValuesExtend(TakeValue(s).rest, x, n - 1);
      }
    }
  }

  lemma ValueExtend(s: seq<Byte>, x: seq<Byte>)
    ensures Extends(TakeValue(s), TakeValue(s + x), x)
  {
    U8Extend(s, x, "tuple column kind");
    if TakeU8(s, "tuple column kind").Done? {
      var (kind, s1) := TakeU8(s, "tuple column kind").Extract();
      DataExtend(kind == KIND_BINARY, s1, x);
    }
  }

  lemma TupleExtend(s: seq<Byte>, x: seq<Byte>)
    ensures Extends(TakeTuple(s), TakeTuple(s + x), x)
  {
    U16Extend(s, x, "tuple column count");
    if TakeU16(s, "tuple column count").Done? {
      var (n, s1) := TakeU16(s, "tuple column count").Extract();
      ValuesExtend(s1, x, n);
    }
  }

  lemma {:induction false} UpdateTuplesExtend(s: seq<Byte>, x: seq<Byte>)
    ensures Extends(TakeUpdateTuples(s), TakeUpdateTuples(s + x), x)
    decreases |s|
  {
    hide TakeU8, TakeTuple;
    U8Extend(s, x, "update tuple kind");
    if TakeU8(s, "update tuple kind").Done? {
      var (kind, s1) := TakeU8(s, "update tuple kind").Extract();
      TupleExtend(s1, x);
      if kind == KIND_NEW {
      } else if kind == KIND_KEY || kind == KIND_OLD {
        if TakeTuple(s1).Done? {
          UpdateTuplesExtend(TakeTuple(s1).rest, x);
        }
      }
    }
  }

  lemma RelationExtend(s: seq<Byte>, x: seq<Byte>)
    ensures Extends(TakeRelation(s), TakeRelation(s + x), x)
  {
    hide TakeU8, TakeU16, TakeU32, TakeCString, TakeColumns;
    U32Extend(s, x, "relation id");
    if TakeU32(s, "relation id").Done? {
      var (id, s1) := TakeU32(s, "relation id").Extract();
      CStringExtend(s1, x, "relation namespace");
      if TakeCString(s1, "relation namespace").Done? {
        var (namespace, s2) := TakeCString(s1, "relation namespace").Extract();
        CStringExtend(s2, x, "relation name");
        if TakeCString(s2, "relation name").Done? {
          var (name, s3) := TakeCString(s2, "relation name").Extract();
          U8Extend(s3, x, "replica identity");
          if TakeU8(s3, "replica identity").Done? {
            var (replicaIdentity, s4) := TakeU8(s3, "replica identity").Extract();
            U16Extend(s4, x, "relation column count");
            if TakeU16(s4, "relation column count").Done? {
              var (n, s5) := TakeU16(s4, "relation column count").Extract();
              ColumnsExtend(s5, x, n);
            }
          }
        }
      }
    }
  }

  lemma InsertExtend(s: seq<Byte>, x: seq<Byte>)
    ensures Extends(TakeInsert(s), TakeInsert(s + x), x)
  {
    hide TakeU8, TakeU32, TakeTuple;
    U32Extend(s, x, "insert relation id");
    if TakeU32(s, "insert relation id").Done? {
      var (id, s1) := TakeU32(s, "insert relation id").Extract();
      U8Extend(s1, x, "insert tuple kind");
      if TakeU8(s1, "insert tuple kind").Done? {
        var (kind, s2) := TakeU8(s1, "insert tuple kind").Extract();
        TupleExtend(s2, x);
      }
    }
  }

  lemma DeleteExtend(s: seq<Byte>, x: seq<Byte>)
    ensures Extends(TakeDelete(s), TakeDelete(s + x), x)
  {
    hide TakeU8, TakeU32, TakeTuple;
    U32Extend(s, x, "delete relation id");
    if TakeU32(s, "delete relation id").Done? {
      var (id, s1) := TakeU32(s, "delete relation id").Extract();
      U8Extend(s1, x, "delete tuple kind");
      if TakeU8(s1, "delete tuple kind").Done? {
        var (kind, s2) := TakeU8(s1, "delete tuple kind").Extract();
        TupleExtend(s2, x);
      }
    }
  }

  lemma UpdateExtend(s: seq<Byte>, x: seq<Byte>)
    ensures Extends(TakeUpdate(s), TakeUpdate(s + x), x)
  {
    U32Extend(s, x, "update relation id");
    if TakeU32(s, "update relation id").Done? {
      UpdateTuplesExtend(TakeU32(s, "update relation id").rest, x);
    }
  }

  lemma MessageExtend(s: seq<Byte>, x: seq<Byte>)
    ensures Extends(TakeMessage(s), TakeMessage(s + x), x)
  {
    hide TakeU8, TakeRelation, TakeInsert, TakeUpdate, TakeDelete;
    U8Extend(s, x, "message tag");
    if TakeU8(s, "message tag").Done? {
      var (tag, s1) := TakeU8(s, "message tag").Extract();
      if tag == TAG_RELATION {
        RelationExtend(s1, x);
      } else if tag == TAG_INSERT {
        InsertExtend(s1, x);
      } else if tag == TAG_UPDATE {
        UpdateExtend(s1, x);
      } else if tag == TAG_DELETE {
        DeleteExtend(s1, x);
      }
    }
  }

  lemma AfterNothing(r: Messages)
    ensures After([], r) == r
  {
    if r.Success? {
      assert [] + r.value == r.value;
    }
  }

  lemma AfterAfter(front: seq<WireMessage>, middle: seq<WireMessage>, r: Messages)
    ensures After(front, After(middle, r)) == After(front + middle, r)
  {
    if r.Success? {
      assert front + (middle + r.value) == front + middle + r.value;
    }
  }

  /** One turn of the message loop, with the messages `front` read before. */
  lemma MessageLoopStep(front: seq<WireMessage>, s: seq<Byte>)
    ensures s == [] ==> After(front, TakeMessages(s)) == Success(front)
    ensures s != [] ==> match TakeMessage(s)
                        case Done(m, rest) => After(front, TakeMessages(s)) == After(front + [m], TakeMessages(rest))
                        case Fail(e) => After(front, TakeMessages(s)) == Failure(e)
  {
    hide TakeMessage;
    if s == [] {
      assert front + [] == front;
    } else if TakeMessage(s).Done? {
      AfterAfter(front, [TakeMessage(s).value], TakeMessages(TakeMessage(s).rest));
    }
  }

  /**
   Concatenation: input behind a well-formed payload is read as if it stood alone, to the very error,
   and an error other than running out of bytes stays whatever comes behind it.
   */
  lemma {:induction false} Concatenation(a: seq<Byte>, b: seq<Byte>)
    ensures match TakeMessages(a)
            case Success(ms) => TakeMessages(a + b) == After(ms, TakeMessages(b))
            case Failure(e) => e.Truncated? || TakeMessages(a + b) == Failure(e)
    decreases |a|
  {
    if a == [] {
      assert a + b == b;
      AfterNothing(TakeMessages(b));
    } else {
      MessageExtend(a, b);
      if TakeMessage(a).Done? {
        var (m, rest) := TakeMessage(a).Extract();
        assert TakeMessages(a + b) == After([m], TakeMessages(rest + b));
        Concatenation(rest, b);
        if TakeMessages(rest).Success? {
          AfterAfter([m], TakeMessages(rest).value, TakeMessages(b));
        }
      }
    }
  }

  /** Splitting a list of messages splits its printed form. */
  lemma PrintSplit(ms: seq<WireMessage>, k: nat)
    requires WellFormed(ms) && k <= |ms|
    ensures Print(ms) == PutMessages(ms[..k], Print(ms[k..])) == Print(ms[..k]) + Print(ms[k..])
  {
    var front, back := ms[..k], ms[k..];
    assert front + back == ms;
    PutMessagesAppend(front, back);
    MessagesComplete(front);
    MessagesComplete(back);
    Concatenation(Print(front), Print(back));
    MessagesSound(Print(front) + Print(back));
  }

  lemma {:induction false} PutMessagesAppend(front: seq<WireMessage>, back: seq<WireMessage>)
    requires WellFormed(front) && WellFormed(back)
    ensures WellFormed(front + back) && Print(front + back) == PutMessages(front, Print(back))
  {
    if front == [] {
      assert front + back == back;
    } else {
      assert (front + back)[1..] == front[1..] + back;
      PutMessagesAppend(front[1..], back);
    }
  }

  /** The number of bytes of the first `k` messages. */
  function Boundary(ms: seq<WireMessage>, k: nat): nat
    requires WellFormed(ms) && k <= |ms|
  {
    |Print(ms[..k])|
  }

  lemma BoundaryReads(ms: seq<WireMessage>, k: nat)
    requires WellFormed(ms) && k <= |ms|
    ensures Boundary(ms, k) <= |Print(ms)|
    ensures TakeMessages(Print(ms)[..Boundary(ms, k)]) == Success(ms[..k])
  {
    PrintSplit(ms, k);
    assert Print(ms)[..Boundary(ms, k)] == Print(ms[..k]);
    MessagesComplete(ms[..k]);
  }

  /**
   Prefix code: cut anywhere, well-formed bytes either end at a message boundary, and are read as the
   messages before it, or fail for want of bytes. No other message and no other error ever appears.
   */
  lemma PrefixCode(s: seq<Byte>, n: nat)
    requires TakeMessages(s).Success? && n <= |s|
    ensures var ms := TakeMessages(s).value;
            && WellFormed(ms)
            && match TakeMessages(s[..n])
               case Success(front) => |front| <= |ms| && front == ms[..|front|] && n == Boundary(ms, |front|)
               case Failure(e) => e.Truncated? && forall k :: 0 <= k <= |ms| ==> n != Boundary(ms, k)
  {
    hide TakeMessages, PutMessages;
    var ms := TakeMessages(s).value;
    MessagesSound(s);
    var a := s[..n];
    assert a + s[n..] == s;
    Concatenation(a, s[n..]);
    match TakeMessages(a)
    case Success(front) =>
      MessagesSound(a);
      assert front == ms[..|front|];
    case Failure(e) =>
      forall k | 0 <= k <= |ms| ensures n != Boundary(ms, k) {
        BoundaryReads(ms, k);
      }
  }

  // ---------- size ----------

  /** The values a message carries, over all its tuples. */
  function ValueCount(m: WireMessage): nat {
    match m
    case Relation(_, _, _, _, _) => 0
    case Insert(_, newTuple) => |newTuple|
    case Update(_, olds, newTuple) => OldValueCount(olds) + |newTuple|
    case Delete(_, oldTuple) => |oldTuple.tuple|
  }

  function OldValueCount(olds: seq<OldTuple>): nat {
    if olds == [] then 0 else |olds[0].tuple| + OldValueCount(olds[1..])
  }

  function TotalValueCount(ms: seq<WireMessage>): nat {
    if ms == [] then 0 else ValueCount(ms[0]) + TotalValueCount(ms[1..])
  }

  lemma {:induction false} ValuesSize(t: seq<WireValue>, tail: seq<Byte>)
    requires forall v :: v in t ==> WellFormedValue(v)
    ensures |PutValues(t, tail)| >= |t| + |tail|
  {
    if t != [] {
      ValuesSize(t[1..], tail);
    }
  }

  lemma {:induction false} OldsSize(olds: seq<OldTuple>, tail: seq<Byte>)
    requires forall o :: o in olds ==> WellFormedTuple(o.tuple)
    ensures |PutOlds(olds, tail)| >= OldValueCount(olds) + 3 * |olds| + |tail|
  {
    if olds != [] {
      OldsSize(olds[1..], tail);
      ValuesSize(olds[0].tuple, PutOlds(olds[1..], tail));
    }
  }

  lemma {:induction false} ColumnsSize(cs: seq<WireColumn>, tail: seq<Byte>)
    ensures |PutColumns(cs, tail)| >= |tail|
  {
    if cs != [] {
      ColumnsSize(cs[1..], tail);
    }
  }

  lemma MessageSize(m: WireMessage, tail: seq<Byte>)
    requires WellFormedMessage(m)
    ensures |PutMessage(m, tail)| >= 8 + ValueCount(m) + |tail|
  {
    match m
    case Relation(_, _, _, _, columns) =>
      ColumnsSize(columns, tail);
    case Insert(_, newTuple) =>
      ValuesSize(newTuple, tail);
    case Update(_, olds, newTuple) =>
      ValuesSize(newTuple, tail);
      OldsSize(olds, [KIND_NEW] + PutTuple(newTuple, tail));
    case Delete(_, oldTuple) =>
      ValuesSize(oldTuple.tuple, tail);
  }

  lemma {:induction false} MessagesSize(ms: seq<WireMessage>)
    requires WellFormed(ms)
    ensures |Print(ms)| >= 8 * |ms| + TotalValueCount(ms)
  {
    if ms != [] {
      MessageSize(ms[0], Print(ms[1..]));
      MessagesSize(ms[1..]);
    }
  }
}
