/**
 The decoder of src/wal/pgoutput.rs. Its parse functions move the cursor and push into vectors as the
 program does; each is proved to return what is left of the wire-level reading once the decoder has
 thrown away flags, types, replica identity and tuple kinds.
 */
module PgOutput {
  import opened Basics
  import opened ByteReading
  import opened Utf8
  import Wire = PgOutputWire

  datatype Relation = Relation(id: U32, namespace: Str, name: Str, columns: seq<Str>)

  datatype Value =
    | Null
    | Text(text: Str)
    | Int(number: int)

  datatype PgOutputMessage =
    | RelationMessage(relation: Relation)
    | Insert(relationId: U32, newValues: seq<Value>)
    | Update(relationId: U32, oldValues: Option<seq<Value>>, newValues: seq<Value>)
    | Delete(relationId: U32, deletedValues: seq<Value>)

  // ---------- erasure ----------

  function EraseValue(v: Wire.WireValue): Value {
    if v.Data? then Text(v.bytes) else Null
  }

  /** Text and binary columns become text, null and unchanged ones null, each in its place. */
  ghost predicate HoldsTuple(values: seq<Value>, t: Wire.WireTuple) {
    && |values| == |t|
    && forall i :: 0 <= i < |t| ==>
         match t[i]
         case Data(_, bytes) => values[i] == Text(bytes)
         case Null => values[i] == Null
         case Unchanged => values[i] == Null
  }

  function EraseTuple(t: Wire.WireTuple): (values: seq<Value>)
    ensures HoldsTuple(values, t)
  {
    if t == [] then [] else EraseTuple(t[..|t| - 1]) + [EraseValue(t[|t| - 1])]
  }

  function ColumnNames(cs: seq<Wire.WireColumn>): (names: seq<Str>)
    ensures |names| == |cs| && forall i :: 0 <= i < |cs| ==> names[i] == cs[i].name
  {
    if cs == [] then [] else ColumnNames(cs[..|cs| - 1]) + [cs[|cs| - 1].name]
  }

  /** Of the old tuples of an update only the last is kept. */
  function EraseOlds(olds: seq<Wire.OldTuple>): Option<seq<Value>> {
    if olds == [] then None else Some(EraseTuple(olds[|olds| - 1].tuple))
  }

  function EraseMessage(m: Wire.WireMessage): PgOutputMessage {
    match m
    case Relation(id, namespace, name, _, columns) => RelationMessage(Relation(id, namespace, name, ColumnNames(columns)))
    case Insert(id, newTuple) => Insert(id, EraseTuple(newTuple))
    case Update(id, olds, newTuple) => Update(id, EraseOlds(olds), EraseTuple(newTuple))
    case Delete(id, oldTuple) => Delete(id, EraseTuple(oldTuple.tuple))
  }

  function Erase(ms: seq<Wire.WireMessage>): (erased: seq<PgOutputMessage>)
    ensures |erased| == |ms|
    ensures forall i :: 0 <= i < |ms| ==> erased[i] == EraseMessage(ms[i])
  {
    if ms == [] then [] else Erase(ms[..|ms| - 1]) + [EraseMessage(ms[|ms| - 1])]
  }

  /** What a decoded message keeps of the message on the wire. */
  ghost predicate HoldsMessage(x: PgOutputMessage, m: Wire.WireMessage) {
    match m
    case Relation(id, namespace, name, _, columns) =>
      && x.RelationMessage? && x.relation.id == id && x.relation.namespace == namespace && x.relation.name == name
      && |x.relation.columns| == |columns|
      && forall i :: 0 <= i < |columns| ==> x.relation.columns[i] == columns[i].name
    case Insert(id, newTuple) =>
      x.Insert? && x.relationId == id && HoldsTuple(x.newValues, newTuple)
    case Update(id, olds, newTuple) =>
      && x.Update? && x.relationId == id && HoldsTuple(x.newValues, newTuple)
      && if olds == [] then x.oldValues == None
         else x.oldValues.Some? && HoldsTuple(x.oldValues.value, olds[|olds| - 1].tuple)
    case Delete(id, oldTuple) =>
      x.Delete? && x.relationId == id && HoldsTuple(x.deletedValues, oldTuple.tuple)
  }

  ghost predicate HoldsMessages(xs: seq<PgOutputMessage>, ms: seq<Wire.WireMessage>) {
    |xs| == |ms| && forall i :: 0 <= i < |ms| ==> HoldsMessage(xs[i], ms[i])
  }

  type Decoded = Result<seq<PgOutputMessage>, PgOutputError>

  function EraseMessages(r: Wire.Messages): Decoded {
    match r
    case Success(ms) => Success(Erase(ms))
    case Failure(e) => Failure(e)
  }

  /** What decoding a payload yields. */
  function Decode(data: seq<Byte>): Decoded {
    EraseMessages(Wire.TakeMessages(data))
  }

  function ErasedValue(p: Parsed<Wire.WireValue>): Parsed<Value> {
    match p
    case Done(v, rest) => Done(EraseValue(v), rest)
    case Fail(e) => Fail(e)
  }

  function ErasedColumn(p: Parsed<Wire.WireColumn>): Parsed<Str> {
    match p
    case Done(c, rest) => Done(c.name, rest)
    case Fail(e) => Fail(e)
  }

  function ErasedTuple(p: Parsed<Wire.WireTuple>): Parsed<seq<Value>> {
    match p
    case Done(t, rest) => Done(EraseTuple(t), rest)
    case Fail(e) => Fail(e)
  }

  function ErasedColumns(p: Parsed<seq<Wire.WireColumn>>): Parsed<seq<Str>> {
    match p
    case Done(cs, rest) => Done(ColumnNames(cs), rest)
    case Fail(e) => Fail(e)
  }

  function ErasedRelation(p: Parsed<Wire.WireMessage>): Parsed<Relation>
    requires p.Done? ==> p.value.Relation?
  {
    match p
    case Done(m, rest) => Done(EraseMessage(m).relation, rest)
    case Fail(e) => Fail(e)
  }

  function ErasedMessage(p: Parsed<Wire.WireMessage>): Parsed<PgOutputMessage> {
    match p
    case Done(m, rest) => Done(EraseMessage(m), rest)
    case Fail(e) => Fail(e)
  }

  // ---------- the parser ----------

  /** One iteration of the loop of `parse_tuple`. */
  method ParseValue(reader: ByteReader) returns (r: Result<Value, PgOutputError>)
    requires reader.Valid()
    modifies reader
    ensures reader.Valid()
    ensures Agrees(r, reader.Rest(), ErasedValue(Wire.TakeValue(old(reader.Rest()))))
  {
    hide TakeU8, TakeI32, TakeBytes;
    var kind :- reader.ReadU8("tuple column kind");
    if kind == Wire.KIND_NULL {
      return Success(Null);
    } else if kind == Wire.KIND_UNCHANGED {
      return Success(Null);
    } else if kind == Wire.KIND_TEXT || kind == Wire.KIND_BINARY {
      var len :- reader.ReadI32("tuple column length");
      if len < 0 {
        return Failure(Truncated("tuple column bytes"));
      }
      var bytes :- reader.ReadBytes(len, "tuple column bytes");
      if !ValidUtf8(bytes) {
        return Failure(InvalidUtf8("tuple column"));
      }
      return Success(Text(bytes));
    } else {
      return Failure(UnsupportedTupleKind(kind));
    }
  }

  method ParseTuple(reader: ByteReader) returns (r: Result<seq<Value>, PgOutputError>)
    requires reader.Valid()
    modifies reader
    ensures reader.Valid()
    ensures Agrees(r, reader.Rest(), ErasedTuple(Wire.TakeTuple(old(reader.Rest()))))
  {
    hide Wire.TakeValue;
    var numColumns :- reader.ReadU16("tuple column count");
    var values: seq<Value> := [];
    ghost var start, wires: Wire.WireTuple := reader.Rest(), [];
    Wire.PrependNothing(Wire.TakeValues(start, numColumns));
    for i := 0 to numColumns
      invariant reader.Valid()
      invariant values == EraseTuple(wires)
      invariant Wire.TakeValues(start, numColumns)
             == Wire.Prepend(wires, Wire.TakeValues(reader.Rest(), numColumns - i))
    {
      ghost var p := Wire.TakeValue(reader.Rest());
      var value :- ParseValue(reader);
      values := values + [value];
      Wire.PrependTwice(wires, p.value, Wire.TakeValues(reader.Rest(), numColumns - i - 1));
      assert (wires + [p.value])[..|wires|] == wires;
      wires := wires + [p.value];
    }
    assert wires + [] == wires;
    return Success(values);
  }

  /** One iteration of the column loop of `parse_relation`. */
  method ParseColumn(reader: ByteReader) returns (r: Result<Str, PgOutputError>)
    requires reader.Valid()
    modifies reader
    ensures reader.Valid()
    ensures Agrees(r, reader.Rest(), ErasedColumn(Wire.TakeColumn(old(reader.Rest()))))
  {
    hide TakeU8, TakeU32, TakeI32, TakeCString;
    var flags :- reader.ReadU8("relation column flags");
    var columnName :- reader.ReadCString("relation column name");
    var typeOid :- reader.ReadU32("relation column type oid");
    var typeModifier :- reader.ReadI32("relation column type modifier");
    return Success(columnName);
  }

  /** The column loop of `parse_relation`. */
  method ParseColumns(reader: ByteReader, numColumns: nat) returns (r: Result<seq<Str>, PgOutputError>)
    requires reader.Valid()
    modifies reader
    ensures reader.Valid()
    ensures Agrees(r, reader.Rest(), ErasedColumns(Wire.TakeColumns(old(reader.Rest()), numColumns)))
  {
    hide Wire.TakeColumn;
    var columns: seq<Str> := [];
    ghost var start, wires: seq<Wire.WireColumn> := reader.Rest(), [];
    Wire.PrependNothing(Wire.TakeColumns(start, numColumns));
    for i := 0 to numColumns
      invariant reader.Valid()
      invariant columns == ColumnNames(wires)
      invariant Wire.TakeColumns(start, numColumns)
             == Wire.Prepend(wires, Wire.TakeColumns(reader.Rest(), numColumns - i))
    {
      ghost var p := Wire.TakeColumn(reader.Rest());
      var column :- ParseColumn(reader);
      columns := columns + [column];
      Wire.PrependTwice(wires, p.value, Wire.TakeColumns(reader.Rest(), numColumns - i - 1));
      assert (wires + [p.value])[..|wires|] == wires;
      wires := wires + [p.value];
    }
    assert wires + [] == wires;
    return Success(columns);
  }

  method ParseRelation(reader: ByteReader) returns (r: Result<Relation, PgOutputError>)
    requires reader.Valid()
    modifies reader
    ensures reader.Valid()
    ensures Agrees(r, reader.Rest(), ErasedRelation(Wire.TakeRelation(old(reader.Rest()))))
  {
    hide TakeU8, TakeU16, TakeU32, TakeCString, Wire.TakeColumns;
    var id :- reader.ReadU32("relation id");
    var namespace :- reader.ReadCString("relation namespace");
    var name :- reader.ReadCString("relation name");
    var replicaIdentity :- reader.ReadU8("replica identity");
    var numColumns :- reader.ReadU16("relation column count");
    var columns :- ParseColumns(reader, numColumns);
    return Success(Relation(id, namespace, name, columns));
  }

  method ParseInsert(reader: ByteReader) returns (r: Result<PgOutputMessage, PgOutputError>)
    requires reader.Valid()
    modifies reader
    ensures reader.Valid()
    ensures Agrees(r, reader.Rest(), ErasedMessage(Wire.TakeInsert(old(reader.Rest()))))
  {
    hide TakeU8, TakeU32, Wire.TakeTuple;
    var relationId :- reader.ReadU32("insert relation id");
    var kind :- reader.ReadU8("insert tuple kind");
    if kind != Wire.KIND_NEW {
      return Failure(UnknownMessageTag(kind));
    }
    var newValues :- ParseTuple(reader);
    return Success(Insert(relationId, newValues));
  }

  method ParseUpdate(reader: ByteReader) returns (r: Result<PgOutputMessage, PgOutputError>)
    requires reader.Valid()
    modifies reader
    ensures reader.Valid()
    ensures Agrees(r, reader.Rest(), ErasedMessage(Wire.TakeUpdate(old(reader.Rest()))))
  {
    hide TakeU8, TakeU32, Wire.TakeTuple;
    var relationId :- reader.ReadU32("update relation id");

    var oldValues: Option<seq<Value>> := None;
    ghost var start, olds: seq<Wire.OldTuple> := reader.Rest(), [];
    Wire.PrependNoOlds(Wire.TakeUpdateTuples(start));
    while true
      invariant reader.Valid()
      invariant oldValues == EraseOlds(olds)
      invariant Wire.TakeUpdateTuples(start) == Wire.PrependOlds(olds, Wire.TakeUpdateTuples(reader.Rest()))
      decreases |reader.Rest()|
    {
      var kind :- reader.ReadU8("update tuple kind");
      ghost var p := Wire.TakeTuple(reader.Rest());
      if kind == Wire.KIND_KEY || kind == Wire.KIND_OLD {
        var values :- ParseTuple(reader);
        oldValues := Some(values);
        ghost var o := Wire.OldTuple(kind == Wire.KIND_KEY, p.value);
        Wire.PrependOldsTwice(olds, o, Wire.TakeUpdateTuples(reader.Rest()));
        olds := olds + [o];
      } else if kind == Wire.KIND_NEW {
        var newValues :- ParseTuple(reader);
        assert olds + [] == olds;
        return Success(Update(relationId, oldValues, newValues));
      } else {
        return Failure(UnknownMessageTag(kind));
      }
    }
  }

  method ParseDelete(reader: ByteReader) returns (r: Result<PgOutputMessage, PgOutputError>)
    requires reader.Valid()
    modifies reader
    ensures reader.Valid()
    ensures Agrees(r, reader.Rest(), ErasedMessage(Wire.TakeDelete(old(reader.Rest()))))
  {
    hide TakeU8, TakeU32, Wire.TakeTuple;
    var relationId :- reader.ReadU32("delete relation id");
    var kind :- reader.ReadU8("delete tuple kind");
    if kind != Wire.KIND_KEY && kind != Wire.KIND_OLD {
      return Failure(UnknownMessageTag(kind));
    }
    var oldValues :- ParseTuple(reader);
    return Success(Delete(relationId, oldValues));
  }

  /** One iteration of the message loop. */
  method ParseMessage(reader: ByteReader) returns (r: Result<PgOutputMessage, PgOutputError>)
    requires reader.Valid()
    modifies reader
    ensures reader.Valid()
    ensures Agrees(r, reader.Rest(), ErasedMessage(Wire.TakeMessage(old(reader.Rest()))))
  {
    hide TakeU8, Wire.TakeRelation, Wire.TakeInsert, Wire.TakeUpdate, Wire.TakeDelete;
    var tag :- reader.ReadU8("message tag");
    if tag == Wire.TAG_RELATION {
      var relation :- ParseRelation(reader);
      return Success(RelationMessage(relation));
    } else if tag == Wire.TAG_INSERT {
      r := ParseInsert(reader);
    } else if tag == Wire.TAG_UPDATE {
      r := ParseUpdate(reader);
    } else if tag == Wire.TAG_DELETE {
      r := ParseDelete(reader);
    } else {
      return Failure(UnknownMessageTag(tag));
    }
  }

  method ParsePgOutputMessages(data: seq<Byte>) returns (r: Decoded)
    ensures r == Decode(data)
  {
    hide Wire.TakeMessage, Wire.TakeMessages, Wire.After, Erase, EraseMessage;
    var reader := new ByteReader(data);
    var messages: seq<PgOutputMessage> := [];
    ghost var wires: seq<Wire.WireMessage> := [];
    Wire.AfterNothing(Wire.TakeMessages(data));
    EraseNothing();
    while !reader.IsEmpty()
      invariant reader.Valid() && fresh(reader)
      invariant messages == Erase(wires)
      invariant Wire.TakeMessages(data) == Wire.After(wires, Wire.TakeMessages(reader.Rest()))
      decreases |reader.Rest()|
    {
      ghost var p := Wire.TakeMessage(reader.Rest());
      Wire.MessageLoopStep(wires, reader.Rest());
      var message :- ParseMessage(reader);
      messages := messages + [message];
      EraseOne(wires, p.value);
      wires := wires + [p.value];
    }
    Wire.MessageLoopStep(wires, reader.Rest());
    return Success(messages);
  }

  lemma EraseNothing()
    ensures Erase([]) == []
  {
  }

  lemma EraseOne(ms: seq<Wire.WireMessage>, m: Wire.WireMessage)
    ensures Erase(ms + [m]) == Erase(ms) + [EraseMessage(m)]
  {
  }

  // ---------- what decoding means ----------

  lemma ErasureHolds(ms: seq<Wire.WireMessage>)
    ensures HoldsMessages(Erase(ms), ms)
  {
    forall i | 0 <= i < |ms| ensures HoldsMessage(Erase(ms)[i], ms[i]) {
      MessageHolds(ms[i]);
    }
  }

  lemma MessageHolds(m: Wire.WireMessage)
    ensures HoldsMessage(EraseMessage(m), m)
  {
    hide HoldsTuple;
  }

  /**
   Soundness and completeness: decoding succeeds exactly on the printed lists of wire messages. It returns, message
   for message and column for column, what the decoder keeps of the one list that was printed: its erasure.
   */
  lemma DecodeExactlyThePrinted(data: seq<Byte>)
    ensures Decode(data).Success? <==> exists ms :: Wire.WellFormed(ms) && Wire.Print(ms) == data
    ensures forall ms :: Wire.WellFormed(ms) && Wire.Print(ms) == data ==>
              Decode(data) == Success(Erase(ms)) && HoldsMessages(Decode(data).value, ms)
  {
    hide Wire.TakeMessages, Wire.Print, Wire.WellFormed, Erase, HoldsMessages;
    forall ms | Wire.WellFormed(ms) && Wire.Print(ms) == data
      ensures Decode(data) == Success(Erase(ms)) && HoldsMessages(Erase(ms), ms)
    {
      Wire.ReadsExactlyThePrinted(data, ms);
      ErasureHolds(ms);
    }
    if Decode(data).Success? {
      Wire.MessagesSound(data);
    }
  }

  function Append(front: seq<PgOutputMessage>, r: Decoded): Decoded {
    match r
    case Success(ms) => Success(front + ms)
    case Failure(e) => Failure(e)
  }

  /** Decoding a payload followed by more bytes yields its messages and then what the rest yields. */
  lemma DecodeConcatenation(a: seq<Byte>, b: seq<Byte>)
    ensures match Decode(a)
            case Success(ms) => Decode(a + b) == Append(ms, Decode(b))
            case Failure(e) => e.Truncated? || Decode(a + b) == Failure(e)
  {
    Wire.Concatenation(a, b);
    if Wire.TakeMessages(a).Success? && Wire.TakeMessages(b).Success? {
      EraseAppend(Wire.TakeMessages(a).value, Wire.TakeMessages(b).value);
    }
  }

  lemma EraseAppend(ms: seq<Wire.WireMessage>, ns: seq<Wire.WireMessage>)
    ensures Erase(ms + ns) == Erase(ms) + Erase(ns)
  {
  }

  /** A prefix of a decodable payload decodes to a prefix of its messages or is reported as truncated. */
  lemma DecodePrefix(data: seq<Byte>, n: nat)
    requires Decode(data).Success? && n <= |data|
    ensures match Decode(data[..n])
            case Success(front) => front <= Decode(data).value
            case Failure(e) => e.Truncated?
  {
    Wire.PrefixCode(data, n);
  }

  /** The values a decoded message holds. */
  function ValuesHeld(m: PgOutputMessage): nat {
    match m
    case RelationMessage(_) => 0
    case Insert(_, newValues) => |newValues|
    case Update(_, oldValues, newValues) => (if oldValues.Some? then |oldValues.value| else 0) + |newValues|
    case Delete(_, oldValues) => |oldValues|
  }

  function TotalValuesHeld(ms: seq<PgOutputMessage>): nat {
    if ms == [] then 0 else ValuesHeld(ms[0]) + TotalValuesHeld(ms[1..])
  }

  lemma {:induction false} LastOldCounts(olds: seq<Wire.OldTuple>)
    requires olds != []
    ensures |olds[|olds| - 1].tuple| <= Wire.OldValueCount(olds)
  {
    if |olds| > 1 {
      LastOldCounts(olds[1..]);
    }
  }

  lemma {:induction false} ErasureHoldsFewer(ms: seq<Wire.WireMessage>)
    ensures TotalValuesHeld(Erase(ms)) <= Wire.TotalValueCount(ms)
  {
    if ms != [] {
      if ms[0].Update? && ms[0].olds != [] {
        LastOldCounts(ms[0].olds);
      }
      ErasureHoldsFewer(ms[1..]);
      assert Erase(ms)[1..] == Erase(ms[1..]);
    }
  }

  /** A payload cannot make the decoder build more than its own length allows. */
  lemma DecodedSize(data: seq<Byte>)
    requires Decode(data).Success?
    ensures 8 * |Decode(data).value| + TotalValuesHeld(Decode(data).value) <= |data|
  {
    Wire.MessagesSound(data);
    var ms := Wire.TakeMessages(data).value;
    Wire.MessagesSize(ms);
    ErasureHoldsFewer(ms);
  }
}
