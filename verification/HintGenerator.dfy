/**
 src/wal/hint_generator.rs: which hints a row change gives rise to. `RowHint` says it once more, from
 the relation and the raw values of the change, without building the row.
 */
module HintGenerator {
  import opened Basics
  import opened PgOutput
  import opened WalTypes
  import opened ByteReading
  import opened Utf8
  import Wire = PgOutputWire

  const COMMENTS: Str := ['c' as int, 'o' as int, 'm' as int, 'm' as int, 'e' as int, 'n' as int, 't' as int, 's' as int]
  const DOCUMENTS: Str := ['d' as int, 'o' as int, 'c' as int, 'u' as int, 'm' as int, 'e' as int, 'n' as int, 't' as int, 's' as int]
  const DOCUMENT_ID: Str := ['d' as int, 'o' as int, 'c' as int, 'u' as int, 'm' as int, 'e' as int, 'n' as int, 't' as int, '_' as int, 'i' as int, 'd' as int]
  const ID: Str := ['i' as int, 'd' as int]

  datatype HintGenError = MissingColumn(table: Str, column: Str)

  function GetTextColumn(t: TupleData, column: Str): Option<Str> {
    if column in t.columns && t.columns[column].Text? then Some(t.columns[column].text) else None
  }

  function RequireTextColumn(table: Str, t: TupleData, column: Str): Result<Str, HintGenError> {
    match GetTextColumn(t, column)
    case Some(text) => Success(text)
    case None => Failure(MissingColumn(table, column))
  }

  function CommentHint(document: Str): QueryHint {
    QueryHint(COMMENTS, DOCUMENT_ID, document)
  }

  function DocumentHint(document: Str): QueryHint {
    QueryHint(DOCUMENTS, ID, document)
  }

  function GenerateInvalidationHints(e: WalEvent): Result<seq<QueryHint>, HintGenError> {
    match e
    case InsertEvent(_, relationName, newTuple) =>
      if relationName == COMMENTS then
        var document :- RequireTextColumn(COMMENTS, newTuple, DOCUMENT_ID);
        Success([CommentHint(document)])
      else Success([])
    case UpdateEvent(_, relationName, oldTuple, newTuple) =>
      if relationName == COMMENTS then
        var newDocument :- RequireTextColumn(COMMENTS, newTuple, DOCUMENT_ID);
        var oldDocument := if oldTuple.Some? then GetTextColumn(oldTuple.value, DOCUMENT_ID) else None;
        if oldDocument.Some? && oldDocument.value != newDocument then
          Success([CommentHint(oldDocument.value), CommentHint(newDocument)])
        else Success([CommentHint(newDocument)])
      else Success([])
    case DeleteEvent(_, relationName, deletedTuple) =>
      if relationName == COMMENTS then
        var document :- RequireTextColumn(COMMENTS, deletedTuple, DOCUMENT_ID);
        Success([CommentHint(document)])
      else if relationName == DOCUMENTS then
        var document :- RequireTextColumn(DOCUMENTS, deletedTuple, ID);
        Success([DocumentHint(document)])
      else Success([])
  }

  function Ascii(s: string): Str
    requires forall i :: 0 <= i < |s| ==> s[i] as int < 0x80
  {
    seq(|s|, i requires 0 <= i < |s| => s[i] as int)
  }

  lemma NamesAreSpelled()
    ensures COMMENTS == Ascii("comments") && DOCUMENTS == Ascii("documents")
    ensures DOCUMENT_ID == Ascii("document_id") && ID == Ascii("id")
  {
  }

  /** The row event of a change to a known relation. */
  function EventOf(rel: Relation, m: PgOutputMessage): WalEvent
    requires !m.RelationMessage?
  {
    match m
    case Insert(id, newValues) => InsertEvent(id, rel.name, FromValues(rel.columns, newValues))
    case Update(id, oldValues, newValues) =>
      UpdateEvent(id, rel.name,
        if oldValues.Some? then Some(FromValues(rel.columns, oldValues.value)) else None,
        FromValues(rel.columns, newValues))
    case Delete(id, deletedValues) => DeleteEvent(id, rel.name, FromValues(rel.columns, deletedValues))
  }

  /** The hints a change contributes: none when a needed column is missing or is not text. */
  function HintsOf(rel: Relation, m: PgOutputMessage): set<QueryHint>
    requires !m.RelationMessage?
  {
    match GenerateInvalidationHints(EventOf(rel, m))
    case Success(hints) => set h | h in hints
    case Failure(_) => {}
  }

  // ---------- the same, from the raw values ----------

  /** In a row of the relation, the named column holds this text. */
  ghost predicate HoldsText(rel: Relation, values: seq<Value>, column: Str, text: Str) {
    exists i: nat :: LastAt(rel.columns, column, i) && i < |values| && values[i] == Text(text)
  }

  ghost predicate HoldsSomeText(rel: Relation, values: seq<Value>, column: Str) {
    exists text :: HoldsText(rel, values, column, text)
  }

  /** The hint is for the comments of the document that is its value. */
  predicate NamesComments(h: QueryHint) {
    h.table == COMMENTS && h.column == DOCUMENT_ID
  }

  predicate NamesDocument(h: QueryHint) {
    h.table == DOCUMENTS && h.column == ID
  }

  ghost predicate RowHint(rel: Relation, m: PgOutputMessage, h: QueryHint)
    requires !m.RelationMessage?
  {
    match m
    case Insert(_, newValues) =>
      rel.name == COMMENTS && NamesComments(h) && HoldsText(rel, newValues, DOCUMENT_ID, h.value)
    case Update(_, oldValues, newValues) =>
      && rel.name == COMMENTS && NamesComments(h)
      && HoldsSomeText(rel, newValues, DOCUMENT_ID)
      && (|| HoldsText(rel, newValues, DOCUMENT_ID, h.value)
          || (oldValues.Some? && HoldsText(rel, oldValues.value, DOCUMENT_ID, h.value)))
    case Delete(_, deletedValues) =>
      || (rel.name == COMMENTS && NamesComments(h) && HoldsText(rel, deletedValues, DOCUMENT_ID, h.value))
      || (rel.name == DOCUMENTS && NamesDocument(h) && HoldsText(rel, deletedValues, ID, h.value))
  }

  lemma TextColumn(rel: Relation, values: seq<Value>, column: Str, text: Str)
    ensures GetTextColumn(FromValues(rel.columns, values), column) == Some(text) <==> HoldsText(rel, values, column, text)
  {
    RowHoldsLastValues(rel.columns, values);
    if column in rel.columns {
      var i := LastPosition(rel.columns, column);
    }
  }

  lemma NoTextColumn(rel: Relation, values: seq<Value>, column: Str)
    ensures GetTextColumn(FromValues(rel.columns, values), column).None? <==> !HoldsSomeText(rel, values, column)
  {
    var got := GetTextColumn(FromValues(rel.columns, values), column);
    if got.Some? {
      TextColumn(rel, values, column, got.value);
    }
    forall text | HoldsText(rel, values, column, text) ensures got == Some(text) {
      TextColumn(rel, values, column, text);
    }
  }

  /** The columns of a row that the relation names, each with the value at its last position. */
  ghost predicate CarriesRow(t: TupleData, rel: Relation, values: seq<Value>) {
    && (forall c :: c in t.columns <==> c in rel.columns)
    && forall c, i: nat :: LastAt(rel.columns, c, i) ==> t.columns[c] == if i < |values| then values[i] else Null
  }

  /** A row event names the relation and carries the change's rows, the old one apart from the new one. */
  lemma EventCarriesChange(rel: Relation, m: PgOutputMessage)
    requires !m.RelationMessage?
    ensures var e := EventOf(rel, m);
            && e.relationId == m.relationId && e.relationName == rel.name
            && (m.Insert? <==> e.InsertEvent?) && (m.Update? <==> e.UpdateEvent?)
            && (m.Insert? ==> CarriesRow(e.newTuple, rel, m.newValues))
            && (m.Update? ==> CarriesRow(e.newTuple, rel, m.newValues) && (e.oldTuple.Some? <==> m.oldValues.Some?))
            && (m.Update? && m.oldValues.Some? ==> CarriesRow(e.oldTuple.value, rel, m.oldValues.value))
            && (m.Delete? ==> CarriesRow(e.deletedTuple, rel, m.deletedValues))
  {
    match m
    case Insert(_, newValues) => RowHoldsLastValues(rel.columns, newValues);
    case Update(_, oldValues, newValues) =>
      RowHoldsLastValues(rel.columns, newValues);
      if oldValues.Some? {
        RowHoldsLastValues(rel.columns, oldValues.value);
      }
    case Delete(_, deletedValues) => RowHoldsLastValues(rel.columns, deletedValues);
  }

  /** The generator fails exactly when the document of the change is not given as text, and names what is missing. */
  lemma GeneratorFailsExactly(rel: Relation, m: PgOutputMessage)
    requires !m.RelationMessage?
    ensures var r := GenerateInvalidationHints(EventOf(rel, m));
            var given := if m.Delete? then m.deletedValues else m.newValues;
            && (r.Failure? <==>
                  || (rel.name == COMMENTS && !HoldsSomeText(rel, given, DOCUMENT_ID))
                  || (rel.name == DOCUMENTS && m.Delete? && !HoldsSomeText(rel, given, ID)))
            && (r.Failure? ==> r.error == MissingColumn(rel.name, if rel.name == COMMENTS then DOCUMENT_ID else ID))
  {
    var given := if m.Delete? then m.deletedValues else m.newValues;
    NoTextColumn(rel, given, DOCUMENT_ID);
    NoTextColumn(rel, given, ID);
  }

  /** The list has no hint twice; of the two hints of an update that moves a comment, the old document's comes first. */
  lemma GeneratesInOrder(rel: Relation, m: PgOutputMessage)
    requires !m.RelationMessage? && GenerateInvalidationHints(EventOf(rel, m)).Success?
    ensures var hints := GenerateInvalidationHints(EventOf(rel, m)).value; |hints| <= 2 && NoDuplicates(hints)
    ensures var hints := GenerateInvalidationHints(EventOf(rel, m)).value;
            |hints| == 2 ==>
              && m.Update? && m.oldValues.Some?
              && HoldsText(rel, m.oldValues.value, DOCUMENT_ID, hints[0].value)
              && HoldsText(rel, m.newValues, DOCUMENT_ID, hints[1].value)
  {
    if m.Update? && m.oldValues.Some? {
      var hints := GenerateInvalidationHints(EventOf(rel, m)).value;
      if |hints| == 2 {
        TextColumn(rel, m.oldValues.value, DOCUMENT_ID, hints[0].value);
        TextColumn(rel, m.newValues, DOCUMENT_ID, hints[1].value);
      }
    }
  }

  /** The generator emits a hint for a change exactly when the change's values call for it. */
  lemma GeneratesExactly(rel: Relation, m: PgOutputMessage, h: QueryHint)
    requires !m.RelationMessage?
    ensures h in HintsOf(rel, m) <==> RowHint(rel, m, h)
  {
    match m
    case Insert(_, newValues) =>
      TextColumn(rel, newValues, DOCUMENT_ID, h.value);
    case Update(_, oldValues, newValues) =>
      TextColumn(rel, newValues, DOCUMENT_ID, h.value);
      NoTextColumn(rel, newValues, DOCUMENT_ID);
      if oldValues.Some? {
        TextColumn(rel, oldValues.value, DOCUMENT_ID, h.value);
      }
    case Delete(_, deletedValues) =>
      TextColumn(rel, deletedValues, DOCUMENT_ID, h.value);
      TextColumn(rel, deletedValues, ID, h.value);
  }

  /** A hint of one of the two kinds the generator knows. */
  predicate Generated(h: QueryHint) {
    NamesComments(h) || NamesDocument(h)
  }

  /**
   What a change ought to invalidate: the document it now belongs to and the one it belonged to.
   */
  ghost predicate Affects(rel: Relation, m: PgOutputMessage, document: Str)
    requires !m.RelationMessage?
  {
    match m
    case Insert(_, newValues) => rel.name == COMMENTS && HoldsText(rel, newValues, DOCUMENT_ID, document)
    case Update(_, oldValues, newValues) =>
      && rel.name == COMMENTS
      && (|| HoldsText(rel, newValues, DOCUMENT_ID, document)
          || (oldValues.Some? && HoldsText(rel, oldValues.value, DOCUMENT_ID, document)))
    case Delete(_, deletedValues) =>
      || (rel.name == COMMENTS && HoldsText(rel, deletedValues, DOCUMENT_ID, document))
      || (rel.name == DOCUMENTS && HoldsText(rel, deletedValues, ID, document))
  }

  /** An update of a comment whose new `document_id` is not text loses the invalidation of the old one. */
  ghost predicate Loses(rel: Relation, m: PgOutputMessage, document: Str) {
    && m.Update? && rel.name == COMMENTS
    && !HoldsSomeText(rel, m.newValues, DOCUMENT_ID)
    && m.oldValues.Some? && HoldsText(rel, m.oldValues.value, DOCUMENT_ID, document)
  }

  /** A document is affected if and only if a hint names it or its invalidation is lost; a change with a loss has no hints. */
  lemma AffectedIsNamedOrLost(rel: Relation, m: PgOutputMessage, document: Str)
    requires !m.RelationMessage?
    ensures Affects(rel, m, document) <==> (exists h :: h in HintsOf(rel, m) && h.value == document) || Loses(rel, m, document)
    ensures Loses(rel, m, document) ==> HintsOf(rel, m) == {}
  {
    forall h ensures h in HintsOf(rel, m) <==> RowHint(rel, m, h) {
      GeneratesExactly(rel, m, h);
    }
    if Affects(rel, m, document) && !Loses(rel, m, document) {
      if m.Delete? && rel.name == DOCUMENTS {
        assert RowHint(rel, m, DocumentHint(document));
      } else {
        assert CommentHint(document).value == document;
        assert RowHint(rel, m, CommentHint(document));
      }
    }
  }

  /** The hints name exactly the affected documents, unless the change is an update of that one kind. */
  lemma HintsNameAffectedDocuments(rel: Relation, m: PgOutputMessage)
    requires !m.RelationMessage?
    ensures (forall document :: Affects(rel, m, document) <==> exists h :: h in HintsOf(rel, m) && h.value == document)
       <==> !exists document :: Loses(rel, m, document)
  {
    forall document
      ensures Affects(rel, m, document) <==> (exists h :: h in HintsOf(rel, m) && h.value == document) || Loses(rel, m, document)
      ensures Loses(rel, m, document) ==> HintsOf(rel, m) == {}
    {
      AffectedIsNamedOrLost(rel, m, document);
    }
  }

  const REPLICA_IDENTITY_FULL: Byte := 'f' as int

  lemma NamesAreCStrings()
    ensures IsCString([]) && IsCString(COMMENTS) && IsCString(DOCUMENT_ID)
  {
    AsciiIsValid([]);
    AsciiIsValid(COMMENTS);
    AsciiIsValid(DOCUMENT_ID);
  }

  /** A comment's row before and after an update that leaves its `document_id` alone, as sent when the value is TOASTed. */
  function UnchangedUpdate(document: Str): seq<Wire.WireMessage> {
    [Wire.Relation(1, [], COMMENTS, REPLICA_IDENTITY_FULL, [Wire.WireColumn(0, DOCUMENT_ID, 25, -1)]),
     Wire.Update(1, [Wire.OldTuple(false, [Wire.Data(false, document)])], [Wire.Unchanged])]
  }

  lemma UnchangedUpdateDecodes(document: Str)
    requires IsCString(document) && |document| < TWO_TO_31
    ensures var ms := UnchangedUpdate(document);
            && Wire.WellFormed(ms)
            && Decode(Wire.Print(ms)) == Success([RelationMessage(Relation(1, [], COMMENTS, [DOCUMENT_ID])),
                                                  Update(1, Some([Text(document)]), [Null])])
  {
    var ms := UnchangedUpdate(document);
    NamesAreCStrings();
    hide ValidUtf8, Wire.Print, Decode;
    assert Wire.WellFormedTuple([Wire.Data(false, document)]) && Wire.WellFormedTuple([Wire.Unchanged]);
    DecodeExactlyThePrinted(Wire.Print(ms));
    assert Erase(ms) == [EraseMessage(ms[0]), EraseMessage(ms[1])];
    assert EraseTuple([Wire.Data(false, document)]) == [Text(document)] && EraseTuple([Wire.Unchanged]) == [Null];
    assert ColumnNames([Wire.WireColumn(0, DOCUMENT_ID, 25, -1)]) == [DOCUMENT_ID];
  }

  /**
   An update that loses its document can be received: the relation replicates whole old rows, and the new row
   carries its `document_id` as an unchanged TOASTed value, which is decoded to null.
   */
  lemma AnOldDocumentIsLost(document: Str) returns (data: seq<Byte>, rel: Relation, m: PgOutputMessage)
    requires IsCString(document) && |document| < TWO_TO_31
    ensures Decode(data) == Success([RelationMessage(rel), m]) && m.Update?
    ensures Affects(rel, m, document) && HintsOf(rel, m) == {}
  {
    UnchangedUpdateDecodes(document);
    data := Wire.Print(UnchangedUpdate(document));
    rel, m := Relation(1, [], COMMENTS, [DOCUMENT_ID]), Update(1, Some([Text(document)]), [Null]);
    hide Decode, UnchangedUpdate;
    assert LastAt(rel.columns, DOCUMENT_ID, 0);
    assert HoldsText(rel, m.oldValues.value, DOCUMENT_ID, document);
    AffectedIsNamedOrLost(rel, m, document);
  }
}
