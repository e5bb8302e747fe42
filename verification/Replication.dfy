/**
 The event loop of src/wal/replication.rs. The outside world is an object that records what the reader does to
 it, in order, and that answers as the rooms' command channel does.
 */
module Replication {
  import opened Basics
  import opened PgOutput
  import opened WalTypes
  import opened HintGenerator
  import opened Router
  import opened WalLog
  import opened Channels
  import opened Sink

  // ---------- which traces are right ----------

  /** One attempt for each of the documents, in any order, with the keys of its hints in any order. */
  ghost predicate Delivers(attempts: seq<Effect>, hints: set<QueryHint>, timestamp: U64, documents: set<Str>) {
    && (forall i :: 0 <= i < |attempts| ==>
          && attempts[i].Attempt? && attempts[i].timestamp == timestamp
          && attempts[i].document in documents
          && IsMessageFor(attempts[i].keys, hints, attempts[i].document))
    && (forall i, j :: 0 <= i < j < |attempts| ==> attempts[i].document != attempts[j].document)
    && (forall d :: d in documents ==> exists i :: 0 <= i < |attempts| && attempts[i].document == d)
  }

  /** The documents that the hints are routed to. */
  ghost function Destinations(hints: set<QueryHint>): set<Str> {
    set h | h in hints && RouteKey(h).Some? :: RouteKey(h).value
  }

  ghost predicate IsBatch(attempts: seq<Effect>, hints: set<QueryHint>, timestamp: U64) {
    Delivers(attempts, hints, timestamp, Destinations(hints))
  }

  lemma DeliversOneMore(attempts: seq<Effect>, hints: set<QueryHint>, timestamp: U64, documents: set<Str>, a: Effect)
    requires Delivers(attempts, hints, timestamp, documents)
    requires a.Attempt? && a.timestamp == timestamp && a.document !in documents && IsMessageFor(a.keys, hints, a.document)
    ensures Delivers(attempts + [a], hints, timestamp, documents + {a.document})
  {
    var more := attempts + [a];
    forall d | d in documents + {a.document}
      ensures exists i :: 0 <= i < |more| && more[i].document == d
    {
      if d == a.document {
        assert more[|attempts|].document == d;
      } else {
        var i :| 0 <= i < |attempts| && attempts[i].document == d;
        assert more[i].document == d;
      }
    }
  }

  lemma NothingDelivered(hints: set<QueryHint>, timestamp: U64)
    ensures Delivers([], hints, timestamp, {})
  {
  }

  lemma RoutedMessage(hints: set<QueryHint>, routed: map<Str, seq<QueryHint>>, document: Str)
    requires IsRouting(hints, routed) && document in routed
    ensures IsMessageFor(Keys(routed[document]), hints, document)
  {
  }

  lemma RoutedToDestinations(hints: set<QueryHint>, routed: map<Str, seq<QueryHint>>)
    requires IsRouting(hints, routed)
    ensures routed.Keys == Destinations(hints)
  {
    forall d | d in routed ensures d in Destinations(hints) {
      assert routed[d][0] in routed[d];
    }
  }

  ghost predicate IsMessageFor(keys: seq<Str>, hints: set<QueryHint>, document: Str) {
    exists bucket :: bucket != [] && IsBucket(bucket, hints, document) && keys == Keys(bucket)
  }

  function PendingHints(items: seq<Item>): set<QueryHint> {
    if Pending(items).Some? then Pending(items).value else {}
  }

  /** Each commit of the log shows in the trace as a batch for its transaction and then its LSN. */
  ghost predicate Refines(items: seq<Item>, trace: seq<Effect>)
    decreases |items|, 0
  {
    if items == [] then trace == [] else
      var k := |items| - 1;
      if items[k].CommitMark? then
        && trace != []
        && trace[|trace| - 1] == Applied(items[k].endLsn)
        && exists t :: 0 <= t < |trace| && CommitShows(items[..k], items[k].timestamp, trace, t)
      else Refines(items[..k], trace)
  }

  /** The trace is, up to `t`, one of the log before the commit, and then the batch of the commit. */
  ghost predicate CommitShows(items: seq<Item>, timestamp: U64, trace: seq<Effect>, t: nat)
    requires t < |trace|
    decreases |items|, 1
  {
    Refines(items, trace[..t]) && IsBatch(trace[t..|trace| - 1], PendingHints(items), timestamp)
  }

  function FullCount(trace: seq<Effect>): nat {
    if trace == [] then 0 else
      var k := |trace| - 1;
      FullCount(trace[..k]) + if trace[k].Attempt? && trace[k].outcome.Full? then 1 else 0
  }

  function FullAt(trace: seq<Effect>): set<int> {
    set i | 0 <= i < |trace| && trace[i].Attempt? && trace[i].outcome.Full?
  }

  /** The attempts that a full channel turned away are counted once each. */
  lemma {:induction false} FullCounted(trace: seq<Effect>)
    ensures FullCount(trace) == |FullAt(trace)|
  {
    if trace == [] {
      assert FullAt(trace) == {};
    } else {
      var k := |trace| - 1;
      FullCounted(trace[..k]);
      assert FullAt(trace) == FullAt(trace[..k]) + if trace[k].Attempt? && trace[k].outcome.Full? then {k} else {};
    }
  }

  lemma FullCountOne(trace: seq<Effect>, a: Effect)
    ensures FullCount(trace + [a]) == FullCount(trace) + if a.Attempt? && a.outcome.Full? then 1 else 0
  {
  }

  // ---------- the relation cache ----------

  datatype ConversionError = SchemaChange

  /** The cache after a log: for each id the first relation message. */
  function CacheOf(items: seq<Item>): map<U32, Relation> {
    if items == [] then map[] else
      var k := |items| - 1;
      if items[k].Change? then CacheAfter(CacheOf(items[..k]), items[k].message) else CacheOf(items[..k])
  }

  function CacheAfter(relations: map<U32, Relation>, msg: PgOutputMessage): map<U32, Relation> {
    if msg.RelationMessage? && msg.relation.id !in relations then relations[msg.relation.id := msg.relation] else relations
  }

  lemma {:induction false} CacheHoldsFirst(items: seq<Item>, id: U32)
    ensures id in CacheOf(items) <==> FirstRelation(items, id).Some?
    ensures id in CacheOf(items) ==> Some(CacheOf(items)[id]) == FirstRelation(items, id)
  {
    if items != [] {
      CacheHoldsFirst(items[..|items| - 1], id);
    }
  }

  /** The cached relation is the one in the first relation message with its id, and an id without such a message is not cached. */
  lemma {:induction false} CacheIsFirstInLog(items: seq<Item>, id: U32)
    ensures id in CacheOf(items) <==> exists i :: 0 <= i < |items| && IsRelation(items[i], id)
    ensures id in CacheOf(items) ==>
      exists i :: 0 <= i < |items| && IsRelation(items[i], id) && items[i].message.relation == CacheOf(items)[id]
               && forall k :: 0 <= k < i ==> !IsRelation(items[k], id)
  {
    CacheHoldsFirst(items, id);
    NoRelationBefore(items, id);
    if id in CacheOf(items) {
      var i := FirstRelationPosition(items, id);
      assert IsRelation(items[i], id);
    }
  }

  /** What a message becomes, given the cache. */
  function Convert(relations: map<U32, Relation>, msg: PgOutputMessage): Result<Option<WalEvent>, ConversionError> {
    if msg.RelationMessage? then
      if msg.relation.id in relations && relations[msg.relation.id] != msg.relation then Failure(SchemaChange)
      else Success(None)
    else if msg.relationId in relations then Success(Some(EventOf(relations[msg.relationId], msg)))
    else Success(None)
  }

  /** What one more change does to everything the reader keeps. */
  lemma ChangeStep(items: seq<Item>, msg: PgOutputMessage, trace: seq<Effect>)
    ensures var more, converted := items + [Change(msg)], Convert(CacheOf(items), msg);
            && (converted.Failure? <==> Conflicts(items, Change(msg)))
            && CacheOf(more) == CacheAfter(CacheOf(items), msg)
            && (Refines(items, trace) ==> Refines(more, trace))
            && LastLsn(more) == LastLsn(items)
            && Pending(more).Some? == Pending(items).Some?
            && (converted.Success? ==>
                  && KnownRows(more) == KnownRows(items) + (if converted.value.Some? then 1 else 0)
                  && (Pending(items).Some? ==> Pending(more).value == Pending(items).value + HintsFrom(converted.value)))
  {
    var more := items + [Change(msg)];
    assert more[..|items|] == items;
    CacheHoldsFirst(items, if msg.RelationMessage? then msg.relation.id else msg.relationId);
  }

  function HintsFrom(event: Option<WalEvent>): set<QueryHint> {
    if event.None? then {} else
      match GenerateInvalidationHints(event.value)
      case Success(hints) => set h | h in hints
      case Failure(_) => {}
  }

  lemma NoHintsFromNothing()
    ensures HintsFrom(None) == {}
  {
  }

  // ---------- the reader ----------

  class WalReader {
    var relations: map<U32, Relation>
    var transaction: TransactionBuffer?
    var walLsn: U64
    var eventsConsumed: U64
    var eventsDropped: U64
    const outside: Outside

    /** The reader is where the log `items` brings it. */
    ghost predicate Reflects(items: seq<Item>)
      reads this, transaction, outside
    {
      && relations == CacheOf(items)
      && (transaction == null <==> Pending(items).None?)
      && (transaction != null ==> transaction.hints == Pending(items).value)
      && walLsn == LastLsn(items)
      && eventsConsumed == KnownRows(items) % TWO_TO_64
      && Refines(items, outside.trace) && outside.Valid()
      && eventsDropped == FullCount(outside.trace) % TWO_TO_64
    }

    constructor (outside: Outside)
      requires outside.trace == [] && outside.Valid()
      ensures Reflects([]) && this.outside == outside && transaction == null
    {
      this.outside := outside;
      relations := map[];
      transaction := null;
      walLsn, eventsConsumed, eventsDropped := 0, 0, 0;
    }

    method PgOutputToWalEvent(msg: PgOutputMessage) returns (r: Result<Option<WalEvent>, ConversionError>)
      modifies this`relations
      ensures r == Convert(old(relations), msg)
      ensures relations == if r.Success? then CacheAfter(old(relations), msg) else old(relations)
    {
      match msg
      case RelationMessage(rel) =>
        if rel.id in relations {
          if relations[rel.id] != rel {
            return Failure(SchemaChange);
          }
          return Success(None);
        }
        relations := relations[rel.id := rel];
        return Success(None);
      case Insert(id, newValues) =>
        if id !in relations {
          return Success(None);
        }
        var rel := relations[id];
        var newTuple := BuildTuple(rel.columns, newValues);
        return Success(Some(InsertEvent(id, rel.name, newTuple)));
      case Update(id, oldValues, newValues) =>
        if id !in relations {
          return Success(None);
        }
        var rel := relations[id];
        var oldTuple: Option<TupleData> := None;
        if oldValues.Some? {
          var tuple := BuildTuple(rel.columns, oldValues.value);
          oldTuple := Some(tuple);
        }
        var newTuple := BuildTuple(rel.columns, newValues);
        return Success(Some(UpdateEvent(id, rel.name, oldTuple, newTuple)));
      case Delete(id, deletedValues) =>
        if id !in relations {
          return Success(None);
        }
        var rel := relations[id];
        var deletedTuple := BuildTuple(rel.columns, deletedValues);
        return Success(Some(DeleteEvent(id, rel.name, deletedTuple)));
    }

    /** One turn of the loop over the messages of a payload; `stop` is the early return on a schema change. */
    method HandleMessage(msg: PgOutputMessage, ghost items: seq<Item>) returns (stop: bool)
      requires Reflects(items)
      modifies this`relations, this`eventsConsumed, transaction
      ensures stop <==> Conflicts(items, Change(msg))
      ensures Reflects(if stop then items else items + [Change(msg)])
    {
      hide Refines, CacheOf, CacheAfter, Pending, KnownRows, LastLsn, FullCount, Convert, Conflicts, HintsFrom, Coupled;
      ChangeStep(items, msg, outside.trace);
      var converted := PgOutputToWalEvent(msg);
      if converted.Failure? {
        return true;
      }
      stop := false;
      NoHintsFromNothing();
      if converted.value.Some? {
        HandleRow(converted.value.value);
      }
    }

    /** A row change is counted, and its hints go to the open transaction, if there is one. */
    method HandleRow(event: WalEvent)
      modifies this`eventsConsumed, transaction
      ensures eventsConsumed == Bump(old(eventsConsumed))
      ensures transaction != null ==> transaction.hints == old(transaction.hints) + HintsFrom(Some(event))
    {
      hide GenerateInvalidationHints;
      eventsConsumed := Bump(eventsConsumed);
      if transaction == null {
        return;
      }
      var hints := GenerateInvalidationHints(event);
      if hints.Success? {
        transaction.AddAll(hints.value);
      }
    }

    /** `rest` stands for whatever the log holds behind this payload. */
    method HandleXLogData(data: seq<Byte>, ghost items: seq<Item>, ghost rest: seq<Item>)
      returns (stop: bool, ghost done: seq<Item>)
      requires Reflects(items)
      modifies this`relations, this`eventsConsumed, transaction
      ensures Reflects(done)
      ensures Cut(items, ItemsOf(XLogData(data)) + rest) == if stop then done else Cut(done, rest)
    {
      hide Reflects, Decode, Conflicts;
      done, stop := items, false;
      var decoded := ParsePgOutputMessages(data);
      if decoded.Failure? {
        assert [] + rest == rest;
        return;
      }
      var messages := decoded.value;
      ghost var log := Changes(messages);
      for i := 0 to |messages|
        invariant Reflects(done)
        invariant Cut(items, log + rest) == Cut(done, log[i..] + rest)
      {
        assert (log[i..] + rest)[1..] == log[i + 1..] + rest;
        stop := HandleMessage(messages[i], done);
        if stop {
          return;
        }
        done := done + [Change(messages[i])];
      }
      assert log[|messages|..] + rest == rest;
    }

    method HandleCommit(endLsn: U64, timestamp: U64, ghost items: seq<Item>)
      requires Reflects(items)
      modifies this`transaction, this`eventsDropped, this`walLsn, transaction, outside
      ensures Reflects(items + [CommitMark(endLsn, timestamp)])
      ensures transaction == null
    {
      hide Refines, IsBatch, FullCount, CacheOf, KnownRows, Coupled;
      ghost var before, attempts: seq<Effect> := outside.trace, [];
      NothingToDeliver(timestamp);
      if transaction != null {
        var tx := transaction;
        transaction := null;
        var hints := tx.Take();
        var routed := Route(hints);
        Deliver(routed, timestamp, hints);
        attempts := outside.trace[|before|..];
        assert outside.trace == before + attempts;
      }
      assert outside.trace == before + attempts;
      walLsn := endLsn;
      outside.UpdateAppliedLsn(endLsn);
      CommitRefines(items, endLsn, timestamp, before, attempts);
      CommitKeepsRest(items, endLsn, timestamp);
    }

    /** One turn of the loop over the routed documents. */
    method DeliverOne(document: Str, hints: seq<QueryHint>, timestamp: U64) returns (ghost a: Effect)
      requires outside.Valid() && eventsDropped == FullCount(outside.trace) % TWO_TO_64
      modifies this`eventsDropped, outside
      ensures outside.Valid() && eventsDropped == FullCount(outside.trace) % TWO_TO_64
      ensures outside.trace == old(outside.trace) + [a]
      ensures a.Attempt? && a.document == document && a.keys == Keys(hints) && a.timestamp == timestamp
    {
      hide FullCount, Keys, Coupled, AnswerAfter;
      var outcome := outside.SendInvalidation(document, hints, timestamp);
      a := Attempt(document, Keys(hints), timestamp, outcome);
      FullCountOne(old(outside.trace), a);
      if outcome.Full? {
        eventsDropped := Bump(eventsDropped);
      }
    }

    /** The loop over the routed documents, in the order the hash map gives them. */
    method Deliver(routed: map<Str, seq<QueryHint>>, timestamp: U64, ghost hints: set<QueryHint>)
      requires IsRouting(hints, routed)
      requires outside.Valid() && eventsDropped == FullCount(outside.trace) % TWO_TO_64
      modifies this`eventsDropped, outside
      ensures outside.Valid() && eventsDropped == FullCount(outside.trace) % TWO_TO_64
      ensures |old(outside.trace)| <= |outside.trace| && outside.trace[..|old(outside.trace)|] == old(outside.trace)
      ensures IsBatch(outside.trace[|old(outside.trace)|..], hints, timestamp)
    {
      hide Delivers, IsRouting, IsMessageFor, Destinations, FullCount, Keys, Coupled;
      ghost var before, attempts: seq<Effect> := outside.trace, [];
      NothingDelivered(hints, timestamp);
      RoutedToDestinations(hints, routed);
      var todo := routed.Keys;
      assert routed.Keys - todo == {};
      while todo != {}
        invariant todo <= routed.Keys
        invariant outside.Valid() && eventsDropped == FullCount(outside.trace) % TWO_TO_64
        invariant outside.trace == before + attempts
        invariant Delivers(attempts, hints, timestamp, routed.Keys - todo)
      {
        var document :| document in todo;
        ghost var a := DeliverOne(document, routed[document], timestamp);
        RoutedMessage(hints, routed, document);
        DeliversOneMore(attempts, hints, timestamp, routed.Keys - todo, a);
        assert routed.Keys - todo + {document} == routed.Keys - (todo - {document});
        attempts := attempts + [a];
        todo := todo - {document};
      }
      assert routed.Keys - todo == routed.Keys;
      assert outside.trace[|before|..] == attempts;
    }

    method HandleBegin(ghost items: seq<Item>)
      requires Reflects(items)
      modifies this`transaction
      ensures Reflects(items + [BeginMark])
      ensures fresh(transaction)
    {
      ghost var more := items + [BeginMark];
      assert more[..|items|] == items;
      transaction := new TransactionBuffer();
    }

    /** One turn of the event loop; `stop` when it leaves the loop. */
    method HandleEvent(ev: ReplicationEvent, ghost items: seq<Item>, ghost rest: seq<Item>)
      returns (stop: bool, ghost done: seq<Item>)
      requires Reflects(items)
      modifies this, outside, transaction
      ensures Reflects(done)
      ensures transaction == null || transaction == old(transaction) || fresh(transaction)
      ensures Cut(items, if Ends(ev) then [] else ItemsOf(ev) + rest) == if stop then done else Cut(done, rest)
    {
      hide Reflects, Cut, Decode, Changes;
      stop, done := false, items;
      match ev
      case XLogData(data) =>
        stop, done := HandleXLogData(data, items, rest);
      case Begin =>
        HandleBegin(items);
        CutStep(items, BeginMark, rest);
        done := items + [BeginMark];
      case Commit(endLsn, timestamp) =>
        HandleCommit(endLsn, timestamp, items);
        CutStep(items, CommitMark(endLsn, timestamp), rest);
        done := items + [CommitMark(endLsn, timestamp)];
      case KeepAlive =>
        assert [] + rest == rest;
      case _ =>
        CutEnd(items);
        stop := true;
    }

    /** The event loop, from its start to the end of the stream, a stop command or a schema change. */
    method Run(events: seq<ReplicationEvent>)
      requires Reflects([])
      modifies this, outside, transaction
      ensures Reflects(Processed(events))
    {
      hide Reflects, Cut, Flatten, ItemsOf;
      ghost var done: seq<Item> := [];
      assert events[0..] == events;
      for i := 0 to |events|
        invariant Reflects(done)
        invariant transaction == null || transaction == old(transaction) || fresh(transaction)
        invariant Processed(events) == Cut(done, Flatten(events[i..]))
      {
        FlattenTail(events, i);
        var stop: bool;
        stop, done := HandleEvent(events[i], done, Flatten(events[i + 1..]));
        if stop {
          return;
        }
      }
      assert events[|events|..] == [];
      FlattenNothing();
      CutEnd(done);
    }
  }

  lemma FlattenTail(events: seq<ReplicationEvent>, i: nat)
    requires i < |events|
    ensures Flatten(events[i..]) == if Ends(events[i]) then [] else ItemsOf(events[i]) + Flatten(events[i + 1..])
  {
  }

  lemma CutStep(done: seq<Item>, x: Item, rest: seq<Item>)
    requires !x.Change?
    ensures Cut(done, [x] + rest) == Cut(done + [x], rest)
  {
  }

  lemma CutEnd(done: seq<Item>)
    ensures Cut(done, []) == done
  {
  }

  lemma NothingToDeliver(timestamp: U64)
    ensures IsBatch([], {}, timestamp)
  {
  }

  lemma CommitRefines(items: seq<Item>, endLsn: U64, timestamp: U64, before: seq<Effect>, attempts: seq<Effect>)
    requires Refines(items, before) && IsBatch(attempts, PendingHints(items), timestamp)
    ensures Refines(items + [CommitMark(endLsn, timestamp)], before + attempts + [Applied(endLsn)])
    ensures FullCount(before + attempts + [Applied(endLsn)]) == FullCount(before + attempts)
  {
    hide IsBatch;
    var more, trace := items + [CommitMark(endLsn, timestamp)], before + attempts + [Applied(endLsn)];
    assert more[..|items|] == items;
    assert trace[..|before|] == before;
    assert trace[|before|..|trace| - 1] == attempts;
    assert trace[..|trace| - 1] == before + attempts;
    assert CommitShows(items, timestamp, trace, |before|);
  }

  lemma CommitKeepsRest(items: seq<Item>, endLsn: U64, timestamp: U64)
    ensures var more := items + [CommitMark(endLsn, timestamp)];
            && CacheOf(more) == CacheOf(items) && Pending(more).None?
            && KnownRows(more) == KnownRows(items) && LastLsn(more) == endLsn
  {
  }

  function LastLsn(items: seq<Item>): U64 {
    var lsns := CommitLsns(items);
    if lsns == [] then 0 else lsns[|lsns| - 1]
  }
}
