/**
 What the WAL reader is supposed to do, said about the log it receives: the replication events are
 flattened to one sequence of items, and every notion below is a property of positions in it.
 */
module WalLog {
  import opened Basics
  import opened PgOutput
  import opened WalTypes
  import opened HintGenerator

  /** The events of the replication client, and the ways its stream or the reader ends. */
  datatype ReplicationEvent =
    | XLogData(data: seq<Byte>)
    | Begin
    | Commit(endLsn: U64, timestamp: U64)
    | KeepAlive
    | StoppedAt
    | StreamEnded
    | RecvFailed
    | StopCommand

  predicate Ends(ev: ReplicationEvent) {
    ev.StoppedAt? || ev.StreamEnded? || ev.RecvFailed? || ev.StopCommand?
  }

  datatype Item =
    | Change(message: PgOutputMessage)
    | BeginMark
    | CommitMark(endLsn: U64, timestamp: U64)

  function Changes(ms: seq<PgOutputMessage>): (items: seq<Item>)
    ensures |items| == |ms| && forall i :: 0 <= i < |ms| ==> items[i] == Change(ms[i])
  {
    if ms == [] then [] else [Change(ms[0])] + Changes(ms[1..])
  }

  function ItemsOf(ev: ReplicationEvent): seq<Item> {
    match ev
    case XLogData(data) => (match Decode(data) case Success(ms) => Changes(ms) case Failure(_) => [])
    case Begin => [BeginMark]
    case Commit(endLsn, timestamp) => [CommitMark(endLsn, timestamp)]
    case _ => []
  }

  /** The items of a stream of events, up to the event that ends it. Payloads that fail to decode add none. */
  function Flatten(events: seq<ReplicationEvent>): seq<Item> {
    if events == [] || Ends(events[0]) then [] else ItemsOf(events[0]) + Flatten(events[1..])
  }

  // ---------- relations ----------

  /** The first relation message with the id. */
  function FirstRelation(items: seq<Item>, id: U32): Option<Relation> {
    if items == [] then None else
      var k := |items| - 1;
      var earlier := FirstRelation(items[..k], id);
      if earlier.Some? then earlier
      else if items[k].Change? && items[k].message.RelationMessage? && items[k].message.relation.id == id
        then Some(items[k].message.relation)
      else None
  }

  /** A relation message that differs from the first one with its id: the reader stops there. */
  predicate Conflicts(items: seq<Item>, x: Item) {
    && x.Change? && x.message.RelationMessage?
    && FirstRelation(items, x.message.relation.id).Some?
    && FirstRelation(items, x.message.relation.id).value != x.message.relation
  }

  /** The items that are acted upon: `done` and then `items` up to the first conflict. */
  function Cut(done: seq<Item>, items: seq<Item>): seq<Item>
    decreases |items|
  {
    if items == [] || Conflicts(done, items[0]) then done else Cut(done + [items[0]], items[1..])
  }

  /** The items a run of the reader acts upon. */
  function Processed(events: seq<ReplicationEvent>): seq<Item> {
    Cut([], Flatten(events))
  }

  ghost predicate ConflictFree(items: seq<Item>) {
    forall j :: 0 <= j < |items| ==> !Conflicts(items[..j], items[j])
  }

  lemma {:induction false} CutIsLongest(done: seq<Item>, items: seq<Item>)
    requires ConflictFree(done)
    ensures var cut := Cut(done, items);
            && ConflictFree(cut) && done <= cut <= done + items
            && (cut == done + items || Conflicts(cut, (done + items)[|cut|]))
    decreases |items|
  {
    if items == [] {
      assert done + items == done;
    } else if !Conflicts(done, items[0]) {
      var more := done + [items[0]];
      forall j | 0 <= j < |more| ensures !Conflicts(more[..j], more[j]) {
        assert j < |done| ==> more[..j] == done[..j];
        assert j == |done| ==> more[..j] == done;
      }
      assert more + items[1..] == done + items;
      CutIsLongest(more, items[1..]);
    }
  }

  /** The processed items are the longest conflict-free prefix of the log. */
  lemma ProcessedIsLongestConflictFree(events: seq<ReplicationEvent>)
    ensures var log, cut := Flatten(events), Processed(events);
            && ConflictFree(cut) && cut <= log
            && (cut == log || Conflicts(cut, log[|cut|]))
  {
    CutIsLongest([], Flatten(events));
    assert [] + Flatten(events) == Flatten(events);
  }

  predicate IsRelation(x: Item, id: U32) {
    x.Change? && x.message.RelationMessage? && x.message.relation.id == id
  }

  lemma {:induction false} FirstRelationPosition(items: seq<Item>, id: U32) returns (i: nat)
    requires FirstRelation(items, id).Some?
    ensures i < |items| && items[i] == Change(RelationMessage(FirstRelation(items, id).value)) && IsRelation(items[i], id)
    ensures forall k :: 0 <= k < i ==> !IsRelation(items[k], id)
  {
    var k := |items| - 1;
    if FirstRelation(items[..k], id).Some? {
      i := FirstRelationPosition(items[..k], id);
    } else {
      i := k;
      NoRelationBefore(items[..k], id);
      assert forall j :: 0 <= j < k ==> items[j] == items[..k][j];
    }
  }

  lemma {:induction false} NoRelationBefore(items: seq<Item>, id: U32)
    ensures FirstRelation(items, id).None? <==> forall k :: 0 <= k < |items| ==> !IsRelation(items[k], id)
  {
    if items != [] {
      var n := |items| - 1;
      NoRelationBefore(items[..n], id);
      assert items == items[..n] + [items[n]];
      if FirstRelation(items[..n], id).Some? {
        var k :| 0 <= k < n && IsRelation(items[..n][k], id);
        assert IsRelation(items[k], id);
      }
    }
  }

  lemma {:induction false} FirstRelationStays(items: seq<Item>, j: nat, id: U32)
    requires j <= |items| && FirstRelation(items[..j], id).Some?
    ensures FirstRelation(items, id) == FirstRelation(items[..j], id)
  {
    if j < |items| {
      var k := |items| - 1;
      assert items[..k][..j] == items[..j];
      FirstRelationStays(items[..k], j, id);
    } else {
      assert items[..j] == items;
    }
  }

  /**
   Stability: as long as the reader goes on, every relation message with an id equals the first one,
   and a row is read with that relation wherever it stands behind it.
   */
  lemma RelationsAreStable(items: seq<Item>, id: U32)
    requires ConflictFree(items)
    ensures forall k :: 0 <= k < |items| && IsRelation(items[k], id) ==> FirstRelation(items, id) == Some(items[k].message.relation)
    ensures forall j :: 0 <= j <= |items| && FirstRelation(items[..j], id).Some? ==> FirstRelation(items[..j], id) == FirstRelation(items, id)
  {
    forall j | 0 <= j <= |items| && FirstRelation(items[..j], id).Some?
      ensures FirstRelation(items[..j], id) == FirstRelation(items, id)
    {
      FirstRelationStays(items, j, id);
    }
    forall k | 0 <= k < |items| && IsRelation(items[k], id)
      ensures FirstRelation(items, id) == Some(items[k].message.relation)
    {
      assert !Conflicts(items[..k], items[k]);
      assert items[..k + 1][..k] == items[..k];
      assert FirstRelation(items[..k + 1], id) == Some(items[k].message.relation);
      FirstRelationStays(items, k + 1, id);
    }
  }

  // ---------- transactions ----------

  /** The row change `x`, arriving behind `items`, belongs to a known relation. */
  predicate KnownRow(items: seq<Item>, x: Item) {
    x.Change? && !x.message.RelationMessage? && FirstRelation(items, x.message.relationId).Some?
  }

  function HintsAfter(items: seq<Item>, x: Item): set<QueryHint> {
    if KnownRow(items, x) then HintsOf(FirstRelation(items, x.message.relationId).value, x.message) else {}
  }

  /** The hints buffered in the open transaction; none when there is no open transaction. */
  function Pending(items: seq<Item>): Option<set<QueryHint>> {
    if items == [] then None else
      var k := |items| - 1;
      match items[k]
      case BeginMark => Some({})
      case CommitMark(_, _) => None
      case Change(_) =>
        match Pending(items[..k])
        case None => None
        case Some(hints) => Some(hints + HintsAfter(items[..k], items[k]))
  }

  function KnownRows(items: seq<Item>): nat {
    if items == [] then 0 else
      var k := |items| - 1;
      KnownRows(items[..k]) + if KnownRow(items[..k], items[k]) then 1 else 0
  }

  function CommitLsns(items: seq<Item>): seq<U64> {
    if items == [] then [] else
      var k := |items| - 1;
      CommitLsns(items[..k]) + if items[k].CommitMark? then [items[k].endLsn] else []
  }

  /** The transaction that position `p` falls in was begun at `b` and neither ended nor begun anew. */
  ghost predicate OpenedAt(items: seq<Item>, b: nat, p: nat) {
    b < p <= |items| && items[b].BeginMark? && forall k :: b < k < p ==> items[k].Change?
  }

  /** The change at position `j` calls for the hint, by the first relation message with its id. */
  ghost predicate Calls(items: seq<Item>, j: nat, h: QueryHint) {
    && j < |items| && KnownRow(items[..j], items[j])
    && RowHint(FirstRelation(items[..j], items[j].message.relationId).value, items[j].message, h)
  }

  /** Some change of the transaction open at `p` calls for the hint. */
  ghost predicate CalledWithin(items: seq<Item>, p: nat, h: QueryHint) {
    exists b: nat, j: nat :: OpenedAt(items, b, p) && b < j < p && Calls(items, j, h)
  }

  lemma {:induction false} PendingOpen(items: seq<Item>, p: nat)
    requires p <= |items|
    ensures Pending(items[..p]).Some? <==> exists b: nat :: OpenedAt(items, b, p)
  {
    if p > 0 {
      PendingOpen(items, p - 1);
      assert items[..p][..p - 1] == items[..p - 1];
      if items[p - 1].BeginMark? {
        assert OpenedAt(items, p - 1, p);
      } else if items[p - 1].Change? && Pending(items[..p]).Some? {
        var b: nat :| OpenedAt(items, b, p - 1);
        assert OpenedAt(items, b, p);
      } else if exists b: nat :: OpenedAt(items, b, p) {
        var b: nat :| OpenedAt(items, b, p);
        assert OpenedAt(items, b, p - 1);
      }
    }
  }

  lemma CallsAreHints(items: seq<Item>, k: nat, h: QueryHint)
    requires k < |items|
    ensures Calls(items, k, h) <==> h in HintsAfter(items[..k], items[k])
  {
    if KnownRow(items[..k], items[k]) {
      GeneratesExactly(FirstRelation(items[..k], items[k].message.relationId).value, items[k].message, h);
    }
  }

  /** One more change in the open transaction. */
  lemma CalledWithinStep(items: seq<Item>, k: nat, h: QueryHint)
    requires k < |items| && items[k].Change?
    ensures CalledWithin(items, k + 1, h)
       <==> CalledWithin(items, k, h) || (Calls(items, k, h) && exists b: nat :: OpenedAt(items, b, k))
  {
    hide Calls;
    forall b: nat | b < k ensures OpenedAt(items, b, k + 1) <==> OpenedAt(items, b, k) {
    }
    hide OpenedAt;
    if CalledWithin(items, k, h) {
      var b: nat, j: nat :| OpenedAt(items, b, k) && b < j < k && Calls(items, j, h);
      assert OpenedAt(items, b, k + 1);
    }
    if CalledWithin(items, k + 1, h) {
      var b: nat, j: nat :| OpenedAt(items, b, k + 1) && b < j < k + 1 && Calls(items, j, h);
      assert OpenedAt(items, b, k);
    }
    if b: nat :| OpenedAt(items, b, k) && b < k {
      assert OpenedAt(items, b, k + 1);
    }
  }

  /** What is buffered at `p` is what the changes of the open transaction call for. */
  lemma {:induction false} PendingIsCalled(items: seq<Item>, p: nat, h: QueryHint)
    requires p <= |items|
    ensures Pending(items[..p]).Some? && h in Pending(items[..p]).value <==> CalledWithin(items, p, h)
  {
    if p > 0 {
      var k := p - 1;
      PendingIsCalled(items, k, h);
      assert items[..p][..k] == items[..k];
      if items[k].Change? {
        CallsAreHints(items, k, h);
        CalledWithinStep(items, k, h);
        PendingOpen(items, k);
        hide Calls, CalledWithin, HintsAfter, OpenedAt;
      }
    }
  }

  lemma PendingIsGenerated(items: seq<Item>)
    ensures Pending(items).Some? ==> forall h :: h in Pending(items).value ==> Generated(h)
  {
  }

  // ---------- batching is invisible ----------

  /** No event of the stream ends it: the server does not stop it or fail, and nobody tells the reader to. */
  ghost predicate GoesOn(events: seq<ReplicationEvent>) {
    forall i :: 0 <= i < |events| ==>
      !events[i].StoppedAt? && !events[i].StreamEnded? && !events[i].RecvFailed? && !events[i].StopCommand?
  }

  lemma FlattenFirst(ev: ReplicationEvent, rest: seq<ReplicationEvent>)
    requires !Ends(ev)
    ensures Flatten([ev] + rest) == ItemsOf(ev) + Flatten(rest)
  {
    hide ItemsOf, Ends;
    assert ([ev] + rest)[1..] == rest;
  }

  lemma {:induction false} FlattenAppend(front: seq<ReplicationEvent>, back: seq<ReplicationEvent>)
    requires GoesOn(front)
    ensures Flatten(front + back) == Flatten(front) + Flatten(back)
  {
    hide Flatten, ItemsOf;
    if front == [] {
      FlattenNothing();
      assert front + back == back && [] + Flatten(back) == Flatten(back);
    } else {
      var ev, rest := front[0], front[1..];
      assert front == [ev] + rest && front + back == [ev] + (rest + back);
      FlattenAppend(rest, back);
      FlattenFirst(ev, rest);
      FlattenFirst(ev, rest + back);
      Associate(ItemsOf(ev), Flatten(rest), Flatten(back));
    }
  }

  lemma Associate<T>(a: seq<T>, b: seq<T>, c: seq<T>)
    ensures a + (b + c) == a + b + c
  {
  }

  lemma ChangesAppend(ms: seq<PgOutputMessage>, ns: seq<PgOutputMessage>)
    ensures Changes(ms + ns) == Changes(ms) + Changes(ns)
  {
  }

  lemma FlattenAround(before: seq<ReplicationEvent>, ev: ReplicationEvent, after: seq<ReplicationEvent>)
    requires GoesOn(before) && !Ends(ev)
    ensures Flatten(before + ([ev] + after)) == Flatten(before) + (ItemsOf(ev) + Flatten(after))
  {
    hide Flatten, ItemsOf, Ends;
    FlattenAppend(before, [ev] + after);
    FlattenFirst(ev, after);
  }

  /** Lists that agree before and after a middle part are equal exactly when the middle parts are. */
  lemma SameMiddle<T>(x: seq<T>, a: seq<T>, b: seq<T>, y: seq<T>)
    ensures x + (a + y) == x + (b + y) <==> a == b
  {
    if x + (a + y) == x + (b + y) {
      assert |a| == |b|;
      assert a == (x + (a + y))[|x|..|x| + |a|];
      assert b == (x + (b + y))[|x|..|x| + |b|];
    }
  }

  /** The items of two payloads are those of the joined one, unless the second is lost and takes the first along. */
  lemma ItemsOfHalves(a: seq<Byte>, b: seq<Byte>)
    requires Decode(a).Success?
    ensures ItemsOf(XLogData(a + b)) == ItemsOf(XLogData(a)) + ItemsOf(XLogData(b))
       <==> Decode(b).Success? || Decode(a).value == []
  {
    hide Decode;
    DecodeConcatenation(a, b);
    if Decode(b).Success? {
      ChangesAppend(Decode(a).value, Decode(b).value);
    }
  }

  /**
   Where the stream is cut into payloads does not matter at a message boundary: a payload gives the
   reader the same log as its two halves exactly when the second half decodes, or the first is empty.
   Otherwise the whole payload is lost, and with the halves apart only the second one is.
   */
  lemma BatchingIsInvisible(before: seq<ReplicationEvent>, a: seq<Byte>, b: seq<Byte>, after: seq<ReplicationEvent>)
    requires Decode(a).Success? && GoesOn(before)
    ensures Flatten(before + ([XLogData(a + b)] + after)) == Flatten(before + ([XLogData(a)] + ([XLogData(b)] + after)))
       <==> Decode(b).Success? || Decode(a).value == []
  {
    hide Decode, Flatten, ItemsOf, GoesOn;
    var first, second, whole := ItemsOf(XLogData(a)), ItemsOf(XLogData(b)), ItemsOf(XLogData(a + b));
    FlattenAround(before, XLogData(a + b), after);
    FlattenAround(before, XLogData(a), [XLogData(b)] + after);
    FlattenFirst(XLogData(b), after);
    ItemsOfHalves(a, b);
    Associate(first, second, Flatten(after));
    SameMiddle(Flatten(before), whole, first + second, Flatten(after));
  }

  lemma FlattenNothing()
    ensures Flatten([]) == []
  {
  }

  // ---------- the log, event by event ----------

  /** What one event adds to the log: a keepalive nothing, a payload its messages or nothing at all. */
  lemma EventAdds(ev: ReplicationEvent)
    ensures ev.Begin? ==> Flatten([ev]) == [BeginMark]
    ensures ev.Commit? ==> Flatten([ev]) == [CommitMark(ev.endLsn, ev.timestamp)]
    ensures ev.KeepAlive? ==> Flatten([ev]) == []
    ensures ev.XLogData? && Decode(ev.data).Failure? ==> Flatten([ev]) == []
    ensures ev.XLogData? && Decode(ev.data).Success? ==>
              && |Flatten([ev])| == |Decode(ev.data).value|
              && forall i :: 0 <= i < |Decode(ev.data).value| ==> Flatten([ev])[i] == Change(Decode(ev.data).value[i])
  {
    hide Decode;
    assert [ev][1..] == [];
    FlattenNothing();
  }

  /** An event that ends the stream adds nothing, and neither does anything behind it. */
  lemma EndCutsOff(before: seq<ReplicationEvent>, ev: ReplicationEvent, after: seq<ReplicationEvent>)
    requires GoesOn(before)
    requires ev.StoppedAt? || ev.StreamEnded? || ev.RecvFailed? || ev.StopCommand?
    ensures Flatten(before + ([ev] + after)) == Flatten(before)
  {
    FlattenAppend(before, [ev] + after);
    assert Flatten([ev] + after) == [];
    assert Flatten(before) + [] == Flatten(before);
  }

  /** The events up to the first one that ends the stream. */
  function Heard(events: seq<ReplicationEvent>): (heard: seq<ReplicationEvent>)
    ensures heard <= events && GoesOn(heard)
    ensures |heard| < |events| ==>
              var ev := events[|heard|]; ev.StoppedAt? || ev.StreamEnded? || ev.RecvFailed? || ev.StopCommand?
  {
    if events == [] || events[0].StoppedAt? || events[0].StreamEnded? || events[0].RecvFailed? || events[0].StopCommand?
    then [] else [events[0]] + Heard(events[1..])
  }

  lemma LogOfHeard(events: seq<ReplicationEvent>)
    ensures Flatten(events) == Flatten(Heard(events))
  {
    var heard := Heard(events);
    hide Heard, Flatten;
    if |heard| < |events| {
      assert events == heard + ([events[|heard|]] + events[|heard| + 1..]);
      EndCutsOff(heard, events[|heard|], events[|heard| + 1..]);
    } else {
      assert heard == events;
    }
  }

  /** The begins and commits of a log, in order. */
  function MarksOf(items: seq<Item>): seq<Item> {
    if items == [] then [] else
      var k := |items| - 1;
      MarksOf(items[..k]) + if items[k].Change? then [] else [items[k]]
  }

  /** The changes of a log, in order. */
  function ChangesOf(items: seq<Item>): seq<PgOutputMessage> {
    if items == [] then [] else
      var k := |items| - 1;
      ChangesOf(items[..k]) + if items[k].Change? then [items[k].message] else []
  }

  function MarkEvents(events: seq<ReplicationEvent>): seq<Item> {
    if events == [] then [] else
      var k := |events| - 1;
      MarkEvents(events[..k])
      + match events[k]
        case Begin => [BeginMark]
        case Commit(endLsn, timestamp) => [CommitMark(endLsn, timestamp)]
        case _ => []
  }

  function PayloadMessages(events: seq<ReplicationEvent>): seq<PgOutputMessage> {
    if events == [] then [] else
      var k := |events| - 1;
      PayloadMessages(events[..k]) + if events[k].XLogData? && Decode(events[k].data).Success? then Decode(events[k].data).value else []
  }

  function EndLsns(events: seq<ReplicationEvent>): seq<U64> {
    if events == [] then [] else
      var k := |events| - 1;
      EndLsns(events[..k]) + if events[k].Commit? then [events[k].endLsn] else []
  }

  lemma {:induction false} MarksAppend(front: seq<Item>, back: seq<Item>)
    ensures MarksOf(front + back) == MarksOf(front) + MarksOf(back)
  {
    if back == [] {
      assert front + back == front;
    } else {
      var k := |back| - 1;
      assert (front + back)[..|front| + k] == front + back[..k];
      MarksAppend(front, back[..k]);
    }
  }

  lemma {:induction false} ChangesOfAppend(front: seq<Item>, back: seq<Item>)
    ensures ChangesOf(front + back) == ChangesOf(front) + ChangesOf(back)
  {
    if back == [] {
      assert front + back == front;
    } else {
      var k := |back| - 1;
      assert (front + back)[..|front| + k] == front + back[..k];
      ChangesOfAppend(front, back[..k]);
    }
  }

  lemma {:induction false} CommitsAppend(front: seq<Item>, back: seq<Item>)
    ensures CommitLsns(front + back) == CommitLsns(front) + CommitLsns(back)
  {
    if back == [] {
      assert front + back == front;
    } else {
      var k := |back| - 1;
      assert (front + back)[..|front| + k] == front + back[..k];
      CommitsAppend(front, back[..k]);
    }
  }

  lemma PartsAppend(front: seq<Item>, back: seq<Item>)
    ensures MarksOf(front + back) == MarksOf(front) + MarksOf(back)
    ensures ChangesOf(front + back) == ChangesOf(front) + ChangesOf(back)
    ensures CommitLsns(front + back) == CommitLsns(front) + CommitLsns(back)
  {
    MarksAppend(front, back);
    ChangesOfAppend(front, back);
    CommitsAppend(front, back);
  }

  lemma {:induction false} PartsOfChanges(items: seq<Item>, ms: seq<PgOutputMessage>)
    requires |items| == |ms| && forall i :: 0 <= i < |ms| ==> items[i] == Change(ms[i])
    ensures MarksOf(items) == [] && ChangesOf(items) == ms && CommitLsns(items) == []
  {
    if ms != [] {
      var k := |ms| - 1;
      PartsOfChanges(items[..k], ms[..k]);
      assert ms == ms[..k] + [ms[k]];
    }
  }

  /** The parts of what one event adds. */
  lemma PartsOfEvent(ev: ReplicationEvent)
    requires GoesOn([ev])
    ensures MarksOf(Flatten([ev])) == match ev
                                      case Begin => [BeginMark]
                                      case Commit(endLsn, timestamp) => [CommitMark(endLsn, timestamp)]
                                      case _ => []
    ensures ChangesOf(Flatten([ev])) == if ev.XLogData? && Decode(ev.data).Success? then Decode(ev.data).value else []
    ensures CommitLsns(Flatten([ev])) == if ev.Commit? then [ev.endLsn] else []
  {
    EventAdds(ev);
    assert [ev][0] == ev;
    hide Decode, Flatten, MarksOf, ChangesOf, CommitLsns;
    if ev.XLogData? && Decode(ev.data).Success? {
      PartsOfChanges(Flatten([ev]), Decode(ev.data).value);
    } else {
      PartsOfNone();
      if ev.Begin? || ev.Commit? {
        PartsOfOne(Flatten([ev])[0]);
      }
    }
  }

  lemma PartsOfNone()
    ensures MarksOf([]) == [] && ChangesOf([]) == [] && CommitLsns([]) == []
  {
  }

  lemma PartsOfOne(x: Item)
    ensures MarksOf([x]) == if x.Change? then [] else [x]
    ensures ChangesOf([x]) == if x.Change? then [x.message] else []
    ensures CommitLsns([x]) == if x.CommitMark? then [x.endLsn] else []
  {
    hide MarksOf, ChangesOf, CommitLsns;
    PartsOfNone();
    PartsOfLast([], x);
    assert [] + [x] == [x];
  }

  lemma PartsOfLast(items: seq<Item>, x: Item)
    ensures MarksOf(items + [x]) == MarksOf(items) + if x.Change? then [] else [x]
    ensures ChangesOf(items + [x]) == ChangesOf(items) + if x.Change? then [x.message] else []
    ensures CommitLsns(items + [x]) == CommitLsns(items) + if x.CommitMark? then [x.endLsn] else []
  {
    assert (items + [x])[..|items|] == items;
  }

  lemma {:induction false} PartsOfLog(events: seq<ReplicationEvent>)
    requires GoesOn(events)
    ensures MarksOf(Flatten(events)) == MarkEvents(events)
    ensures ChangesOf(Flatten(events)) == PayloadMessages(events)
    ensures CommitLsns(Flatten(events)) == EndLsns(events)
  {
    hide Flatten, Decode, MarksOf, ChangesOf, CommitLsns;
    if events == [] {
      FlattenNothing();
      PartsOfNone();
    } else {
      var k := |events| - 1;
      PartsOfLog(events[..k]);
      assert events == events[..k] + [events[k]];
      FlattenAppend(events[..k], [events[k]]);
      PartsAppend(Flatten(events[..k]), Flatten([events[k]]));
      PartsOfEvent(events[k]);
    }
  }

  /**
   What the log is: before the event that ends the stream, its begins and commits are the Begin and Commit events,
   in order and with their LSNs and times; and its changes are the messages of the payloads that decode.
   */
  lemma LogIsHeard(events: seq<ReplicationEvent>)
    ensures MarksOf(Flatten(events)) == MarkEvents(Heard(events))
    ensures ChangesOf(Flatten(events)) == PayloadMessages(Heard(events))
    ensures CommitLsns(Flatten(events)) == EndLsns(Heard(events))
  {
    LogOfHeard(events);
    PartsOfLog(Heard(events));
  }

  /** A keepalive makes no difference, wherever it comes. */
  lemma {:induction false} KeepAliveIsInvisible(before: seq<ReplicationEvent>, after: seq<ReplicationEvent>)
    ensures Flatten(before + ([KeepAlive] + after)) == Flatten(before + after)
  {
    if before == [] {
      assert ([KeepAlive] + after)[1..] == after && [] + after == after && [] + ([KeepAlive] + after) == [KeepAlive] + after;
    } else {
      assert (before + ([KeepAlive] + after))[1..] == before[1..] + ([KeepAlive] + after);
      assert (before + after)[1..] == before[1..] + after;
      KeepAliveIsInvisible(before[1..], after);
    }
  }

  /** The LSNs the reader applies are those of the Commit events it hears, up to a relation that changes, if one does. */
  lemma ProcessedCommits(events: seq<ReplicationEvent>)
    ensures CommitLsns(Processed(events)) <= EndLsns(Heard(events))
    ensures ConflictFree(Flatten(events)) ==> CommitLsns(Processed(events)) == EndLsns(Heard(events))
  {
    hide Flatten, Processed, Heard, Conflicts, CommitLsns, EndLsns, MarksOf, ChangesOf;
    var log, cut := Flatten(events), Processed(events);
    ProcessedIsLongestConflictFree(events);
    LogIsHeard(events);
    assert log == cut + log[|cut|..];
    PartsAppend(cut, log[|cut|..]);
    assert log[..|cut|] == cut;
    assert ConflictFree(log) ==> forall j :: 0 <= j < |log| ==> !Conflicts(log[..j], log[j]);
    if cut == log {
      PartsOfNone();
      assert log[|cut|..] == [];
    }
  }

  function KnownRowsAt(items: seq<Item>): set<int> {
    set i | 0 <= i < |items| && KnownRow(items[..i], items[i])
  }

  /** Rows of known relations are counted once each. */
  lemma {:induction false} KnownRowsCounted(items: seq<Item>)
    ensures KnownRows(items) == |KnownRowsAt(items)|
  {
    hide KnownRow;
    if items == [] {
      assert KnownRowsAt(items) == {};
    } else {
      var k := |items| - 1;
      KnownRowsCounted(items[..k]);
      forall i | 0 <= i < k ensures items[..k][..i] == items[..i] && items[..k][i] == items[i] {
      }
      assert KnownRowsAt(items) == KnownRowsAt(items[..k]) + if KnownRow(items[..k], items[k]) then {k} else {};
    }
  }
}
