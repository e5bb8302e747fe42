/** What a run of the WAL reader amounts to, for every stream of events and every answer of the sink. */
module WalTheorems {
  import opened Basics
  import opened WalTypes
  import opened HintGenerator
  import opened Router
  import opened WalLog
  import opened Replication
  import opened Sink
  import RoomsProtocol

  /** The LSNs applied, in order. */
  function AppliedLsns(trace: seq<Effect>): seq<U64> {
    if trace == [] then [] else
      var k := |trace| - 1;
      AppliedLsns(trace[..k]) + if trace[k].Applied? then [trace[k].lsn] else []
  }

  lemma {:induction false} AttemptsApplyNothing(front: seq<Effect>, attempts: seq<Effect>)
    requires forall i :: 0 <= i < |attempts| ==> attempts[i].Attempt?
    ensures AppliedLsns(front + attempts) == AppliedLsns(front)
  {
    if attempts == [] {
      assert front + attempts == front;
    } else {
      var k := |attempts| - 1;
      assert (front + attempts)[..|front| + k] == front + attempts[..k];
      AttemptsApplyNothing(front, attempts[..k]);
    }
  }

  /** The applied LSNs are the commit LSNs of the log, in its order. */
  lemma {:induction false} AppliesCommitsInOrder(items: seq<Item>, trace: seq<Effect>)
    requires Refines(items, trace)
    ensures AppliedLsns(trace) == CommitLsns(items)
  {
    if items != [] {
      var k, n := |items| - 1, |trace| - 1;
      if items[k].CommitMark? {
        var t :| 0 <= t < |trace| && CommitShows(items[..k], items[k].timestamp, trace, t);
        AppliesCommitsInOrder(items[..k], trace[..t]);
        assert trace[..n] == trace[..t] + trace[t..n];
        AttemptsApplyNothing(trace[..t], trace[t..n]);
      } else {
        AppliesCommitsInOrder(items[..k], trace);
      }
    }
  }

  /**
   The block `trace[lo..hi]` is all that lies between two acknowledgements: `trace[hi]`, which is that of the
   commit at `p`, and the one before it, if any. The ones before that are of the commits before `p`.
   */
  ghost predicate IsBlockOf(items: seq<Item>, p: nat, trace: seq<Effect>, lo: nat, hi: nat) {
    && p < |items| && items[p].CommitMark?
    && lo <= hi < |trace|
    && (lo == 0 || trace[lo - 1].Applied?)
    && trace[hi] == Applied(items[p].endLsn)
    && AppliedLsns(trace[..lo]) == AppliedLsns(trace[..hi]) == CommitLsns(items[..p])
    && IsBatch(trace[lo..hi], PendingHints(items[..p]), items[p].timestamp)
  }

  /** What the reader has done ends in an acknowledgement. */
  lemma {:induction false} RefinedEndsApplied(items: seq<Item>, trace: seq<Effect>)
    requires Refines(items, trace)
    ensures trace == [] || trace[|trace| - 1].Applied?
  {
    if items != [] && !items[|items| - 1].CommitMark? {
      RefinedEndsApplied(items[..|items| - 1], trace);
    }
  }

  /** The block of the last commit. */
  lemma LastBlock(items: seq<Item>, trace: seq<Effect>, t: nat)
    requires items != [] && items[|items| - 1].CommitMark? && Refines(items, trace)
    requires t < |trace| && CommitShows(items[..|items| - 1], items[|items| - 1].timestamp, trace, t)
    ensures IsBlockOf(items, |items| - 1, trace, t, |trace| - 1)
  {
    hide IsBatch;
    var k, n := |items| - 1, |trace| - 1;
    RefinedEndsApplied(items[..k], trace[..t]);
    AppliesCommitsInOrder(items[..k], trace[..t]);
    assert trace[..n] == trace[..t] + trace[t..n];
    BatchesAttempt(trace[t..n], PendingHints(items[..k]), items[k].timestamp);
    AttemptsApplyNothing(trace[..t], trace[t..n]);
  }

  /** A block stays one when log and trace go on. */
  lemma BlockStays(items: seq<Item>, k: nat, p: nat, trace: seq<Effect>, t: nat, lo: nat, hi: nat)
    requires k <= |items| && t <= |trace| && IsBlockOf(items[..k], p, trace[..t], lo, hi)
    ensures IsBlockOf(items, p, trace, lo, hi)
  {
    hide IsBatch, AppliedLsns, CommitLsns;
    assert items[..k][..p] == items[..p];
    assert trace[..t][..lo] == trace[..lo] && trace[..t][..hi] == trace[..hi];
    assert trace[..t][lo..hi] == trace[lo..hi];
  }

  lemma {:induction false} BlockOfCommit(items: seq<Item>, p: nat, trace: seq<Effect>) returns (lo: nat, hi: nat)
    requires Refines(items, trace) && p < |items| && items[p].CommitMark?
    ensures IsBlockOf(items, p, trace, lo, hi)
  {
    hide IsBatch, IsBlockOf;
    var k, t := |items| - 1, |trace|;
    if items[k].CommitMark? {
      t :| 0 <= t < |trace| && CommitShows(items[..k], items[k].timestamp, trace, t);
    }
    if p == k {
      LastBlock(items, trace, t);
      lo, hi := t, |trace| - 1;
    } else {
      assert trace[..|trace|] == trace;
      lo, hi := BlockOfCommit(items[..k], p, trace[..t]);
      BlockStays(items, k, p, trace, t, lo, hi);
    }
  }

  /** Every attempt of the reader lies in the block of a commit: there are no others. */
  lemma {:induction false} CommitOfAttempt(items: seq<Item>, trace: seq<Effect>, a: nat) returns (p: nat, lo: nat, hi: nat)
    requires Refines(items, trace) && a < |trace| && trace[a].Attempt?
    ensures IsBlockOf(items, p, trace, lo, hi) && lo <= a < hi
  {
    hide IsBatch, IsBlockOf;
    var k, t := |items| - 1, |trace|;
    if items[k].CommitMark? {
      t :| 0 <= t < |trace| && CommitShows(items[..k], items[k].timestamp, trace, t);
    }
    if a < t {
      assert trace[..|trace|] == trace;
      p, lo, hi := CommitOfAttempt(items[..k], trace[..t], a);
      BlockStays(items, k, p, trace, t, lo, hi);
    } else {
      LastBlock(items, trace, t);
      p, lo, hi := k, t, |trace| - 1;
    }
  }

  lemma BatchesAttempt(attempts: seq<Effect>, hints: set<QueryHint>, timestamp: U64)
    requires IsBatch(attempts, hints, timestamp)
    ensures forall i :: 0 <= i < |attempts| ==> attempts[i].Attempt?
  {
  }

  lemma CalledIsPending(items: seq<Item>, p: nat, h: QueryHint)
    requires p <= |items|
    ensures h in PendingHints(items[..p]) <==> CalledWithin(items, p, h)
    ensures h in PendingHints(items[..p]) ==> Generated(h) && RouteKey(h) == Some(h.value)
  {
    PendingIsCalled(items, p, h);
    PendingIsGenerated(items[..p]);
  }

  /** The change at `j`, in the transaction open at `p`, is about the document. */
  ghost predicate Touches(items: seq<Item>, p: nat, document: Str) {
    exists h: QueryHint :: h.value == document && CalledWithin(items, p, h)
  }

  /**
   A block has one invalidation of each document that a change of the open transaction touches, and of no
   other. Its keys are those of the hints the changes call for, each once.
   */
  ghost predicate InvalidatesTouched(items: seq<Item>, p: nat, trace: seq<Effect>, lo: nat, hi: nat)
    requires lo <= hi <= |trace| && p < |items| && items[p].CommitMark?
  {
    && (forall i :: lo <= i < hi ==> trace[i].Attempt? && trace[i].timestamp == items[p].timestamp)
    && (forall i, j :: lo <= i < j < hi ==> trace[i].document != trace[j].document)
    && (forall d :: Touches(items, p, d) <==> exists i :: lo <= i < hi && trace[i].document == d)
    && (forall i :: lo <= i < hi ==> NoDuplicates(trace[i].keys) && KeysAreCalled(items, p, trace[i]))
  }

  /** Exactly one send: between the acknowledgement before a commit and its own, the reader invalidates what it touches. */
  lemma CommitInvalidatesTouched(items: seq<Item>, p: nat, trace: seq<Effect>, lo: nat, hi: nat)
    requires IsBlockOf(items, p, trace, lo, hi)
    ensures InvalidatesTouched(items, p, trace, lo, hi)
  {
    hide CalledWithin, KeysAreCalled, IsMessageFor, RouteKey, Generated, AppliedLsns, CommitLsns;
    var attempts, hints := trace[lo..hi], PendingHints(items[..p]);
    forall h ensures h in hints <==> CalledWithin(items, p, h)
             ensures h in hints ==> Generated(h) && RouteKey(h) == Some(h.value)
    {
      CalledIsPending(items, p, h);
    }
    forall d ensures d in Destinations(hints) <==> Touches(items, p, d) {
    }
    assert forall i :: lo <= i < hi ==> trace[i] == attempts[i - lo];
    forall d ensures Touches(items, p, d) <==> exists i :: lo <= i < hi && trace[i].document == d {
      if Touches(items, p, d) {
        var i :| 0 <= i < |attempts| && attempts[i].document == d;
        assert trace[lo + i].document == d;
      }
    }
    forall i | lo <= i < hi ensures NoDuplicates(trace[i].keys) && KeysAreCalled(items, p, trace[i]) {
      assert IsMessageFor(attempts[i - lo].keys, hints, attempts[i - lo].document);
      MessageKeys(items, p, trace[i]);
    }
  }

  /** The keys of an attempt are the keys of the hints called for, for that document. */
  ghost predicate KeysAreCalled(items: seq<Item>, p: nat, a: Effect)
    requires a.Attempt?
  {
    forall key :: key in a.keys <==> exists h: QueryHint :: CalledWithin(items, p, h) && h.value == a.document && key == ToKey(h)
  }

  lemma MessageKeys(items: seq<Item>, p: nat, a: Effect)
    requires p <= |items| && a.Attempt?
    requires IsMessageFor(a.keys, PendingHints(items[..p]), a.document)
    ensures NoDuplicates(a.keys) && KeysAreCalled(items, p, a)
  {
    hide CalledWithin, ToKey, FromKey, PendingHints, Generated;
    var hints := PendingHints(items[..p]);
    var bucket :| bucket != [] && IsBucket(bucket, hints, a.document) && a.keys == Keys(bucket);
    forall h ensures h in bucket <==> CalledWithin(items, p, h) && h.value == a.document
             ensures h in bucket ==> Generated(h)
    {
      CalledIsPending(items, p, h);
    }
    forall i, j | 0 <= i < j < |bucket| ensures ToKey(bucket[i]) != ToKey(bucket[j]) {
      assert bucket[i] in bucket && bucket[j] in bucket;
      GeneratedKeyInvertible(bucket[i]);
      GeneratedKeyInvertible(bucket[j]);
    }
    forall key ensures key in a.keys <==> exists h: QueryHint :: CalledWithin(items, p, h) && h.value == a.document && key == ToKey(h) {
      if key in a.keys {
        var i :| 0 <= i < |a.keys| && a.keys[i] == key;
        assert bucket[i] in bucket;
      }
      if h: QueryHint :| CalledWithin(items, p, h) && h.value == a.document && key == ToKey(h) {
        assert h in bucket;
        var i :| 0 <= i < |bucket| && bucket[i] == h;
        assert a.keys[i] == key;
      }
    }
  }

  /** The key of a generated hint determines it. */
  lemma GeneratedKeyInvertible(h: QueryHint)
    requires Generated(h)
    ensures FromKey(ToKey(h)) == h
  {
    KeyInvertible(h);
  }

  /** Some change of the transaction open at `p` affects the document, by the values it carries. */
  ghost predicate AffectedWithin(items: seq<Item>, p: nat, document: Str) {
    exists b: nat, j: nat :: OpenedAt(items, b, p) && b < j < p && AffectedAt(items, j, document)
  }

  ghost predicate AffectedAt(items: seq<Item>, j: nat, document: Str) {
    && j < |items| && KnownRow(items[..j], items[j])
    && Affects(FirstRelation(items[..j], items[j].message.relationId).value, items[j].message, document)
  }

  /** The change at `j` affects the document and yields no hint for it. */
  ghost predicate LosesAt(items: seq<Item>, j: nat, document: Str) {
    && j < |items| && KnownRow(items[..j], items[j])
    && Loses(FirstRelation(items[..j], items[j].message.relationId).value, items[j].message, document)
  }

  ghost predicate LostWithin(items: seq<Item>, p: nat, document: Str) {
    exists b: nat, j: nat :: OpenedAt(items, b, p) && b < j < p && LosesAt(items, j, document)
  }

  lemma CallsForAffected(items: seq<Item>, j: nat, document: Str)
    ensures AffectedAt(items, j, document)
       <==> (exists h: QueryHint :: h.value == document && Calls(items, j, h)) || LosesAt(items, j, document)
  {
    if j < |items| && KnownRow(items[..j], items[j]) {
      var rel, m := FirstRelation(items[..j], items[j].message.relationId).value, items[j].message;
      AffectedIsNamedOrLost(rel, m, document);
      forall h: QueryHint ensures h in HintsOf(rel, m) <==> Calls(items, j, h) {
        GeneratesExactly(rel, m, h);
      }
      if h: QueryHint :| h in HintsOf(rel, m) && h.value == document {
        assert Calls(items, j, h);
      }
      if h: QueryHint :| h.value == document && Calls(items, j, h) {
        assert h in HintsOf(rel, m);
      }
    }
  }

  /** The documents a transaction affects are the ones it touches and the ones its updates of the losing kind name. */
  lemma AffectedIsTouchedOrLost(items: seq<Item>, p: nat, document: Str)
    ensures AffectedWithin(items, p, document) <==> Touches(items, p, document) || LostWithin(items, p, document)
  {
    forall j: nat
      ensures AffectedAt(items, j, document)
         <==> (exists h: QueryHint :: h.value == document && Calls(items, j, h)) || LosesAt(items, j, document)
    {
      CallsForAffected(items, j, document);
    }
    if Touches(items, p, document) {
      var h: QueryHint :| h.value == document && CalledWithin(items, p, h);
      var b: nat, j: nat :| OpenedAt(items, b, p) && b < j < p && Calls(items, j, h);
      assert AffectedAt(items, j, document);
    }
    if LostWithin(items, p, document) {
      var b: nat, j: nat :| OpenedAt(items, b, p) && b < j < p && LosesAt(items, j, document);
      assert AffectedAt(items, j, document);
    }
    if AffectedWithin(items, p, document) && !LostWithin(items, p, document) {
      var b: nat, j: nat :| OpenedAt(items, b, p) && b < j < p && AffectedAt(items, j, document);
      var h: QueryHint :| h.value == document && Calls(items, j, h);
      assert CalledWithin(items, p, h);
    }
  }

  // ---------- whole runs ----------

  /** The block of the commit at `p`, with what is in it. */
  ghost predicate DeliveredAt(items: seq<Item>, p: nat, trace: seq<Effect>, lo: nat, hi: nat) {
    IsBlockOf(items, p, trace, lo, hi) && InvalidatesTouched(items, p, trace, lo, hi)
  }

  /**
   The trace is the log's: the commits are acknowledged in order, each right after the invalidations of what its
   transaction touches, one each; and there are no other invalidations.
   */
  ghost predicate DeliversLog(items: seq<Item>, trace: seq<Effect>) {
    && AppliedLsns(trace) == CommitLsns(items)
    && (forall p: nat :: p < |items| && items[p].CommitMark? ==> exists lo: nat, hi: nat :: DeliveredAt(items, p, trace, lo, hi))
    && (forall a: nat :: a < |trace| && trace[a].Attempt? ==>
          exists p: nat, lo: nat, hi: nat :: DeliveredAt(items, p, trace, lo, hi) && lo <= a < hi)
  }

  lemma LogIsDelivered(items: seq<Item>, trace: seq<Effect>)
    requires Refines(items, trace)
    ensures DeliversLog(items, trace)
  {
    AppliesCommitsInOrder(items, trace);
    hide Refines, IsBlockOf, InvalidatesTouched, AppliedLsns, CommitLsns;
    forall p: nat | p < |items| && items[p].CommitMark?
      ensures exists lo: nat, hi: nat :: DeliveredAt(items, p, trace, lo, hi)
    {
      var lo, hi := BlockOfCommit(items, p, trace);
      BlockIsDelivered(items, p, trace, lo, hi);
    }
    forall a: nat | a < |trace| && trace[a].Attempt?
      ensures exists p: nat, lo: nat, hi: nat :: DeliveredAt(items, p, trace, lo, hi) && lo <= a < hi
    {
      var p, lo, hi := CommitOfAttempt(items, trace, a);
      BlockIsDelivered(items, p, trace, lo, hi);
    }
  }

  lemma BlockIsDelivered(items: seq<Item>, p: nat, trace: seq<Effect>, lo: nat, hi: nat)
    requires IsBlockOf(items, p, trace, lo, hi)
    ensures DeliveredAt(items, p, trace, lo, hi)
  {
    CommitInvalidatesTouched(items, p, trace, lo, hi);
  }

  /** The reader, from a fresh start, on any stream of events and with any rooms at the other end. */
  method ReadLog(events: seq<ReplicationEvent>) returns (trace: seq<Effect>, steps: seq<RoomsProtocol.Step>)
    ensures Refines(Processed(events), trace) && Coupled(trace, steps)
    ensures DeliversLog(Processed(events), trace)
    ensures AppliedLsns(trace) <= EndLsns(Heard(events))
    ensures ConflictFree(Flatten(events)) ==> AppliedLsns(trace) == EndLsns(Heard(events))
  {
    hide Refines, Coupled, Processed, Heard, Flatten, ConflictFree, EndLsns, AppliedLsns, CommitLsns;
    var outside := new Outside();
    var reader := new WalReader(outside);
    reader.Run(events);
    trace, steps := outside.trace, outside.steps;
    LogIsDelivered(Processed(events), trace);
    AppliesCommitsInOrder(Processed(events), trace);
    ProcessedCommits(events);
  }
}
