/**
 From a row change to the clients of a room: the reader of src/wal/replication.rs and the rooms of src/rooms.rs,
 joined at the sink. Every invalidation of an acknowledged commit is accounted for.
 */
module EndToEnd {
  import opened Channels
  import opened Rooms
  import opened RoomsProtocol
  import opened RoomsInvariants
  import opened RoomsFifo
  import opened WalLog
  import opened Sink
  import Replication
  import opened WalTheorems

  // ---------- positions ----------

  /** The position of an attempt among the attempts is where its offer stands among the invalidations. */
  lemma {:induction false} SentAt(trace: seq<Effect>, t: nat)
    requires t < |trace| && trace[t].Attempt?
    ensures |Sends(trace[..t])| < |Sends(trace)| && Sends(trace)[|Sends(trace[..t])|] == OfferOf(trace[t])
  {
    var k := |trace| - 1;
    if t < k {
      assert trace[..k][..t] == trace[..t];
      SentAt(trace[..k], t);
    }
  }

  lemma {:induction false} InvalidationAt(offers: seq<Offer>, n: nat) returns (j: nat)
    requires n < |Invalidations(offers)|
    ensures j < |offers| && offers[j] == Invalidations(offers)[n] && |Invalidations(offers[..j])| == n
  {
    var k := |offers| - 1;
    if n < |Invalidations(offers[..k])| {
      j := InvalidationAt(offers[..k], n);
      assert offers[..k][..j] == offers[..j];
    } else {
      j := k;
    }
  }

  lemma {:induction false} AcceptedAt(offers: seq<Offer>, j: nat)
    requires j < |offers| && offers[j].accepted
    ensures |Accepted(offers[..j])| < |Accepted(offers)| && Accepted(offers)[|Accepted(offers[..j])|] == offers[j].post
  {
    var k := |offers| - 1;
    if j < k {
      assert offers[..k][..j] == offers[..j];
      AcceptedAt(offers[..k], j);
    }
  }

  // ---------- what becomes of an offer ----------

  /** The broadcast at position `i` has one answer for each entry its room had, as far as the coordinator has come. */
  ghost predicate AnsweredByAll(s: State, i: nat)
    requires i < |s.audience|
  {
    forall c :: CountAt(Of(s.deliveries, c), i) == Shares(Asked(s, i), c)
  }

  /**
   The offer is turned away, or it waits in the command channel in its turn, or it was taken up: then it has one
   answer for each entry its room had at that moment, or up to the entry the coordinator has come to.
   */
  ghost predicate Accounted(s: State, j: nat)
    requires j < |s.offers|
  {
    var i := |Accepted(s.offers[..j])|;
    || !s.offers[j].accepted
    || (i >= |s.processed| && i - |s.processed| < |Posts(s.commands.queue)|
        && Posts(s.commands.queue)[i - |s.processed|] == s.offers[j].post)
    || (i < |s.processed| && i < |s.audience| && s.processed[i] == s.offers[j].post && AnsweredByAll(s, i))
  }

  /** Every offer of every run is accounted for. */
  lemma OffersAreAccounted(steps: seq<Step>, j: nat)
    requires j < |Run(steps).offers|
    ensures Accounted(Run(steps), j)
  {
    var s := Run(steps);
    EveryRunIsGood(steps);
    hide Run, Consistent, Membership, Departures, Accepted, Posts, FullDeliveries, Of, CountAt, Shares, Asked;
    if s.offers[j].accepted {
      var i := |Accepted(s.offers[..j])|;
      AcceptedAt(s.offers, j);
      if i < |s.processed| {
        forall c ensures CountAt(Of(s.deliveries, c), i) == Shares(Asked(s, i), c) {
          AnswersOfRun(steps, i, c);
        }
      }
    }
  }

  lemma AnswersOfRun(steps: seq<Step>, i: nat, c: ClientId)
    requires i < |Run(steps).processed| == |Run(steps).audience|
    ensures CountAt(Of(Run(steps).deliveries, c), i) == Shares(Asked(Run(steps), i), c)
  {
    EveryClientIsServed(steps, c);
    hide Run, Of, CountAt, Shares, Asked, SentMessages;
  }

  // ---------- joined ----------

  /** The attempt at position `t` of the trace is the offer at position `j` of the rooms. */
  ghost predicate SameSend(trace: seq<Effect>, t: nat, offers: seq<Offer>, j: nat) {
    && t < |trace| && trace[t].Attempt? && j < |offers|
    && offers[j] == OfferOf(trace[t])
    && |Invalidations(offers[..j])| == |Sends(trace[..t])|
  }

  lemma OfferOfAttempt(trace: seq<Effect>, steps: seq<Step>, t: nat) returns (j: nat)
    requires Coupled(trace, steps) && t < |trace| && trace[t].Attempt?
    ensures SameSend(trace, t, Run(steps).offers, j)
  {
    hide Run, Sends, Invalidations;
    SentAt(trace, t);
    j := InvalidationAt(Run(steps).offers, |Sends(trace[..t])|);
  }

  /** The commit at `p` has invalidated the document, at `t`; the rooms got it as their offer `j`, and account for it. */
  ghost predicate Reached(items: seq<Item>, p: nat, document: DocumentId, trace: seq<Effect>, s: State, t: nat, j: nat) {
    && SameSend(trace, t, s.offers, j) && trace[t].document == document
    && KeysAreCalled(items, p, trace[t])
    && Accounted(s, j)
    && (s.offers[j].accepted || trace[t].outcome.Full?)
  }

  /**
   Each document that an acknowledged commit touches has its invalidation, with the keys of its hints: turned
   away because the command channel was full, which the reader counts; or queued; or broadcast to its room.
   */
  lemma CommitReachesRooms(items: seq<Item>, p: nat, trace: seq<Effect>, steps: seq<Step>, document: DocumentId)
    returns (t: nat, j: nat)
    requires Replication.Refines(items, trace) && Coupled(trace, steps)
    requires p < |items| && items[p].CommitMark? && Touches(items, p, document)
    ensures Reached(items, p, document, trace, Run(steps), t, j)
  {
    var lo, hi := BlockOfCommit(items, p, trace);
    CommitInvalidatesTouched(items, p, trace, lo, hi);
    hide Run, IsBlockOf, Touches, KeysAreCalled, Invalidations, Sends, Accounted, Replication.Refines;
    t :| lo <= t < hi && trace[t].document == document;
    j := OfferOfAttempt(trace, steps, t);
    OffersAreAccounted(steps, j);
  }

  /** Every commit reaches the rooms of all the documents it touches. */
  ghost predicate AllReached(items: seq<Item>, trace: seq<Effect>, s: State) {
    forall p: nat, d :: p < |items| && items[p].CommitMark? && Touches(items, p, d)
      ==> exists t: nat, j: nat :: Reached(items, p, d, trace, s, t, j)
  }

  lemma CommitsReachRooms(items: seq<Item>, trace: seq<Effect>, steps: seq<Step>)
    requires Replication.Refines(items, trace) && Coupled(trace, steps)
    ensures AllReached(items, trace, Run(steps))
  {
    hide Run, Coupled, Touches, Reached, Replication.Refines;
    forall p: nat, d | p < |items| && items[p].CommitMark? && Touches(items, p, d)
      ensures exists t: nat, j: nat :: Reached(items, p, d, trace, Run(steps), t, j)
    {
      var t, j := CommitReachesRooms(items, p, trace, steps, d);
    }
  }

  /** The reader and the rooms, from a fresh start, on any stream of events; `after` is what the rooms do at the end. */
  method RunServer(events: seq<ReplicationEvent>, after: seq<Step>) returns (trace: seq<Effect>, steps: seq<Step>)
    requires OwnSteps(after)
    ensures DeliversLog(Processed(events), trace)
    ensures AllReached(Processed(events), trace, Run(steps))
  {
    hide Run, DeliversLog, Coupled, AllReached, Replication.Refines, Processed;
    trace, steps := ReadLog(events);
    OwnStepsKeepCoupled(trace, steps, after);
    steps := steps + after;
    CommitsReachRooms(Processed(events), trace, steps);
  }
}
