/**
 src/wal/sink.rs: what the WAL reader does to the world, and how its invalidations enter the rooms. The rooms go
 on with any steps of their own between two calls of the sink.
 */
module Sink {
  import opened Basics
  import opened Channels
  import opened WalTypes
  import opened Rooms
  import opened RoomsProtocol
  import opened RoomsSteps
  import opened RoomsInvariants

  datatype Effect =
    | Attempt(document: Str, keys: seq<Str>, timestamp: U64, outcome: SendOutcome)
    | Applied(lsn: U64)

  /** The keys of an invalidation message. */
  function Keys(hints: seq<QueryHint>): (keys: seq<Str>)
    ensures |keys| == |hints| && forall i :: 0 <= i < |hints| ==> keys[i] == ToKey(hints[i])
  {
    seq(|hints|, i requires 0 <= i < |hints| => ToKey(hints[i]))
  }

  // ---------- attempts and offers ----------

  /** The broadcast command an attempt offers to the rooms, and whether it was taken. */
  function OfferOf(a: Effect): Offer
    requires a.Attempt?
  {
    Offer(Post(a.document, Invalidation(a.keys, a.timestamp)), a.outcome.Sent?)
  }

  function Sends(trace: seq<Effect>): seq<Offer> {
    if trace == [] then [] else
      var k := |trace| - 1;
      Sends(trace[..k]) + if trace[k].Attempt? then [OfferOf(trace[k])] else []
  }

  function Invalidations(offers: seq<Offer>): seq<Offer> {
    if offers == [] then [] else
      var k := |offers| - 1;
      Invalidations(offers[..k]) + if offers[k].post.message.Invalidation? then [offers[k]] else []
  }

  /** The invalidations offered to the rooms in a run are the attempts of the trace, in order and with their outcome. */
  ghost predicate Coupled(trace: seq<Effect>, steps: seq<Step>) {
    && Invalidations(Run(steps).offers) == Sends(trace)
    && forall i :: 0 <= i < |trace| && trace[i].Attempt? ==> !trace[i].outcome.Closed?
  }

  lemma SendsAppend(trace: seq<Effect>, x: Effect)
    ensures Sends(trace + [x]) == Sends(trace) + if x.Attempt? then [OfferOf(x)] else []
  {
    assert (trace + [x])[..|trace|] == trace;
  }

  lemma InvalidationsAppend(offers: seq<Offer>, x: Offer)
    ensures Invalidations(offers + [x]) == Invalidations(offers) + if x.post.message.Invalidation? then [x] else []
  {
    assert (offers + [x])[..|offers|] == offers;
  }

  predicate OwnSteps(steps: seq<Step>) {
    forall i :: 0 <= i < |steps| ==> !steps[i].Invalidate?
  }

  /** Steps of sessions and of the coordinator offer no invalidation. */
  lemma {:induction false} OwnStepsOfferNone(steps: seq<Step>, others: seq<Step>)
    requires OwnSteps(others)
    ensures Invalidations(Run(steps + others).offers) == Invalidations(Run(steps).offers)
  {
    hide Apply, Consistent, Membership, Departures, Conserved, Underway, ChannelsMove, SessionsMove, Invalidations;
    if others == [] {
      assert steps + others == steps;
    } else {
      var k := |others| - 1;
      OwnStepsOfferNone(steps, others[..k]);
      var s := Run(steps + others[..k]);
      assert (steps + others)[..|steps| + k] == steps + others[..k];
      EveryRunIsGood(steps + others[..k]);
      if others[k].Coordinate? {
        CoordinateOffersNothing(s);
      } else {
        StepIsOuter(s, others[k]);
        if ActOf(s, others[k]).Posting? {
          InvalidationsAppend(s.offers, Offer(ActOf(s, others[k]).post, Takes(s)));
        }
      }
    }
  }

  /** The sink's step offers its invalidation, and the command channel is never closed. */
  lemma InvalidateOffers(steps: seq<Step>, document: Str, keys: seq<Str>, timestamp: U64)
    ensures var s := Run(steps);
            && Run(steps + [Invalidate(document, keys, timestamp)]).offers
            == s.offers + [Offer(Post(document, Invalidation(keys, timestamp)), Takes(s))]
            && !TrySendOutcome(s.commands).Closed?
  {
    hide Consistent, Membership, Departures, Conserved, Underway;
    EveryRunIsGood(steps);
    KeysAgree(Run(steps));
    RunMore(steps, Invalidate(document, keys, timestamp));
    hide Run;
  }

  /** The command channel's answer, after these steps. */
  function AnswerAfter(steps: seq<Step>): SendOutcome {
    TrySendOutcome(Run(steps).commands)
  }

  lemma SendKeepsCoupled(trace: seq<Effect>, steps: seq<Step>, a: Effect)
    requires Coupled(trace, steps) && a.Attempt? && a.outcome == AnswerAfter(steps)
    ensures Coupled(trace + [a], steps + [Invalidate(a.document, a.keys, a.timestamp)])
  {
    hide Run, Invalidations, Sends;
    InvalidateOffers(steps, a.document, a.keys, a.timestamp);
    InvalidationsAppend(Run(steps).offers, OfferOf(a));
    SendsAppend(trace, a);
  }

  lemma AppliedKeepsCoupled(trace: seq<Effect>, steps: seq<Step>, lsn: U64)
    requires Coupled(trace, steps)
    ensures Coupled(trace + [Applied(lsn)], steps)
  {
    SendsAppend(trace, Applied(lsn));
    hide Run, Invalidations, Sends;
  }

  lemma OwnStepsKeepCoupled(trace: seq<Effect>, steps: seq<Step>, others: seq<Step>)
    requires Coupled(trace, steps) && OwnSteps(others)
    ensures Coupled(trace, steps + others)
  {
    hide Run, Invalidations, Sends;
    OwnStepsOfferNone(steps, others);
  }

  class Outside {
    var trace: seq<Effect>
    var steps: seq<Step>

    ghost predicate Valid()
      reads this
    {
      Coupled(trace, steps)
    }

    constructor ()
      ensures Valid() && trace == [] && steps == []
    {
      trace, steps := [], [];
    }

    /** What the rooms do by themselves, which may be anything. */
    method LetRoomsGoOn()
      requires Valid()
      modifies this`steps
      ensures Valid()
    {
      var others: seq<Step> := *;
      var i := 0;
      while i < |others| && !others[i].Invalidate?
        invariant i <= |others| && OwnSteps(others[..i])
      {
        i := i + 1;
      }
      OwnStepsKeepCoupled(trace, steps, others[..i]);
      hide Coupled;
      steps := steps + others[..i];
    }

    /** `RoomsInvalidationSink::send_invalidation`: one broadcast command, and the command channel's answer to it. */
    method SendInvalidation(document: Str, hints: seq<QueryHint>, timestamp: U64) returns (outcome: SendOutcome)
      requires Valid()
      modifies this
      ensures Valid()
      ensures trace == old(trace) + [Attempt(document, Keys(hints), timestamp, outcome)]
      ensures steps != [] && steps[|steps| - 1] == Invalidate(document, Keys(hints), timestamp)
      ensures outcome == AnswerAfter(steps[..|steps| - 1])
    {
      hide Coupled, AnswerAfter, Keys;
      LetRoomsGoOn();
      var keys: seq<Str> := [];
      for i := 0 to |hints|
        invariant keys == Keys(hints)[..i]
      {
        keys := keys + [ToKey(hints[i])];
      }
      assert Keys(hints)[..|hints|] == Keys(hints);
      outcome := AnswerAfter(steps);
      SendKeepsCoupled(trace, steps, Attempt(document, keys, timestamp, outcome));
      assert (steps + [Invalidate(document, keys, timestamp)])[..|steps|] == steps;
      trace := trace + [Attempt(document, keys, timestamp, outcome)];
      steps := steps + [Invalidate(document, keys, timestamp)];
    }

    method UpdateAppliedLsn(lsn: U64)
      requires Valid()
      modifies this`trace
      ensures Valid()
      ensures trace == old(trace) + [Applied(lsn)]
    {
      hide Coupled;
      AppliedKeepsCoupled(trace, steps, lsn);
      trace := trace + [Applied(lsn)];
    }
  }
}
