/**
 src/edge/subscription_index.rs: hints to subscriptions and back. The two maps are converses of each other,
 so each is determined by the other, and everything the index answers is a scan of the subscriptions.
 */
module SubscriptionIndexing {
  import opened Basics
  import opened WalTypes

  type SubscriptionId = Str
  type Inverted = map<QueryHint, set<SubscriptionId>>
  type Subscriptions = map<SubscriptionId, set<QueryHint>>

  datatype SubscriptionIndexError =
    | AlreadySubscribed(id: SubscriptionId)
    | UnknownSubscription(id: SubscriptionId)

  /** The naive answer: look at every subscription. */
  function Scan(subscriptions: Subscriptions, hint: QueryHint): set<SubscriptionId> {
    set id | id in subscriptions && hint in subscriptions[id]
  }

  /** A hint is indexed exactly when some subscription has it, with exactly those that have it. */
  ghost predicate Converse(inverted: Inverted, subscriptions: Subscriptions) {
    forall h :: if h in inverted then inverted[h] == Scan(subscriptions, h) != {} else Scan(subscriptions, h) == {}
  }

  function Registered(inverted: Inverted, hint: QueryHint, id: SubscriptionId): Inverted {
    inverted[hint := (if hint in inverted then inverted[hint] else {}) + {id}]
  }

  function Unregistered(inverted: Inverted, hint: QueryHint, id: SubscriptionId): Inverted {
    if hint !in inverted then inverted
    else if inverted[hint] - {id} == {} then inverted - {hint}
    else inverted[hint := inverted[hint] - {id}]
  }

  lemma RegisterKeepsConverse(
      inverted: Inverted, subscriptions: Subscriptions, id: SubscriptionId, hints: set<QueryHint>, hint: QueryHint)
    requires Converse(inverted, subscriptions[id := hints])
    ensures Converse(Registered(inverted, hint, id), subscriptions[id := hints + {hint}])
  {
  }

  lemma UnregisterKeepsConverse(
      inverted: Inverted, subscriptions: Subscriptions, id: SubscriptionId, hints: set<QueryHint>, hint: QueryHint)
    requires Converse(inverted, subscriptions[id := hints])
    ensures Converse(Unregistered(inverted, hint, id), subscriptions[id := hints - {hint}])
  {
  }

  lemma ConverseWithoutHints(inverted: Inverted, subscriptions: Subscriptions, id: SubscriptionId)
    ensures Converse(inverted, subscriptions[id := {}]) <==> Converse(inverted, subscriptions - {id})
  {
  }

  class SubscriptionIndex {
    var inverted: Inverted
    var subscriptions: Subscriptions

    ghost predicate Valid()
      reads this
    {
      Converse(inverted, subscriptions)
    }

    constructor ()
      ensures Valid() && inverted == map[] && subscriptions == map[]
    {
      inverted, subscriptions := map[], map[];
    }

    method Subscribe(id: SubscriptionId, hints: set<QueryHint>) returns (r: Result<(), SubscriptionIndexError>)
      requires Valid()
      modifies this
      ensures Valid()
      ensures r == if id in old(subscriptions) then Failure(AlreadySubscribed(id)) else Success(())
      ensures subscriptions == Performed(old(subscriptions), Subscribing(id, hints))
      ensures r.Failure? ==> inverted == old(inverted)
    {
      if id in subscriptions {
        return Failure(AlreadySubscribed(id));
      }
      assert subscriptions - {id} == subscriptions;
      ConverseWithoutHints(inverted, subscriptions, id);
      Register(id, hints, {});
      subscriptions := subscriptions[id := hints];
      return Success(());
    }

    /** The loop over the hints to add; `present` are the ones the subscription has already. */
    method Register(id: SubscriptionId, hints: set<QueryHint>, ghost present: set<QueryHint>)
      requires Converse(inverted, subscriptions[id := present])
      modifies this`inverted
      ensures Converse(inverted, subscriptions[id := present + hints])
    {
      var todo := hints;
      assert present + (hints - todo) == present;
      while todo != {}
        invariant todo <= hints
        invariant Converse(inverted, subscriptions[id := present + (hints - todo)])
      {
        var hint :| hint in todo;
        RegisterKeepsConverse(inverted, subscriptions, id, present + (hints - todo), hint);
        inverted := Registered(inverted, hint, id);
        assert present + (hints - todo) + {hint} == present + (hints - (todo - {hint}));
        todo := todo - {hint};
      }
      assert present + (hints - todo) == present + hints;
    }

    /** The loop over the hints to remove, of all those the subscription has. */
    method Unregister(id: SubscriptionId, hints: set<QueryHint>, ghost present: set<QueryHint>)
      requires Converse(inverted, subscriptions[id := present])
      modifies this`inverted
      ensures Converse(inverted, subscriptions[id := present - hints])
    {
      var todo := hints;
      assert present - (hints - todo) == present;
      while todo != {}
        invariant todo <= hints
        invariant Converse(inverted, subscriptions[id := present - (hints - todo)])
      {
        var hint :| hint in todo;
        UnregisterKeepsConverse(inverted, subscriptions, id, present - (hints - todo), hint);
        inverted := Unregistered(inverted, hint, id);
        assert present - (hints - todo) - {hint} == present - (hints - (todo - {hint}));
        todo := todo - {hint};
      }
      assert present - (hints - todo) == present - hints;
    }

    method Unsubscribe(id: SubscriptionId) returns (r: Option<set<QueryHint>>)
      requires Valid()
      modifies this
      ensures Valid()
      ensures r == if id in old(subscriptions) then Some(old(subscriptions)[id]) else None
      ensures subscriptions == Performed(old(subscriptions), Unsubscribing(id))
      ensures r.None? ==> inverted == old(inverted)
    {
      if id !in subscriptions {
        assert subscriptions - {id} == subscriptions;
        return None;
      }
      var hints := subscriptions[id];
      ghost var before := subscriptions;
      subscriptions := subscriptions - {id};
      assert before == subscriptions[id := hints];
      Unregister(id, hints, hints);
      assert hints - hints == {};
      ConverseWithoutHints(inverted, subscriptions, id);
      assert subscriptions - {id} == subscriptions;
      return Some(hints);
    }

    method UpdateHints(id: SubscriptionId, newHints: set<QueryHint>) returns (r: Result<(), SubscriptionIndexError>)
      requires Valid()
      modifies this
      ensures Valid()
      ensures r == if id in old(subscriptions) then Success(()) else Failure(UnknownSubscription(id))
      ensures subscriptions == Performed(old(subscriptions), Updating(id, newHints))
      ensures r.Failure? ==> inverted == old(inverted)
    {
      if id !in subscriptions {
        return Failure(UnknownSubscription(id));
      }
      var oldHints := subscriptions[id];
      var removed := oldHints - newHints;
      var added := newHints - oldHints;
      assert subscriptions[id := oldHints] == subscriptions;
      Unregister(id, removed, oldHints);
      Register(id, added, oldHints - removed);
      assert oldHints - removed + added == newHints;
      subscriptions := subscriptions[id := newHints];
      return Success(());
    }

    function SubscriptionsForHint(hint: QueryHint): (ids: set<SubscriptionId>)
      requires Valid()
      reads this
      ensures ids == Scan(subscriptions, hint)
    {
      if hint in inverted then inverted[hint] else {}
    }

    function HintsForSubscription(id: SubscriptionId): Option<set<QueryHint>>
      reads this
    {
      if id in subscriptions then Some(subscriptions[id]) else None
    }

    predicate IsEmpty()
      requires Valid()
      reads this
      ensures IsEmpty() <==> subscriptions == map[]
    {
      EmptyScans(subscriptions);
      inverted == map[] && subscriptions == map[]
    }

    /** Any run of operations on a new index, and what it answers afterwards. */
    method PerformAll(ops: seq<Operation>)
      requires Valid() && subscriptions == map[]
      modifies this
      ensures Valid() && subscriptions == After(ops)
      ensures forall h :: SubscriptionsForHint(h) == set id | id in subscriptions && RegisteredLast(ops, id, h)
      ensures forall id :: HintsForSubscription(id) == Last(ops, id)
    {
      for i := 0 to |ops|
        invariant Valid() && subscriptions == After(ops[..i])
      {
        assert ops[..i + 1][..i] == ops[..i];
        match ops[i]
        case Subscribing(id, hints) =>
          var r := Subscribe(id, hints);
        case Unsubscribing(id) =>
          var r := Unsubscribe(id);
        case Updating(id, hints) =>
          var r := UpdateHints(id, hints);
      }
      assert ops[..|ops|] == ops;
      forall id ensures Last(ops, id).Some? <==> id in subscriptions
                ensures id in subscriptions ==> Last(ops, id) == Some(subscriptions[id])
      {
        LastIsKept(ops, id);
      }
    }
  }

  lemma EmptyScans(subscriptions: Subscriptions)
    ensures subscriptions == map[] ==> forall h :: Scan(subscriptions, h) == {}
  {
  }

  // ---------- runs ----------

  datatype Operation =
    | Subscribing(id: SubscriptionId, hints: set<QueryHint>)
    | Unsubscribing(id: SubscriptionId)
    | Updating(id: SubscriptionId, hints: set<QueryHint>)

  /** The subscriptions after an operation; one that fails changes nothing. */
  function Performed(subscriptions: Subscriptions, op: Operation): Subscriptions {
    match op
    case Subscribing(id, hints) => if id in subscriptions then subscriptions else subscriptions[id := hints]
    case Unsubscribing(id) => subscriptions - {id}
    case Updating(id, hints) => if id in subscriptions then subscriptions[id := hints] else subscriptions
  }

  function After(ops: seq<Operation>): Subscriptions {
    if ops == [] then map[] else Performed(After(ops[..|ops| - 1]), ops[|ops| - 1])
  }

  /** The hint set registered last for one subscription, by its own operations only. */
  function Last(ops: seq<Operation>, id: SubscriptionId): Option<set<QueryHint>> {
    if ops == [] then None else
      var k := |ops| - 1;
      var earlier := Last(ops[..k], id);
      if ops[k].id != id then earlier else
        match ops[k]
        case Subscribing(_, hints) => if earlier.Some? then earlier else Some(hints)
        case Unsubscribing(_) => None
        case Updating(_, hints) => if earlier.Some? then Some(hints) else None
  }

  predicate RegisteredLast(ops: seq<Operation>, id: SubscriptionId, hint: QueryHint) {
    Last(ops, id).Some? && hint in Last(ops, id).value
  }

  lemma {:induction false} LastIsKept(ops: seq<Operation>, id: SubscriptionId)
    ensures Last(ops, id) == if id in After(ops) then Some(After(ops)[id]) else None
  {
    if ops != [] {
      LastIsKept(ops[..|ops| - 1], id);
    }
  }

  // ---------- the two maps determine each other ----------

  lemma ConverseIsUnique(inverted: Inverted, other: Inverted, subscriptions: Subscriptions)
    requires Converse(inverted, subscriptions) && Converse(other, subscriptions)
    ensures inverted == other
  {
  }

  /** Updating a live subscription is unsubscribing and subscribing anew, in both maps. */
  lemma UpdateIsResubscribe(
      subscriptions: Subscriptions, id: SubscriptionId, hints: set<QueryHint>, updated: Inverted, resubscribed: Inverted)
    requires id in subscriptions
    requires Converse(updated, Performed(subscriptions, Updating(id, hints)))
    requires Converse(resubscribed, Performed(Performed(subscriptions, Unsubscribing(id)), Subscribing(id, hints)))
    ensures Performed(subscriptions, Updating(id, hints))
         == Performed(Performed(subscriptions, Unsubscribing(id)), Subscribing(id, hints))
    ensures updated == resubscribed
  {
  }

  /** Subscribing and unsubscribing a new subscription restores both maps. */
  lemma UnsubscribeUndoesSubscribe(
      subscriptions: Subscriptions, id: SubscriptionId, hints: set<QueryHint>, before: Inverted, after: Inverted)
    requires id !in subscriptions
    requires Converse(before, subscriptions)
    requires Converse(after, Performed(Performed(subscriptions, Subscribing(id, hints)), Unsubscribing(id)))
    ensures Performed(Performed(subscriptions, Subscribing(id, hints)), Unsubscribing(id)) == subscriptions
    ensures after == before
  {
  }

  // ---------- double counting ----------

  ghost function SizeSum<K, V>(m: map<K, set<V>>): nat
    decreases |m|
  {
    if m == map[] then 0 else
      var k :| k in m;
      assert |m - {k}| < |m| by { assert (m - {k}).Keys == m.Keys - {k}; KeysCount(m); KeysCount(m - {k}); }
      |m[k]| + SizeSum(m - {k})
  }

  lemma KeysCount<K, V>(m: map<K, V>)
    ensures |m| == |m.Keys|
  {
  }

  ghost function Pairs<K, V>(m: map<K, set<V>>): set<(K, V)> {
    set k, v | k in m && v in m[k] :: (k, v)
  }

  ghost function Row<K, V>(k: K, vs: set<V>): set<(K, V)> {
    set v | v in vs :: (k, v)
  }

  lemma {:induction false} RowCount<K, V>(k: K, vs: set<V>)
    ensures |Row(k, vs)| == |vs|
  {
    if vs != {} {
      var v :| v in vs;
      RowCount(k, vs - {v});
      assert Row(k, vs) == Row(k, vs - {v}) + {(k, v)};
    }
  }

  lemma {:induction false} SizeSumCountsPairs<K, V>(m: map<K, set<V>>)
    ensures SizeSum(m) == |Pairs(m)|
    decreases |m|
  {
    if m != map[] {
      var k :| k in m && SizeSum(m) == |m[k]| + SizeSum(m - {k});
      assert (m - {k}).Keys == m.Keys - {k};
      KeysCount(m);
      KeysCount(m - {k});
      SizeSumCountsPairs(m - {k});
      RowCount(k, m[k]);
      assert Pairs(m) == Pairs(m - {k}) + Row(k, m[k]);
      assert Pairs(m - {k}) !! Row(k, m[k]);
    } else {
      assert Pairs(m) == {};
    }
  }

  lemma {:induction false} SwapCount<K, V>(pairs: set<(K, V)>, swapped: set<(V, K)>)
    requires forall k, v :: (k, v) in pairs <==> (v, k) in swapped
    ensures |pairs| == |swapped|
  {
    forall p | p in swapped ensures (p.1, p.0) in pairs {
      assert p == (p.0, p.1);
    }
    if pairs == {} {
      assert swapped == {};
    } else {
      var p :| p in pairs;
      assert (p.1, p.0) in swapped;
      SwapCount(pairs - {p}, swapped - {(p.1, p.0)});
    }
  }

  /** No leak: the two maps hold the same number of links, and no hint is kept for nobody. */
  lemma LinksAreCountedTwice(inverted: Inverted, subscriptions: Subscriptions)
    requires Converse(inverted, subscriptions)
    ensures SizeSum(inverted) == SizeSum(subscriptions)
    ensures forall h :: h in inverted ==> inverted[h] != {}
  {
    SizeSumCountsPairs(inverted);
    SizeSumCountsPairs(subscriptions);
    forall h, id ensures (h, id) in Pairs(inverted) <==> (id, h) in Pairs(subscriptions) {
      assert id in Scan(subscriptions, h) <==> id in subscriptions && h in subscriptions[id];
    }
    SwapCount(Pairs(inverted), Pairs(subscriptions));
  }
}
