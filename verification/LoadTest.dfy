/**
 The load test of src/bin/loadtest.rs: one producer that numbers its messages, and a subscriber that counts
 the gaps in the numbers it receives. Lost messages are traced to the two places that drop them.
 */
module LoadTest {
  import opened Basics
  import opened Channels
  import opened Rooms
  import opened RoomsProtocol
  import opened RoomsSteps
  import opened RoomsInvariants
  import opened RoomsFifo
  import opened RoomsSeats

  /** The number in a payload, for the messages that carry one. */
  function Number(m: ServerMessage): Option<nat> {
    if m.Message? && m.body.Payload? then Some(m.body.number) else None
  }

  function Numbers(ms: seq<ServerMessage>): seq<nat> {
    if ms == [] then [] else
      var k := |ms| - 1;
      Numbers(ms[..k]) + if Number(ms[k]).Some? then [Number(ms[k]).value] else []
  }

  predicate IsPayload(m: ServerMessage) {
    m.Message? && m.body.Payload?
  }

  /** The numbers are those of the payload messages, each once and in their order, and of no others. */
  lemma {:induction false} NumbersListPayloads(ms: seq<ServerMessage>) returns (at: seq<nat>)
    ensures |at| == |Numbers(ms)|
    ensures forall k :: 0 <= k < |at| ==> at[k] < |ms| && IsPayload(ms[at[k]]) && Numbers(ms)[k] == ms[at[k]].body.number
    ensures forall k, l :: 0 <= k < l < |at| ==> at[k] < at[l]
    ensures forall i: nat :: i < |ms| && IsPayload(ms[i]) ==> i in at
  {
    if ms == [] {
      at := [];
    } else {
      var n := |ms| - 1;
      var front := NumbersListPayloads(ms[..n]);
      at := front + if IsPayload(ms[n]) then [n] else [];
      forall i: nat | i < |ms| && IsPayload(ms[i]) ensures i in at {
        if i < n {
          assert ms[..n][i] == ms[i];
          assert i in front;
        }
      }
    }
  }

  ghost predicate Ascending(ns: seq<nat>) {
    forall i, j :: 0 <= i < j < |ns| ==> ns[i] < ns[j]
  }

  // ---------- counting gaps ----------

  /** The sum of the jumps between neighbours. */
  function GapSum(ns: seq<nat>): nat {
    if |ns| < 2 then 0 else
      var k := |ns| - 1;
      GapSum(ns[..k]) + if ns[k] > ns[k - 1] + 1 then ns[k] - ns[k - 1] - 1 else 0
  }

  /** The receive loop of `run_subscriber`, on the messages it gets from the stream. */
  method CountGaps(stream: seq<ServerMessage>) returns (received: nat, seqGaps: nat, lastSeq: Option<nat>)
    ensures received == |Numbers(stream)|
    ensures seqGaps == GapSum(Numbers(stream))
  {
    received, seqGaps, lastSeq := 0, 0, None;
    for i := 0 to |stream|
      invariant received == |Numbers(stream[..i])|
      invariant seqGaps == GapSum(Numbers(stream[..i]))
      invariant lastSeq == if received == 0 then None else Some(Numbers(stream[..i])[received - 1])
    {
      assert stream[..i + 1][..i] == stream[..i];
      if Number(stream[i]).None? {
        assert Numbers(stream[..i]) + [] == Numbers(stream[..i]);
        continue;
      }
      var seq_ := Number(stream[i]).value;
      assert (Numbers(stream[..i]) + [seq_])[..received] == Numbers(stream[..i]);
      received := received + 1;
      if lastSeq.Some? {
        if seq_ > lastSeq.value + 1 {
          seqGaps := seqGaps + (seq_ - lastSeq.value - 1);
        }
      }
      lastSeq := Some(seq_);
    }
    assert stream[..|stream|] == stream;
  }

  /** The numbers between the first and the last that are not there. */
  function Missing(ns: seq<nat>): set<int> {
    if ns == [] then {} else set n: int | ns[0] <= n <= ns[|ns| - 1] && n !in ns
  }

  function Between(a: int, b: int): (r: set<int>)
    ensures forall n :: n in r <==> a < n < b
    decreases b - a
  {
    if a + 1 < b then Between(a, b - 1) + {b - 1} else {}
  }

  lemma {:induction false} BetweenCount(a: int, b: int)
    requires a < b
    ensures |Between(a, b)| == b - a - 1
    decreases b - a
  {
    if a + 1 < b {
      BetweenCount(a, b - 1);
    }
  }

  lemma MissingSplit(ns: seq<nat>)
    requires Ascending(ns) && |ns| > 1
    ensures var k := |ns| - 1;
            && Missing(ns) == Missing(ns[..k]) + Between(ns[k - 1], ns[k])
            && Missing(ns[..k]) !! Between(ns[k - 1], ns[k])
  {
  }

  /** For ascending numbers, the gaps add up to the count of the missing ones. */
  lemma {:induction false} GapsCountMissing(ns: seq<nat>)
    requires Ascending(ns)
    ensures GapSum(ns) == |Missing(ns)|
  {
    if |ns| == 1 {
      assert Missing(ns) == {};
    } else if |ns| > 1 {
      var k := |ns| - 1;
      var front := ns[..k];
      GapsCountMissing(front);
      BetweenCount(ns[k - 1], ns[k]);
      MissingSplit(ns);
    }
  }

  // ---------- the producer ----------

  function OfferedNumbers(offers: seq<Offer>): nat {
    if offers == [] then 0 else
      var k := |offers| - 1;
      OfferedNumbers(offers[..k]) + if Number(offers[k].post.message).Some? then 1 else 0
  }

  /** Only the producer sends payloads, to the room `d`, and it numbers them from zero on. */
  ghost predicate Produces(s: State, step: Step, p: ClientId, d: DocumentId) {
    var act := ActOf(s, step);
    act.Posting? && Number(act.post.message).Some? ==>
      act.post.message.from == p && act.post.room == d && Number(act.post.message).value == OfferedNumbers(s.offers)
  }

  ghost predicate RunProduces(steps: seq<Step>, p: ClientId, d: DocumentId) {
    forall i :: 0 <= i < |steps| ==> Produces(Run(steps[..i]), steps[i], p, d)
  }

  /** The offers carry the numbers in order. */
  ghost predicate Numbered(offers: seq<Offer>, d: DocumentId) {
    forall i :: 0 <= i < |offers| && Number(offers[i].post.message).Some? ==>
      offers[i].post.room == d && Number(offers[i].post.message).value == OfferedNumbers(offers[..i])
  }

  lemma OuterKeepsNumbered(s: State, s1: State, act: Act, p: ClientId, d: DocumentId)
    requires Numbered(s.offers, d) && CommandsMove(s, s1, act)
    requires act.Posting? && Number(act.post.message).Some? ==>
               act.post.room == d && Number(act.post.message).value == OfferedNumbers(s.offers)
    ensures Numbered(s1.offers, d)
  {
    forall i | 0 <= i < |s1.offers| && Number(s1.offers[i].post.message).Some?
      ensures s1.offers[i].post.room == d && Number(s1.offers[i].post.message).value == OfferedNumbers(s1.offers[..i])
    {
      if i < |s.offers| {
        assert s1.offers[..i] == s.offers[..i];
        assert s1.offers[i] == s.offers[i];
      } else {
        assert s1.offers[..i] == s.offers;
      }
    }
  }

  lemma {:induction false} EveryRunIsNumbered(steps: seq<Step>, p: ClientId, d: DocumentId)
    requires RunProduces(steps, p, d)
    ensures Numbered(Run(steps).offers, d)
  {
    hide Apply, Consistent, Membership, Departures, Conserved, Numbered, CommandsMove;
    if steps == [] {
      assert Numbered([], d) by { NothingNumbered(d); }
    } else {
      var k := |steps| - 1;
      var s := Run(steps[..k]);
      forall i | 0 <= i < k ensures Produces(Run(steps[..k][..i]), steps[..k][i], p, d) {
        assert steps[..k][..i] == steps[..i];
        assert Produces(Run(steps[..i]), steps[i], p, d);
      }
      EveryRunIsNumbered(steps[..k], p, d);
      EveryRunIsGood(steps[..k]);
      assert Produces(s, steps[k], p, d);
      if steps[k].Coordinate? {
        CoordinateOffersNothing(s);
      } else {
        StepIsOuter(s, steps[k]);
        OuterKeepsNumbered(s, Apply(s, steps[k]), ActOf(s, steps[k]), p, d);
      }
    }
  }

  lemma NothingNumbered(d: DocumentId)
    ensures Numbered([], d)
  {
  }

  // ---------- numbers along the way ----------

  /** In a list of posts, numbers ascend, stay below `bound`, and belong to the room. */
  ghost predicate Climbs(posts: seq<Post>, d: DocumentId, bound: nat) {
    && (forall i :: 0 <= i < |posts| && Number(posts[i].message).Some? ==>
          posts[i].room == d && Number(posts[i].message).value < bound)
    && (forall i, j :: 0 <= i < j < |posts| && Number(posts[i].message).Some? && Number(posts[j].message).Some? ==>
          Number(posts[i].message).value < Number(posts[j].message).value)
  }

  lemma {:induction false} AcceptedClimbs(offers: seq<Offer>, d: DocumentId)
    requires Numbered(offers, d)
    ensures Climbs(Accepted(offers), d, OfferedNumbers(offers))
  {
    if offers != [] {
      var k := |offers| - 1;
      forall i | 0 <= i < k && Number(offers[..k][i].post.message).Some?
        ensures offers[..k][i].post.room == d && Number(offers[..k][i].post.message).value == OfferedNumbers(offers[..k][..i])
      {
        assert offers[..k][..i] == offers[..i];
        assert offers[i] == offers[..k][i];
      }
      AcceptedClimbs(offers[..k], d);
    }
  }

  ghost predicate OfferedAs(offers: seq<Offer>, n: int, accepted: bool) {
    exists i :: 0 <= i < |offers| && offers[i].accepted == accepted && Number(offers[i].post.message) == Some(n)
  }

  ghost predicate Posted(posts: seq<Post>, n: int) {
    exists i :: 0 <= i < |posts| && Number(posts[i].message) == Some(n)
  }

  lemma {:induction false} AcceptedMeans(offers: seq<Offer>, n: int)
    ensures Posted(Accepted(offers), n) <==> OfferedAs(offers, n, true)
  {
    if offers != [] {
      var k := |offers| - 1;
      var front, posts := Accepted(offers[..k]), Accepted(offers);
      AcceptedMeans(offers[..k], n);
      if Posted(front, n) {
        var i :| 0 <= i < |front| && Number(front[i].message) == Some(n);
        assert posts[i] == front[i];
      }
      if OfferedAs(offers[..k], n, true) {
        var i :| 0 <= i < k && offers[..k][i].accepted && Number(offers[..k][i].post.message) == Some(n);
        assert offers[i] == offers[..k][i];
      }
      if offers[k].accepted {
        assert posts[|front|] == offers[k].post;
      }
      if OfferedAs(offers, n, true) {
        var i :| 0 <= i < |offers| && offers[i].accepted && Number(offers[i].post.message) == Some(n);
        if i < k {
          assert offers[..k][i] == offers[i];
        }
      }
    }
  }

  /** Every number below the count was offered, once: either taken or turned away by the command channel. */
  lemma {:induction false} EachNumberOffered(offers: seq<Offer>, d: DocumentId, n: nat)
    requires Numbered(offers, d) && n < OfferedNumbers(offers)
    ensures OfferedAs(offers, n, true) <==> !OfferedAs(offers, n, false)
  {
    var i := OfferOf(offers, d, n);
    forall j | 0 <= j < |offers| && Number(offers[j].post.message) == Some(n) ensures j == i {
      OfferedNumbersGrow(offers, if i < j then i else j, if i < j then j else i);
    }
  }

  lemma {:induction false} OfferOf(offers: seq<Offer>, d: DocumentId, n: nat) returns (i: nat)
    requires Numbered(offers, d) && n < OfferedNumbers(offers)
    ensures i < |offers| && Number(offers[i].post.message) == Some(n)
  {
    var k := |offers| - 1;
    if n < OfferedNumbers(offers[..k]) {
      assert Numbered(offers[..k], d) by {
        forall j | 0 <= j < k ensures offers[..k][..j] == offers[..j] && offers[..k][j] == offers[j] {
        }
      }
      i := OfferOf(offers[..k], d, n);
    } else {
      i := k;
    }
  }

  /** Between two positions with numbers, the count has gone up. */
  lemma {:induction false} OfferedNumbersGrow(offers: seq<Offer>, i: nat, j: nat)
    requires i <= j < |offers|
    ensures OfferedNumbers(offers[..i]) + (if i < j && Number(offers[i].post.message).Some? then 1 else 0) <= OfferedNumbers(offers[..j])
    decreases j
  {
    if i < j {
      assert offers[..j][..j - 1] == offers[..j - 1];
      OfferedNumbersGrow(offers, i, j - 1);
    }
  }

  // ---------- numbers at the subscriber ----------

  lemma {:induction false} NumbersAppend(front: seq<ServerMessage>, back: seq<ServerMessage>)
    ensures Numbers(front + back) == Numbers(front) + Numbers(back)
  {
    if back == [] {
      assert front + back == front;
      assert Numbers(front) + [] == Numbers(front);
    } else {
      var k := |back| - 1;
      assert (front + back)[..|front| + k] == front + back[..k];
      NumbersAppend(front, back[..k]);
    }
  }

  lemma {:induction false} NumbersComeByRooms(ms: seq<ServerMessage>)
    ensures Numbers(RoomMessages(ms)) == Numbers(ms)
  {
    if ms != [] {
      var k := |ms| - 1;
      NumbersComeByRooms(ms[..k]);
      NumbersAppend(RoomMessages(ms[..k]), if ms[k].Message? || ms[k].Invalidation? then [ms[k]] else []);
      assert Numbers([ms[k]]) == if Number(ms[k]).Some? then [Number(ms[k]).value] else [];
    }
  }

  /** The client's channel gave the answer to the payload with the number. */
  ghost predicate Answered(record: seq<Delivery>, processed: seq<Post>, n: int, outcome: SendOutcome)
    requires Indexed(record, processed)
  {
    exists k :: 0 <= k < |record| && record[k].outcome == outcome && Number(processed[record[k].index].message) == Some(n)
  }

  /** The numbers among the sent messages, one entry of the record at a time. */
  lemma SentNumbersStep(record: seq<Delivery>, processed: seq<Post>)
    requires Indexed(record, processed) && record != []
    ensures var k := |record| - 1;
            var x := Number(processed[record[k].index].message);
            Numbers(SentMessages(record, processed))
            == Numbers(SentMessages(record[..k], processed)) + if record[k].outcome.Sent? && x.Some? then [x.value] else []
  {
    var k := |record| - 1;
    var last := if record[k].outcome.Sent? then [processed[record[k].index].message] else [];
    NumbersAppend(SentMessages(record[..k], processed), last);
    assert Numbers([processed[record[k].index].message])
        == if Number(processed[record[k].index].message).Some? then [Number(processed[record[k].index].message).value] else [];
  }

  lemma {:induction false} SentNumbersAreAnswered(record: seq<Delivery>, processed: seq<Post>, n: nat)
    requires Indexed(record, processed)
    ensures n in Numbers(SentMessages(record, processed)) <==> Answered(record, processed, n, Sent)
  {
    hide Numbers, SentMessages;
    if record == [] {
      NoNumbersSent(processed);
    } else {
      var k := |record| - 1;
      SentNumbersStep(record, processed);
      SentNumbersAreAnswered(record[..k], processed, n);
      if Answered(record[..k], processed, n, Sent) {
        var l :| 0 <= l < k && record[..k][l].outcome.Sent? && Number(processed[record[..k][l].index].message) == Some(n);
        assert record[l] == record[..k][l];
      }
      if Answered(record, processed, n, Sent) {
        var l :| 0 <= l <= k && record[l].outcome.Sent? && Number(processed[record[l].index].message) == Some(n);
        if l < k {
          assert record[..k][l] == record[l];
        }
      }
    }
  }

  lemma NoNumbersSent(processed: seq<Post>)
    ensures Numbers(SentMessages([], processed)) == []
  {
  }

  lemma {:induction false} SentNumbersAscend(record: seq<Delivery>, processed: seq<Post>, d: DocumentId, bound: nat)
    requires Indexed(record, processed) && StrictIn(record, processed, d) && Climbs(processed, d, bound)
    ensures Ascending(Numbers(SentMessages(record, processed)))
  {
    hide Numbers, SentMessages;
    if record == [] {
      NoNumbersSent(processed);
    } else {
      var k := |record| - 1;
      SentNumbersStep(record, processed);
      SentNumbersAscend(record[..k], processed, d, bound);
      var before := Numbers(SentMessages(record[..k], processed));
      forall i | 0 <= i < |before| && Number(processed[record[k].index].message).Some?
        ensures before[i] < Number(processed[record[k].index].message).value
      {
        SentNumbersAreAnswered(record[..k], processed, before[i]);
        var l :| 0 <= l < k && record[..k][l].outcome.Sent? && Number(processed[record[..k][l].index].message) == Some(before[i]);
        assert record[l] == record[..k][l] && record[l].index < record[k].index;
      }
    }
  }

  /** The state of a run, seen by a client that has joined the room at most once. */
  ghost predicate Watched(s: State, c: ClientId, d: DocumentId) {
    Underway(s) && Conserved(s) && Served(s, c) && Attended(s, Seat(d, c)) && JoinsOf(s.joins, Seat(d, c)) <= 1
  }

  /** What is needed of the record here: it is indexed, and the answers for the room are for different broadcasts. */
  lemma RecordIsFit(s: State, c: ClientId, d: DocumentId)
    requires Watched(s, c, d)
    ensures var record := Of(s.deliveries, c); Indexed(record, s.processed) && StrictIn(record, s.processed, d)
  {
    RecordIsStrict(s, Seat(d, c));
  }

  /** A number accepted between two that were sent to the client is in its record, and not as closed. */
  lemma AcceptedIsAnswered(s: State, c: ClientId, d: DocumentId, low: int, n: nat, high: int) returns (k: nat)
    requires Watched(s, c, d) && Climbs(Accepted(s.offers), d, OfferedNumbers(s.offers))
    requires var record := Of(s.deliveries, c);
             && Indexed(record, s.processed)
             && low < n < high && Answered(record, s.processed, low, Sent) && Answered(record, s.processed, high, Sent)
    requires Posted(Accepted(s.offers), n)
    ensures var record := Of(s.deliveries, c);
            && k < |record| && Number(s.processed[record[k].index].message) == Some(n)
            && !record[k].outcome.Closed?
  {
    hide Of, Served, Attended, Underway, Accepted, Posts, FullDeliveries, OfferedNumbers, Climbs, JoinsOf;
    var record, accepted := Of(s.deliveries, c), Accepted(s.offers);
    var l :| 0 <= l < |record| && record[l].outcome.Sent? && Number(s.processed[record[l].index].message) == Some(low);
    var h :| 0 <= h < |record| && record[h].outcome.Sent? && Number(s.processed[record[h].index].message) == Some(high);
    var i :| 0 <= i < |accepted| && Number(accepted[i].message) == Some(n);
    assert accepted[record[l].index] == s.processed[record[l].index];
    assert accepted[record[h].index] == s.processed[record[h].index];
    ClimbingPositions(accepted, d, OfferedNumbers(s.offers), record[l].index, i);
    ClimbingPositions(accepted, d, OfferedNumbers(s.offers), i, record[h].index);
    assert accepted[i] == s.processed[i];
    k := ShownBetween(s, Seat(d, c), l, i, h);
    NotClosedBefore(s, c, k, h);
  }

  lemma NotClosedBefore(s: State, c: ClientId, k: nat, h: nat)
    requires Served(s, c) && k < h < |Of(s.deliveries, c)| && Of(s.deliveries, c)[h].outcome.Sent?
    ensures !Of(s.deliveries, c)[k].outcome.Closed?
  {
  }

  lemma ClimbingPositions(posts: seq<Post>, d: DocumentId, bound: nat, i: nat, j: nat)
    requires Climbs(posts, d, bound) && i < |posts| && j < |posts|
    requires Number(posts[i].message).Some? && Number(posts[j].message).Some?
    requires Number(posts[i].message).value < Number(posts[j].message).value
    ensures i < j && posts[i].room == posts[j].room == d
  {
  }

  /**
   Between two numbers that reached the subscriber's channel, each number either reached it too, or was
   turned away by the full command channel or by the subscriber's own full channel; never two of these.
   */
  lemma NumbersBetween(s: State, c: ClientId, d: DocumentId, low: int, n: nat, high: int)
    requires Watched(s, c, d) && Numbered(s.offers, d)
    requires var record := Of(s.deliveries, c);
             && Indexed(record, s.processed)
             && low < n < high && Answered(record, s.processed, low, Sent) && Answered(record, s.processed, high, Sent)
    ensures var record := Of(s.deliveries, c);
            Answered(record, s.processed, n, Sent) <==> !OfferedAs(s.offers, n, false) && !Answered(record, s.processed, n, Full)
  {
    AcceptedClimbs(s.offers, d);
    RecordIsFit(s, c, d);
    hide Of, Accepted, OfferedNumbers, Numbered, Climbs, OfferedAs, Posted, Answered, Served, Underway, Attended, Conserved, StrictIn, JoinsOf;
    var record := Of(s.deliveries, c);
    HighIsOffered(s, record, d, high);
    EachNumberOffered(s.offers, d, n);
    AcceptedMeans(s.offers, n);
    AnsweredWasPosted(s, record, n);
    if Posted(Accepted(s.offers), n) {
      var k := AcceptedIsAnswered(s, c, d, low, n, high);
      AnsweredOnce(s, record, d, k, n);
    }
  }

  lemma HighIsOffered(s: State, record: seq<Delivery>, d: DocumentId, high: int)
    requires Indexed(record, s.processed) && Conserved(s) && Climbs(Accepted(s.offers), d, OfferedNumbers(s.offers))
    requires Answered(record, s.processed, high, Sent)
    ensures high < OfferedNumbers(s.offers)
  {
    hide Accepted, OfferedNumbers, Posts, FullDeliveries;
    var k :| 0 <= k < |record| && Number(s.processed[record[k].index].message) == Some(high);
    assert Accepted(s.offers)[record[k].index] == s.processed[record[k].index];
  }

  lemma AnsweredWasPosted(s: State, record: seq<Delivery>, n: int)
    requires Indexed(record, s.processed) && Conserved(s)
    ensures Answered(record, s.processed, n, Sent) || Answered(record, s.processed, n, Full) ==> Posted(Accepted(s.offers), n)
  {
    hide Accepted, Posts, FullDeliveries;
    if Answered(record, s.processed, n, Sent) || Answered(record, s.processed, n, Full) {
      var k :| 0 <= k < |record| && Number(s.processed[record[k].index].message) == Some(n);
      assert Accepted(s.offers)[record[k].index] == s.processed[record[k].index];
    }
  }

  /** A number has one place in the record, so the answer there is the only one. */
  lemma AnsweredOnce(s: State, record: seq<Delivery>, d: DocumentId, k: nat, n: int)
    requires Indexed(record, s.processed) && StrictIn(record, s.processed, d) && Conserved(s)
    requires Climbs(Accepted(s.offers), d, OfferedNumbers(s.offers))
    requires k < |record| && Number(s.processed[record[k].index].message) == Some(n)
    ensures Answered(record, s.processed, n, Sent) <==> record[k].outcome.Sent?
    ensures Answered(record, s.processed, n, Full) <==> record[k].outcome.Full?
  {
    hide Accepted, Posts, FullDeliveries, OfferedNumbers;
    forall i | 0 <= i < |record| && Number(s.processed[record[i].index].message) == Some(n) ensures i == k {
      assert Accepted(s.offers)[record[i].index] == s.processed[record[i].index];
      assert Accepted(s.offers)[record[k].index] == s.processed[record[k].index];
    }
  }

  /** What lies between the ends of a stretch of an ascending list lies in the stretch. */
  lemma StretchIsComplete(front: seq<nat>, ns: seq<nat>, back: seq<nat>, n: nat)
    requires Ascending(front + ns + back) && ns != [] && ns[0] <= n <= ns[|ns| - 1]
    ensures n in front + ns + back <==> n in ns
  {
    var whole := front + ns + back;
    if n in whole {
      var i :| 0 <= i < |whole| && whole[i] == n;
      assert whole[|front|] == ns[0] && whole[|front| + |ns| - 1] == ns[|ns| - 1];
      assert |front| <= i < |front| + |ns|;
      assert ns[i - |front|] == n;
    }
  }

  lemma StretchAscends(front: seq<nat>, ns: seq<nat>, back: seq<nat>)
    requires Ascending(front + ns + back)
    ensures Ascending(ns)
    ensures forall n :: n in ns ==> n in front + ns + back
  {
    var whole := front + ns + back;
    forall i | 0 <= i < |ns| ensures ns[i] == whole[|front| + i] {
    }
  }

  /** The numbers in a stretch of what the client received, within all that was sent to it. */
  lemma ReceivedStretch(s: State, c: ClientId, a: nat, b: nat) returns (front: seq<nat>, back: seq<nat>)
    requires c in s.received && c in s.channels && a <= b <= |s.received[c]|
    ensures Numbers(Inbox(s.received, s.channels, c)) == front + Numbers(s.received[c][a..b]) + back
  {
    var ms, queue := s.received[c], s.channels[c].queue;
    front, back := Numbers(ms[..a]), Numbers(ms[b..] + queue);
    NumbersComeByRooms(ms + queue);
    assert ms + queue == ms[..a] + ms[a..b] + (ms[b..] + queue);
    NumbersAppend(ms[..a], ms[a..b]);
    NumbersAppend(ms[..a] + ms[a..b], ms[b..] + queue);
  }

  /** A number that was lost on the way to the client: turned away by the full command channel, or by its own. */
  ghost predicate Lost(s: State, c: ClientId, n: int)
    requires Indexed(Of(s.deliveries, c), s.processed)
  {
    OfferedAs(s.offers, n, false) || Answered(Of(s.deliveries, c), s.processed, n, Full)
  }

  /**
   Loss accounting, in any state of a run: take any stretch of what the subscriber received. Its numbers
   ascend strictly, and a number between its first and its last is missing exactly when it was lost.
   */
  lemma LossIsAccountedFor(s: State, c: ClientId, d: DocumentId, a: nat, b: nat)
    requires Watched(s, c, d) && Numbered(s.offers, d)
    requires Indexed(Of(s.deliveries, c), s.processed)
    requires c in s.received && c in s.channels && a <= b <= |s.received[c]|
    ensures var ns := Numbers(s.received[c][a..b]);
            && Ascending(ns)
            && forall n: nat :: ns != [] && ns[0] <= n <= ns[|ns| - 1] ==> (n in Missing(ns) <==> Lost(s, c, n))
  {
    hide Numbers, Of, Watched, Accepted, Inbox, Answered, OfferedAs, Numbered, Indexed;
    var ns, record := Numbers(s.received[c][a..b]), Of(s.deliveries, c);
    RecordClimbs(s, c, d);
    var front, back := ReceivedStretch(s, c, a, b);
    StretchAscends(front, ns, back);
    forall n: nat | ns != [] && ns[0] <= n <= ns[|ns| - 1]
      ensures n in Missing(ns) <==> Lost(s, c, n)
    {
      StretchIsComplete(front, ns, back, n);
      var low, high := ns[0], ns[|ns| - 1];
      assert low in ns && high in ns;
      if low < n < high {
        NumbersBetween(s, c, d, low, n, high);
      } else {
        SentIsNotLost(s, c, d, n);
      }
    }
  }

  /** All that was sent to the client: ascending, and just the numbers its channel took. */
  lemma RecordClimbs(s: State, c: ClientId, d: DocumentId)
    requires Watched(s, c, d) && Numbered(s.offers, d)
    requires Indexed(Of(s.deliveries, c), s.processed) && c in s.received && c in s.channels
    ensures var ns, record := Numbers(Inbox(s.received, s.channels, c)), Of(s.deliveries, c);
            Ascending(ns) && forall n: nat :: n in ns <==> Answered(record, s.processed, n, Sent)
  {
    AcceptedClimbs(s.offers, d);
    RecordIsFit(s, c, d);
    hide Of, Accepted, Posts, FullDeliveries, Underway, Attended, Inbox, OfferedNumbers, Numbered, Numbers, SentMessages, StrictIn, Climbs, JoinsOf,
         ClosedLast, AnsweredPerEntry, FailedIsClosed, InOrder;
    ProcessedClimbs(s, d);
    SentNumbersAscend(Of(s.deliveries, c), s.processed, d, OfferedNumbers(s.offers));
    forall n: nat
      ensures n in Numbers(SentMessages(Of(s.deliveries, c), s.processed)) <==> Answered(Of(s.deliveries, c), s.processed, n, Sent)
    {
      SentNumbersAreAnswered(Of(s.deliveries, c), s.processed, n);
    }
  }

  lemma ProcessedClimbs(s: State, d: DocumentId)
    requires Conserved(s) && Climbs(Accepted(s.offers), d, OfferedNumbers(s.offers))
    ensures Climbs(s.processed, d, OfferedNumbers(s.offers))
  {
    hide Accepted, Posts, FullDeliveries, OfferedNumbers;
    forall i | 0 <= i < |s.processed| ensures s.processed[i] == Accepted(s.offers)[i] {
    }
  }

  lemma SentIsNotLost(s: State, c: ClientId, d: DocumentId, n: nat)
    requires Watched(s, c, d) && Numbered(s.offers, d)
    requires Indexed(Of(s.deliveries, c), s.processed) && Answered(Of(s.deliveries, c), s.processed, n, Sent)
    ensures !Lost(s, c, n)
  {
    AcceptedClimbs(s.offers, d);
    RecordIsFit(s, c, d);
    hide Of, Served, Attended, Underway, Accepted, Posts, FullDeliveries, OfferedNumbers, Numbered, StrictIn, JoinsOf;
    var record := Of(s.deliveries, c);
    AcceptedMeans(s.offers, n);
    AnsweredWasPosted(s, record, n);
    var k :| 0 <= k < |record| && record[k].outcome.Sent? && Number(s.processed[record[k].index].message) == Some(n);
    assert Accepted(s.offers)[record[k].index] == s.processed[record[k].index];
    EachNumberOffered(s.offers, d, n);
    AnsweredOnce(s, record, d, k, n);
  }

  // ---------- end to end ----------

  lemma WatchedRun(steps: seq<Step>, c: ClientId, d: DocumentId)
    requires JoinsOf(Run(steps).joins, Seat(d, c)) <= 1
    ensures Watched(Run(steps), c, d) && Indexed(Of(Run(steps).deliveries, c), Run(steps).processed)
    ensures c in Run(steps).received ==> c in Run(steps).channels
  {
    EveryRunIsGood(steps);
    EveryClientIsServed(steps, c);
    EverySeatIsKept(steps, Seat(d, c));
    hide Run, Underway, Membership, Departures, Conserved, Attended;
  }

  /** The lost numbers between the first and the last of a list. */
  ghost function LostBetween(s: State, c: ClientId, ns: seq<nat>): set<int>
    requires Indexed(Of(s.deliveries, c), s.processed)
  {
    if ns == [] then {} else set n: int | ns[0] <= n <= ns[|ns| - 1] && Lost(s, c, n)
  }

  /** The gaps in any stretch of what the subscriber received count the messages that were lost on the way. */
  lemma GapsAreDrops(steps: seq<Step>, c: ClientId, p: ClientId, d: DocumentId, a: nat, b: nat)
    requires JoinsOf(Run(steps).joins, Seat(d, c)) <= 1 && RunProduces(steps, p, d)
    requires c in Run(steps).received && a <= b <= |Run(steps).received[c]|
    ensures var s := Run(steps);
            var ns := Numbers(s.received[c][a..b]);
            && Indexed(Of(s.deliveries, c), s.processed)
            && Ascending(ns)
            && GapSum(ns) == |LostBetween(s, c, ns)|
  {
    WatchedRun(steps, c, d);
    EveryRunIsNumbered(steps, p, d);
    hide Run, Watched, Numbered, Lost, Numbers, GapSum, Of, Indexed;
    var s := Run(steps);
    var ns := Numbers(s.received[c][a..b]);
    LossIsAccountedFor(s, c, d, a, b);
    GapsCountMissing(ns);
    if ns != [] {
      forall n: int ensures n in Missing(ns) <==> n in LostBetween(s, c, ns) {
      }
    }
    assert Missing(ns) == LostBetween(s, c, ns);
  }

  /** The subscriber's loop, on what a run has delivered to it: the gaps it reports are the messages lost. */
  method RunSubscriber(steps: seq<Step>, c: ClientId, ghost p: ClientId, d: DocumentId, a: nat, b: nat)
    returns (received: nat, seqGaps: nat)
    requires JoinsOf(Run(steps).joins, Seat(d, c)) <= 1 && RunProduces(steps, p, d)
    requires c in Run(steps).received && a <= b <= |Run(steps).received[c]|
    ensures Indexed(Of(Run(steps).deliveries, c), Run(steps).processed)
    ensures var s := Run(steps);
            var ns := Numbers(s.received[c][a..b]);
            received == |ns| && seqGaps == |LostBetween(s, c, ns)|
  {
    hide Run, Numbers, GapSum, LostBetween, Of;
    GapsAreDrops(steps, c, p, d, a, b);
    var lastSeq;
    received, seqGaps, lastSeq := CountGaps(Run(steps).received[c][a..b]);
  }
}
