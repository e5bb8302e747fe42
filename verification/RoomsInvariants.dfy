/** What every run of the rooms protocol keeps. */
module RoomsInvariants {
  import opened Basics
  import opened Channels
  import opened Rooms
  import opened RoomsProtocol
  import opened RoomsSteps

  // ---------- live members ----------

  lemma MoveKeepsMember(s: State, s1: State, act: Act, c: ClientId)
    requires c in s.sessions && c in s1.sessions && MemberOfItsRoom(s, c) && Moves(s, c, s.sessions[c], s1.sessions[c], act)
    requires s1.rooms == s.rooms && s1.acks == s.acks && s.nextTicket !in s.acks
    requires IsOpen(s1.channels, c) ==> IsOpen(s.channels, c)
    ensures MemberOfItsRoom(s1, c)
  {
    hide IsOpen, Shares, EntriesOf;
  }

  lemma OuterKeepsMember(s: State, s1: State, act: Act, c: ClientId)
    requires Consistent(s) && Membership(s) && Outer(s, s1, act) && c in s1.sessions
    ensures MemberOfItsRoom(s1, c)
  {
    KeysAgree(s);
    assert s.nextTicket !in s.acks;
    hide Consistent, MemberOfItsRoom, Inbox, TicketsMatch, CommandsMove, Moves;
    if c in s.sessions {
      MoveKeepsMember(s, s1, act, c);
    } else {
      NewcomerIsMember(s1, c);
    }
  }

  lemma NewcomerIsMember(s: State, c: ClientId)
    requires c in s.sessions && s.sessions[c] == Session(Ready, None)
    ensures MemberOfItsRoom(s, c)
  {
  }

  lemma OuterKeepsTickets(s: State, s1: State, act: Act, c: ClientId)
    requires Consistent(s) && Membership(s) && Outer(s, s1, act) && c in s1.sessions
    ensures TicketsMatch(s1, c)
  {
    hide Shares, Inbox, EntriesNameTheirClient, MemberOfItsRoom, ChannelsMove;
    if c in s.sessions {
      assert TicketsMatch(s, c);
      assert Moves(s, c, s.sessions[c], s1.sessions[c], act);
    }
    forall i | 0 <= i < |s1.commands.queue| && s1.commands.queue[i].Join?
      ensures IsAwaiting(s1, c) && s1.commands.queue[i].respondTo == s1.sessions[c].phase.ticket
          ==> s1.commands.queue[i].client == c && s1.commands.queue[i].room == s1.sessions[c].phase.room
    {
      if i < |s.commands.queue| {
        assert s1.commands.queue[i] == s.commands.queue[i];
        assert CommandFits(s, s.commands.queue[i]);
      }
    }
  }

  lemma OuterKeepsMembership(s: State, s1: State, act: Act)
    requires Consistent(s) && Membership(s) && Outer(s, s1, act)
    ensures Membership(s1)
  {
    hide Consistent, Outer, MemberOfItsRoom, TicketsMatch;
    forall c | c in s1.sessions ensures MemberOfItsRoom(s1, c) && TicketsMatch(s1, c) {
      OuterKeepsMember(s, s1, act, c);
      OuterKeepsTickets(s, s1, act, c);
    }
  }

  /** How a coordinator's step changes the number of a client's entries. */
  lemma EntryCountAfter(s: State, d: DocumentId, c: ClientId)
    requires Consistent(s)
    ensures EntryCount(Coordinated(s), d, c)
         == if Finishing(s) && s.ongoing.value.room == d && c in s.ongoing.value.failed then 0
            else if !Taking(s) then EntryCount(s, d, c)
            else match s.commands.queue[0]
                 case Join(room, client, _, _) => EntryCount(s, d, c) + (if d == room && c == client then 1 else 0)
                 case Leave(room, client) => if d == room && c == client then 0 else EntryCount(s, d, c)
                 case Broadcast(_, _) => EntryCount(s, d, c)
  {
    hide AfterDrop, AfterLeave, AfterJoin, Shares, SendAt, OutcomeAt, EntriesNameTheirClient, Consistent;
    if Taking(s) {
      CommandsFit(s);
      match s.commands.queue[0]
      case Join(room, client, _, _) => CountAfterJoin(s.rooms, room, client, d, c);
      case Leave(room, client) =>
        NamesFit(s, room);
        assert room in s.rooms ==> s.rooms[room] == EntriesOf(s.rooms, room);
        CountAfterLeave(s.rooms, room, client, d, c);
      case Broadcast(_, _) =>
    } else if Finishing(s) {
      NamesFit(s, s.ongoing.value.room);
      CountAfterDrop(s.rooms, s.ongoing.value.room, s.ongoing.value.failed, d, c);
    }
  }

  lemma CommandsFit(s: State)
    requires Consistent(s)
    ensures forall i :: 0 <= i < |s.commands.queue| ==> CommandFits(s, s.commands.queue[i])
  {
  }

  /** The entries of a room name the channels of their clients. */
  lemma NamesFit(s: State, d: DocumentId)
    requires Consistent(s)
    ensures var entries := EntriesOf(s.rooms, d);
            forall i :: 0 <= i < |entries| ==> entries[i].tx == entries[i].client && entries[i].client in s.channels
  {
  }

  /** What a coordinator's step does not touch. */
  ghost predicate Untouched(s: State, s1: State) {
    && s1.sessions == s.sessions && s1.nextTicket == s.nextTicket && s1.offers == s.offers && s1.joins == s.joins
    && s1.received == s.received && s1.actorDrops == s.actorDrops
    && s1.channels.Keys == s.channels.Keys
    && forall c :: IsOpen(s1.channels, c) <==> IsOpen(s.channels, c)
  }

  lemma OfferLeaves(s: State)
    requires Offering(s)
    ensures var s1 := OfferNext(s);
            && Untouched(s, s1) && s1.commands == s.commands && s1.acks == s.acks && s1.rooms == s.rooms
            && s1.deliveries == s.deliveries + NewAnswer(s)
            && s1.processed == s.processed && s1.audience == s.audience && s1.since == s.since && s1.left == s.left
  {
    hide EntriesOf, OutcomeAt;
  }

  lemma FinishLeaves(s: State)
    requires Finishing(s)
    ensures var s1 := FinishBroadcast(s);
            && Untouched(s, s1) && s1.commands == s.commands && s1.acks == s.acks && s1.channels == s.channels
            && s1.deliveries == s.deliveries
            && s1.processed == s.processed && s1.audience == s.audience && s1.since == s.since && s1.left == s.left
  {
    hide AfterDrop;
  }

  lemma TakeLeaves(s: State)
    requires Taking(s)
    ensures var s1, command := TakeCommand(s), s.commands.queue[0];
            && Untouched(s, s1) && s1.commands == s.commands.(queue := s.commands.queue[1..])
            && s1.acks == AcksAfter(s.acks, command) && s1.channels == s.channels
            && s1.deliveries == s.deliveries && s1.fanoutDrops == s.fanoutDrops
            && s1.ongoing == (if command.Broadcast? then Some(Fan(|s.processed|, command.room, command.message, 0, {})) else None)
  {
    hide AfterJoin, AfterLeave, EntriesOf, IsOpen;
    match s.commands.queue[0]
    case Join(_, _, _, _) =>
    case Leave(_, _) =>
    case Broadcast(_, _) =>
  }

  lemma TakeRecords(s: State)
    requires Taking(s)
    ensures var s1, command := TakeCommand(s), s.commands.queue[0];
            && s1.processed == s.processed + (if command.Broadcast? then [Post(command.room, command.message)] else [])
            && s1.audience == s.audience + (if command.Broadcast? then [EntriesOf(s.rooms, command.room)] else [])
            && s1.since == (if command.Join? then s.since[Seat(command.room, command.client) := |s.processed|] else s.since)
            && s1.left == s.left + (if command.Leave? then {Seat(command.room, command.client)} else {})
  {
    hide AfterJoin, AfterLeave, EntriesOf;
    assert s.processed + [] == s.processed && s.audience + [] == s.audience;
  }

  /** The coordinator leaves sessions, what clients have received, and which channels are open. */
  lemma CoordinatedKeeps(s: State)
    ensures var s1 := Coordinated(s);
            && Untouched(s, s1)
            && s1.commands == (if Taking(s) then s.commands.(queue := s.commands.queue[1..]) else s.commands)
            && s1.acks == (if Taking(s) then AcksAfter(s.acks, s.commands.queue[0]) else s.acks)
  {
    hide OfferNext, FinishBroadcast, TakeCommand, Listeners;
    if Offering(s) {
      OfferLeaves(s);
    } else if Finishing(s) {
      FinishLeaves(s);
    } else if Taking(s) {
      TakeLeaves(s);
    }
  }

  lemma CoordinateOffersNothing(s: State)
    ensures Apply(s, Coordinate).offers == s.offers && Coordinated(s).joins == s.joins
  {
    CoordinateStep(s);
    CoordinatedKeeps(s);
    hide Coordinated, Apply;
  }

  /** What a coordinator's step adds to the history. */
  lemma HistoryAfter(s: State)
    ensures var s1 := Coordinated(s);
            && s1.deliveries == s.deliveries + NewAnswer(s)
            && (if Taking(s) && s.commands.queue[0].Broadcast? then
                  var room, m := s.commands.queue[0].room, s.commands.queue[0].message;
                  && s1.processed == s.processed + [Post(room, m)]
                  && s1.audience == s.audience + [EntriesOf(s.rooms, room)]
                  && s1.ongoing == Some(Fan(|s.processed|, room, m, 0, {}))
                else
                  s1.processed == s.processed && s1.audience == s.audience)
            && s1.since == (if Taking(s) && s.commands.queue[0].Join?
                            then s.since[Seat(s.commands.queue[0].room, s.commands.queue[0].client) := |s.processed|] else s.since)
            && s1.left == s.left + (if Taking(s) && s.commands.queue[0].Leave?
                                    then {Seat(s.commands.queue[0].room, s.commands.queue[0].client)} else {})
  {
    hide OfferNext, FinishBroadcast, TakeCommand, Listeners;
    assert s.deliveries + [] == s.deliveries;
    if Offering(s) {
      OfferLeaves(s);
    } else if Finishing(s) {
      FinishLeaves(s);
    } else if Taking(s) {
      TakeLeaves(s);
      TakeRecords(s);
    }
  }

  /** The answer the coordinator's next step gets, if that step offers the message to an entry. */
  function NewAnswer(s: State): seq<Delivery> {
    if !Offering(s) then [] else
      var e := Listeners(s)[s.ongoing.value.next];
      [Delivery(s.ongoing.value.index, e.client, OutcomeAt(s.channels, e.tx))]
  }

  // ---------- the broadcast under way ----------

  /** The number of broadcasts the coordinator is done with. */
  function Finished(s: State): nat {
    if s.ongoing.Some? then s.ongoing.value.index else |s.processed|
  }

  /** The broadcast under way is the latest, its room is as it was when it was taken up, and who failed has no open channel. */
  ghost predicate FanFits(s: State, fan: Fan) {
    && fan.index + 1 == |s.processed| == |s.audience|
    && s.processed[fan.index] == Post(fan.room, fan.message)
    && (fan.message.Message? || fan.message.Invalidation?)
    && s.audience[fan.index] == EntriesOf(s.rooms, fan.room)
    && fan.next <= |EntriesOf(s.rooms, fan.room)|
    && forall c :: c in fan.failed ==> c in s.channels && !s.channels[c].open
  }

  ghost predicate Underway(s: State) {
    && |s.audience| == |s.processed|
    && (forall seat :: seat in s.since ==> s.since[seat] <= Finished(s))
    && (s.ongoing.Some? ==> FanFits(s, s.ongoing.value))
  }

  lemma OuterKeepsUnderway(s: State, s1: State, act: Act)
    requires Underway(s) && Outer(s, s1, act)
    ensures Underway(s1)
  {
    hide Inbox, SessionsMove, CommandsMove;
  }

  lemma OfferKeepsUnderway(s: State)
    requires Consistent(s) && Underway(s) && Offering(s)
    ensures Underway(Coordinated(s))
  {
    hide Consistent, EntriesOf, SendAt;
    var s1, fan := Coordinated(s), s.ongoing.value;
    NamesFit(s, fan.room);
    CoordinatedKeeps(s);
    forall c | c in s1.ongoing.value.failed ensures c in s1.channels && !s1.channels[c].open {
      assert !IsOpen(s.channels, c) && c in s.channels;
    }
  }

  lemma TakeKeepsUnderway(s: State)
    requires Consistent(s) && Underway(s) && Taking(s)
    ensures Underway(Coordinated(s))
  {
    CommandsFit(s);
    assert CommandFits(s, s.commands.queue[0]);
    hide Consistent, TakeCommand, Untouched, EntriesOf;
    TakeLeaves(s);
    TakeRecords(s);
    if s.commands.queue[0].Broadcast? {
      RoomsStay(s);
    }
  }

  lemma RoomsStay(s: State)
    requires Taking(s) && s.commands.queue[0].Broadcast?
    ensures TakeCommand(s).rooms == s.rooms
  {
  }

  lemma CoordinateKeepsUnderway(s: State)
    requires Consistent(s) && Underway(s)
    ensures Underway(Coordinated(s))
  {
    if Offering(s) {
      OfferKeepsUnderway(s);
    } else if Taking(s) {
      TakeKeepsUnderway(s);
    } else {
      hide Consistent, AfterDrop;
    }
  }

  // ---------- live members, through the coordinator ----------

  lemma CoordinateKeepsMembership(s: State)
    requires Consistent(s) && Underway(s) && Membership(s)
    ensures Membership(Coordinated(s))
  {
    hide Coordinated, EntryCount, EntriesNameTheirClient, Listeners;
    var s1 := Coordinated(s);
    CoordinatedKeeps(s);
    if Taking(s) {
      assert CommandFits(s, s.commands.queue[0]);
      assert forall i :: 0 <= i < |s1.commands.queue| ==> s1.commands.queue[i] == s.commands.queue[i + 1];
    }
    forall c | c in s1.sessions ensures MemberOfItsRoom(s1, c) && TicketsMatch(s1, c) {
      assert MemberOfItsRoom(s, c) && TicketsMatch(s, c);
      if s.sessions[c].room.Some? {
        EntryCountAfter(s, s.sessions[c].room.value, c);
      }
      if IsAwaiting(s, c) {
        EntryCountAfter(s, s.sessions[c].phase.room, c);
      }
    }
  }

  // ---------- departures ----------

  ghost predicate NoJoinOf(queue: seq<RoomCommand>, c: ClientId) {
    forall i :: 0 <= i < |queue| && queue[i].Join? ==> queue[i].client != c
  }

  ghost predicate NoLeaveOf(queue: seq<RoomCommand>, c: ClientId) {
    forall i :: 0 <= i < |queue| && queue[i].Leave? ==> queue[i].client != c
  }

  /** A seat that was left: its client is gone, has no entry there, and sends neither a join nor a second leave. */
  ghost predicate SeatLeft(s: State, seat: Seat) {
    && InPhase(s, seat.client, Gone)
    && EntryCount(s, seat.room, seat.client) == 0
    && NoJoinOf(s.commands.queue, seat.client) && NoLeaveOf(s.commands.queue, seat.client)
  }

  /** Behind a leave in the queue, its client sends nothing that concerns rooms. */
  ghost predicate LeavesLast(queue: seq<RoomCommand>) {
    forall i, j :: 0 <= i < j < |queue| && queue[i].Leave? && (queue[j].Join? || queue[j].Leave?)
      ==> queue[j].client != queue[i].client
  }

  ghost predicate Departures(s: State) {
    && (forall seat :: seat in s.left ==> SeatLeft(s, seat))
    && (forall seat, other :: seat in s.left && other in s.left && seat.client == other.client ==> seat == other)
    && LeavesLast(s.commands.queue)
  }

  lemma OuterKeepsSeatLeft(s: State, s1: State, act: Act, seat: Seat)
    requires SeatLeft(s, seat) && Outer(s, s1, act)
    ensures SeatLeft(s1, seat)
  {
    hide Shares, ChannelsMove;
    assert Moves(s, seat.client, s.sessions[seat.client], s1.sessions[seat.client], act);
  }

  lemma LeavesLastAppend(queue: seq<RoomCommand>, command: RoomCommand)
    requires LeavesLast(queue)
    requires command.Join? || command.Leave? ==> NoLeaveOf(queue, command.client)
    ensures LeavesLast(queue + [command])
  {
  }

  lemma NoLeaveUnlessGone(s: State, c: ClientId)
    requires Consistent(s) && !InPhase(s, c, Gone)
    ensures NoLeaveOf(s.commands.queue, c)
  {
    CommandsFit(s);
    hide Consistent;
    forall i | 0 <= i < |s.commands.queue| && s.commands.queue[i].Leave? ensures s.commands.queue[i].client != c {
      assert CommandFits(s, s.commands.queue[i]);
    }
  }

  lemma OuterKeepsLeavesLast(s: State, s1: State, act: Act)
    requires Consistent(s) && LeavesLast(s.commands.queue) && Outer(s, s1, act)
    ensures LeavesLast(s1.commands.queue)
  {
    hide Consistent, ChannelsMove, SessionsMove, SameCoordinator, LeavesLast, NoLeaveOf;
    match act
    case NoAct =>
    case Posting(post) => LeavesLastAppend(s.commands.queue, Broadcast(post.room, post.message));
    case Joining(c, room) =>
      NoLeaveUnlessGone(s, c);
      LeavesLastAppend(s.commands.queue, Join(room, c, c, s.nextTicket));
    case Leaving(c, room) =>
      NoLeaveUnlessGone(s, c);
      LeavesLastAppend(s.commands.queue, Leave(room, c));
  }

  lemma OuterKeepsDepartures(s: State, s1: State, act: Act)
    requires Consistent(s) && Departures(s) && Outer(s, s1, act)
    ensures Departures(s1)
  {
    assert s1.left == s.left;
    OuterKeepsLeavesLast(s, s1, act);
    hide SeatLeft, LeavesLast, Outer, Consistent;
    forall seat | seat in s.left ensures SeatLeft(s1, seat) {
      OuterKeepsSeatLeft(s, s1, act, seat);
    }
  }

  lemma CoordinateKeepsDepartures(s: State)
    requires Consistent(s) && Departures(s)
    ensures Departures(Coordinated(s))
  {
    hide Coordinated, EntryCount, EntriesNameTheirClient, Listeners;
    var s1 := Coordinated(s);
    CoordinatedKeeps(s);
    HistoryAfter(s);
    if Taking(s) {
      assert CommandFits(s, s.commands.queue[0]);
      assert forall i :: 0 <= i < |s1.commands.queue| ==> s1.commands.queue[i] == s.commands.queue[i + 1];
    }
    forall seat | seat in s1.left ensures SeatLeft(s1, seat) {
      EntryCountAfter(s, seat.room, seat.client);
    }
  }

  // ---------- conservation ----------

  /** The broadcasts still in the queue. */
  function Posts(queue: seq<RoomCommand>): seq<Post> {
    if queue == [] then [] else
      (if queue[0].Broadcast? then [Post(queue[0].room, queue[0].message)] else []) + Posts(queue[1..])
  }

  /** The broadcasts the command channel took. */
  function Accepted(offers: seq<Offer>): seq<Post> {
    if offers == [] then [] else
      var k := |offers| - 1;
      Accepted(offers[..k]) + if offers[k].accepted then [offers[k].post] else []
  }

  function FullDeliveries(deliveries: seq<Delivery>): nat {
    if deliveries == [] then 0 else
      var k := |deliveries| - 1;
      FullDeliveries(deliveries[..k]) + if deliveries[k].outcome.Full? then 1 else 0
  }

  /** No accepted broadcast is lost, repeated or overtaken; and the drop counter counts full channels. */
  ghost predicate Conserved(s: State) {
    && Accepted(s.offers) == s.processed + Posts(s.commands.queue)
    && s.fanoutDrops == FullDeliveries(s.deliveries) % TWO_TO_64
    && (forall i :: 0 <= i < |s.deliveries| ==> s.deliveries[i].index < |s.processed|)
  }

  lemma {:induction false} PostsAppend(queue: seq<RoomCommand>, command: RoomCommand)
    ensures Posts(queue + [command]) == Posts(queue) + if command.Broadcast? then [Post(command.room, command.message)] else []
  {
    if queue != [] {
      assert (queue + [command])[1..] == queue[1..] + [command];
      PostsAppend(queue[1..], command);
    }
  }

  lemma AcceptedAppend(offers: seq<Offer>, offer: Offer)
    ensures Accepted(offers + [offer]) == Accepted(offers) + if offer.accepted then [offer.post] else []
  {
  }

  lemma OuterKeepsConserved(s: State, s1: State, act: Act)
    requires Conserved(s) && Outer(s, s1, act)
    ensures Conserved(s1)
  {
    hide Shares, ChannelsMove, SessionsMove, Accepted, Posts;
    match act
    case NoAct =>
    case Posting(post) =>
      AcceptedAppend(s.offers, Offer(post, Takes(s)));
      PostsAppend(s.commands.queue, Broadcast(post.room, post.message));
    case Joining(c, room) =>
      PostsAppend(s.commands.queue, Join(room, c, c, s.nextTicket));
    case Leaving(c, room) =>
      PostsAppend(s.commands.queue, Leave(room, c));
  }

  function FullAnswers(deliveries: seq<Delivery>): set<int> {
    set i | 0 <= i < |deliveries| && deliveries[i].outcome.Full?
  }

  /** Full answers are counted once each. */
  lemma {:induction false} FullDeliveriesCounted(deliveries: seq<Delivery>)
    ensures FullDeliveries(deliveries) == |FullAnswers(deliveries)|
  {
    if deliveries == [] {
      assert FullAnswers(deliveries) == {};
    } else {
      var k := |deliveries| - 1;
      FullDeliveriesCounted(deliveries[..k]);
      assert FullAnswers(deliveries) == FullAnswers(deliveries[..k]) + if deliveries[k].outcome.Full? then {k} else {};
    }
  }

  lemma FullDeliveriesAppend(deliveries: seq<Delivery>, x: Delivery)
    ensures FullDeliveries(deliveries + [x]) == FullDeliveries(deliveries) + if x.outcome.Full? then 1 else 0
  {
    assert (deliveries + [x])[..|deliveries|] == deliveries;
  }

  lemma AddModulo(n: nat, k: nat)
    ensures (n % TWO_TO_64 + k) % TWO_TO_64 == (n + k) % TWO_TO_64
  {
  }

  lemma PostsFirst(queue: seq<RoomCommand>)
    requires queue != []
    ensures forall front: seq<Post> ::
      front + Posts(queue) == front + (if queue[0].Broadcast? then [Post(queue[0].room, queue[0].message)] else []) + Posts(queue[1..])
  {
    hide Posts;
    PostsSplit(queue);
  }

  lemma PostsSplit(queue: seq<RoomCommand>)
    requires queue != []
    ensures Posts(queue) == (if queue[0].Broadcast? then [Post(queue[0].room, queue[0].message)] else []) + Posts(queue[1..])
  {
  }

  lemma TakeKeepsConserved(s: State)
    requires Conserved(s) && Taking(s)
    ensures Conserved(Coordinated(s))
  {
    hide Accepted, Posts, FullDeliveries, TakeCommand, IsOpen;
    TakeLeaves(s);
    TakeRecords(s);
    PostsFirst(s.commands.queue);
    assert Coordinated(s) == TakeCommand(s);
  }

  lemma OfferKeepsConserved(s: State)
    requires Underway(s) && Conserved(s) && Offering(s)
    ensures Conserved(OfferNext(s))
  {
    hide Accepted, Posts, FullDeliveries, SendAt, OutcomeAt, Listeners;
    var x := Delivery(s.ongoing.value.index, Listeners(s)[s.ongoing.value.next].client, OutcomeAt(s.channels, Listeners(s)[s.ongoing.value.next].tx));
    FullDeliveriesAppend(s.deliveries, x);
    AddModulo(FullDeliveries(s.deliveries), 1);
  }

  lemma CoordinateKeepsConserved(s: State)
    requires Underway(s) && Conserved(s)
    ensures Conserved(Coordinated(s))
  {
    if Taking(s) {
      TakeKeepsConserved(s);
    } else if Offering(s) {
      hide Conserved;
      OfferKeepsConserved(s);
    } else {
      hide Accepted, Posts, FullDeliveries, AfterDrop, Underway;
    }
  }

  // ---------- every run ----------

  ghost predicate Invariant(s: State) {
    Consistent(s) && Underway(s) && Membership(s) && Departures(s) && Conserved(s)
  }

  lemma StepKeepsInvariant(s: State, step: Step)
    requires Invariant(s)
    ensures Invariant(Apply(s, step))
  {
    hide Consistent, Underway, Membership, Departures, Conserved, Outer, Coordinated;
    StepKeepsConsistent(s, step);
    if step.Coordinate? {
      CoordinateKeepsUnderway(s);
      CoordinateKeepsMembership(s);
      CoordinateKeepsDepartures(s);
      CoordinateKeepsConserved(s);
    } else {
      StepIsOuter(s, step);
      OuterKeepsUnderway(s, Apply(s, step), ActOf(s, step));
      OuterKeepsMembership(s, Apply(s, step), ActOf(s, step));
      OuterKeepsDepartures(s, Apply(s, step), ActOf(s, step));
      OuterKeepsConserved(s, Apply(s, step), ActOf(s, step));
    }
  }

  lemma {:induction false} EveryRunIsGood(steps: seq<Step>)
    ensures Invariant(Run(steps))
  {
    hide Apply;
    if steps != [] {
      EveryRunIsGood(steps[..|steps| - 1]);
      StepKeepsInvariant(Run(steps[..|steps| - 1]), steps[|steps| - 1]);
    }
  }

  /**
   In every state a run can reach, a live session with an open channel has an entry in its current room.
   */
  lemma LiveSessionsAreMembers(steps: seq<Step>, c: ClientId, d: DocumentId)
    requires var s := Run(steps);
             c in s.sessions && Live(s.sessions[c]) && IsOpen(s.channels, c) && s.sessions[c].room == Some(d)
    ensures var s := Run(steps);
            exists i :: 0 <= i < |EntriesOf(s.rooms, d)| && EntriesOf(s.rooms, d)[i] == Entry(c, c)
  {
    hide Run;
    var s := Run(steps);
    EveryRunIsGood(steps);
    assert MemberOfItsRoom(s, c);
    SharedByPosition(EntriesOf(s.rooms, d), c);
    var i :| 0 <= i < |EntriesOf(s.rooms, d)| && EntriesOf(s.rooms, d)[i].tx == c;
    assert d in s.rooms && EntriesNameTheirClient(s.rooms[d], s.sessions);
  }

  /** A leave that was carried out is final: in no later state has the client an entry in that room. */
  lemma LeftRoomsStayLeft(steps: seq<Step>, later: seq<Step>, d: DocumentId, c: ClientId)
    requires Seat(d, c) in Run(steps).left
    ensures forall i :: 0 <= i < |EntriesOf(Run(steps + later).rooms, d)| ==> EntriesOf(Run(steps + later).rooms, d)[i].client != c
  {
    hide Apply;
    LeftGrows(steps, later);
    EveryRunIsGood(steps + later);
    hide Run;
    var s := Run(steps + later);
    assert SeatLeft(s, Seat(d, c));
    SharedByPosition(EntriesOf(s.rooms, d), c);
    forall i | 0 <= i < |EntriesOf(s.rooms, d)| ensures EntriesOf(s.rooms, d)[i].client != c {
      assert EntriesNameTheirClient(s.rooms[d], s.sessions);
    }
  }

  lemma {:induction false} LeftGrows(steps: seq<Step>, later: seq<Step>)
    ensures Run(steps).left <= Run(steps + later).left
  {
    hide Apply, Consistent, Membership, Departures, Conserved;
    if later == [] {
      assert steps + later == steps;
    } else {
      var k := |later| - 1;
      LeftGrows(steps, later[..k]);
      var s := Run(steps + later[..k]);
      assert (steps + later)[..|steps| + k] == steps + later[..k];
      EveryRunIsGood(steps + later[..k]);
      if !later[k].Coordinate? {
        StepIsOuter(s, later[k]);
      } else {
        CoordinateLeaves(s);
      }
    }
  }

  lemma CoordinateLeaves(s: State)
    ensures s.left <= Apply(s, Coordinate).left
  {
    hide Coordinated;
    HistoryAfter(s);
  }
}
