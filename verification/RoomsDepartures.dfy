/**
 What stays behind when a client goes. A leave takes the entries of one room only; an entry anywhere else stays
 until a broadcast to its room finds the channel closed.
 */
module RoomsDepartures {
  import opened Basics
  import opened Channels
  import opened Rooms
  import opened RoomsProtocol
  import opened RoomsSteps
  import opened RoomsInvariants
  import opened RoomsFifo
  import opened RoomsSeats

  /** A broadcast to the room, since the latest join of the seat and over by now, found the client's channel closed. */
  ghost predicate FoundClosed(s: State, seat: Seat) {
    seat in s.since &&
      exists i: nat :: s.since[seat] <= i < Finished(s) && In(s, seat.room, i) && ClosedAt(Of(s.deliveries, seat.client), i)
  }

  /** The exact condition for a seat to be empty. */
  ghost predicate ClearedExactly(s: State, seat: Seat) {
    Entries(s, seat) == 0 <==> seat !in s.since || seat in s.left || FoundClosed(s, seat)
  }

  lemma OuterKeepsCleared(s: State, s1: State, act: Act, seat: Seat)
    requires ClearedExactly(s, seat) && Outer(s, s1, act)
    ensures ClearedExactly(s1, seat)
  {
    hide Shares, ChannelsMove, SessionsMove, CommandsMove, Of, ClosedAt;
    assert forall i :: In(s1, seat.room, i) <==> In(s, seat.room, i);
  }

  lemma ClosedAtAppend(record: seq<Delivery>, x: Delivery, i: nat)
    ensures ClosedAt(record + [x], i) <==> ClosedAt(record, i) || (x.index == i && x.outcome.Closed?)
  {
    var more := record + [x];
    if ClosedAt(record, i) {
      var k :| 0 <= k < |record| && record[k].index == i && record[k].outcome.Closed?;
      assert more[k] == record[k];
    }
    assert more[|record|] == x;
  }

  lemma OfferKeepsCleared(s: State, seat: Seat)
    requires Consistent(s) && Underway(s) && Offering(s) && ClearedExactly(s, seat)
    ensures ClearedExactly(OfferNext(s), seat)
  {
    var s1, x := OfferNext(s), NewAnswer(s)[0];
    OfferLeaves(s);
    OfferRecorded(s, seat.client);
    hide Consistent, Of, ClosedAt, Shares, EntriesOf, SendAt, OutcomeAt;
    forall i: nat | i < Finished(s)
      ensures ClosedAt(Of(s1.deliveries, seat.client), i) <==> ClosedAt(Of(s.deliveries, seat.client), i)
    {
      ClosedAtAppend(Of(s.deliveries, seat.client), x, i);
    }
    assert forall i :: In(s1, seat.room, i) <==> In(s, seat.room, i);
  }

  /** When a broadcast is over, its closed answers count. */
  lemma FinishFinds(s: State, seat: Seat)
    requires Underway(s) && Finishing(s) && FailedIsClosed(s, seat.client, Of(s.deliveries, seat.client))
    ensures var fan := s.ongoing.value;
            FoundClosed(FinishBroadcast(s), seat) <==>
              FoundClosed(s, seat) || (seat in s.since && fan.room == seat.room && seat.client in fan.failed)
  {
    FinishLeaves(s);
    hide Of, ClosedAt, EntriesOf, AfterDrop;
    var s1, fan := FinishBroadcast(s), s.ongoing.value;
    assert forall i :: In(s1, seat.room, i) <==> In(s, seat.room, i);
    assert Finished(s1) == fan.index + 1;
    if seat in s.since && fan.room == seat.room && seat.client in fan.failed {
      assert In(s1, seat.room, fan.index);
    }
    if FoundClosed(s, seat) {
      var i: nat :| s.since[seat] <= i < Finished(s) && In(s, seat.room, i) && ClosedAt(Of(s.deliveries, seat.client), i);
      assert In(s1, seat.room, i);
    }
  }

  lemma FinishKeepsCleared(s: State, seat: Seat)
    requires Consistent(s) && Underway(s) && Finishing(s) && ClearedExactly(s, seat)
    requires Tallied(s, seat) && FailedIsClosed(s, seat.client, Of(s.deliveries, seat.client))
    ensures ClearedExactly(Coordinated(s), seat)
  {
    FinishFinds(s, seat);
    FinishLeaves(s);
    EntryCountAfter(s, seat.room, seat.client);
    assert Coordinated(s) == FinishBroadcast(s);
    hide Consistent, Underway, Of, FoundClosed, EntryCount, FinishBroadcast, Coordinated, FailedIsClosed, JoinsOf, Queued;
  }

  predicate JoinNext(s: State, seat: Seat)
    requires s.commands.queue != []
  {
    s.commands.queue[0].Join? && seat == Seat(s.commands.queue[0].room, s.commands.queue[0].client)
  }

  /** A join is not answered for yet; any other command leaves what was found. */
  lemma TakeFinds(s: State, seat: Seat)
    requires Underway(s) && Taking(s)
    ensures FoundClosed(TakeCommand(s), seat) <==> FoundClosed(s, seat) && !JoinNext(s, seat)
  {
    TakeLeaves(s);
    TakeRecords(s);
    var s1 := TakeCommand(s);
    hide TakeCommand, Of, ClosedAt, EntriesOf, Untouched;
    assert forall i :: i < Finished(s) ==> (In(s1, seat.room, i) <==> In(s, seat.room, i));
  }

  lemma TakeKeepsCleared(s: State, seat: Seat)
    requires Consistent(s) && Underway(s) && Departures(s) && Taking(s) && ClearedExactly(s, seat)
    ensures ClearedExactly(TakeCommand(s), seat)
  {
    EntryCountAfter(s, seat.room, seat.client);
    assert Coordinated(s) == TakeCommand(s);
    TakeFinds(s, seat);
    TakeRecords(s);
    assert JoinNext(s, seat) ==> seat !in s.left by {
      assert seat in s.left ==> SeatLeft(s, seat);
    }
    hide Consistent, Underway, Departures, FoundClosed, EntryCount, Coordinated, TakeCommand;
  }

  lemma CoordinateKeepsCleared(s: State, seat: Seat)
    requires Consistent(s) && Underway(s) && Departures(s) && ClearedExactly(s, seat)
    requires Tallied(s, seat) && FailedIsClosed(s, seat.client, Of(s.deliveries, seat.client))
    ensures ClearedExactly(Coordinated(s), seat)
  {
    if Offering(s) {
      OfferKeepsCleared(s, seat);
    } else if Finishing(s) {
      FinishKeepsCleared(s, seat);
    } else if Taking(s) {
      TakeKeepsCleared(s, seat);
    }
  }

  /**
   In every state of every run, a client has no entry in a room if and only if none of its joins of the room was
   carried out, or its leave of the room was, or a broadcast to the room since its latest join found its channel
   closed. Whether the client ever heard of a join, or sent a leave that was turned away, makes no difference.
   */
  lemma {:induction false} SeatsClearExactly(steps: seq<Step>, seat: Seat)
    ensures ClearedExactly(Run(steps), seat)
  {
    hide Apply, Consistent, Membership, Departures, Conserved, Underway, Outer, ClearedExactly, Tallied, Attended;
    if steps == [] {
      InitiallyCleared(seat);
    } else {
      var k := |steps| - 1;
      var s := Run(steps[..k]);
      SeatsClearExactly(steps[..k], seat);
      EveryRunIsGood(steps[..k]);
      if steps[k].Coordinate? {
        EverySeatIsKept(steps[..k], seat);
        EveryClientIsServed(steps[..k], seat.client);
        CoordinateKeepsCleared(s, seat);
        CoordinateStep(s);
      } else {
        StepIsOuter(s, steps[k]);
        OuterKeepsCleared(s, Apply(s, steps[k]), ActOf(s, steps[k]), seat);
      }
    }
  }

  lemma InitiallyCleared(seat: Seat)
    ensures ClearedExactly(Initial, seat)
  {
  }

  /**
   Once its leave of `d` is carried out, the client has no entry in any room if and only if each room it has
   joined is `d` or was broadcast to since, with the channel found closed.
   */
  lemma LeavingIsComplete(steps: seq<Step>, d: DocumentId, c: ClientId)
    requires Seat(d, c) in Run(steps).left
    ensures var s := Run(steps);
            (forall r :: Entries(s, Seat(r, c)) == 0) <==>
              forall r :: Seat(r, c) in s.since ==> r == d || FoundClosed(s, Seat(r, c))
  {
    var s := Run(steps);
    EveryRunIsGood(steps);
    forall r ensures Entries(s, Seat(r, c)) == 0 <==> Seat(r, c) !in s.since || r == d || FoundClosed(s, Seat(r, c)) {
      SeatsClearExactly(steps, Seat(r, c));
    }
  }

  // ---------- after the channel is closed ----------

  /** From position `n` on, the client's channel has answered as closed only, and it is closed. */
  ghost predicate ClosedFrom(s: State, c: ClientId, n: nat) {
    && c in s.channels && !s.channels[c].open
    && forall k :: 0 <= k < |Of(s.deliveries, c)| && Of(s.deliveries, c)[k].index >= n ==> Of(s.deliveries, c)[k].outcome.Closed?
  }

  lemma CoordinateKeepsClosed(s: State, c: ClientId, n: nat)
    requires Consistent(s) && ClosedFrom(s, c, n)
    ensures ClosedFrom(Coordinated(s), c, n)
  {
    CoordinatedKeeps(s);
    HistoryAfter(s);
    assert !IsOpen(s.channels, c) && !IsOpen(Coordinated(s).channels, c);
    if Offering(s) {
      OfAppend(s.deliveries, NewAnswer(s)[0], c);
      OnlyClosed(s, c);
    } else {
      assert NewAnswer(s) == [] && s.deliveries + [] == s.deliveries;
    }
    hide Coordinated, Of, NewAnswer;
  }

  lemma OnlyClosed(s: State, c: ClientId)
    requires Offering(s) && !IsOpen(s.channels, c) && Consistent(s)
    ensures NewAnswer(s)[0].client == c ==> NewAnswer(s)[0].outcome.Closed?
  {
    NextIsClient(s);
  }

  lemma {:induction false} ClosedStays(steps: seq<Step>, later: seq<Step>, c: ClientId)
    requires c in Run(steps).channels && !Run(steps).channels[c].open
    ensures ClosedFrom(Run(steps + later), c, |Run(steps).processed|)
  {
    hide Apply, Consistent, Membership, Departures, Conserved, Underway, Served;
    var n := |Run(steps).processed|;
    if later == [] {
      assert steps + later == steps;
      EveryClientIsServed(steps, c);
      RecordIsIndexed(Run(steps), c);
    } else {
      var k := |later| - 1;
      ClosedStays(steps, later[..k], c);
      var s := Run(steps + later[..k]);
      assert (steps + later)[..|steps| + k] == steps + later[..k];
      EveryRunIsGood(steps + later[..k]);
      if later[k].Coordinate? {
        CoordinateStep(s);
        CoordinateKeepsClosed(s, c, n);
      } else {
        StepIsOuter(s, later[k]);
      }
    }
  }

  lemma RecordIsIndexed(s: State, c: ClientId)
    requires Served(s, c)
    ensures Indexed(Of(s.deliveries, c), s.processed)
  {
  }

  /** A broadcast to the room that is taken up after the channel has closed clears the seat, unless a join comes later. */
  lemma BroadcastAfterClosingClears(steps: seq<Step>, later: seq<Step>, seat: Seat, i: nat)
    requires seat.client in Run(steps).channels && !Run(steps).channels[seat.client].open
    requires var s := Run(steps + later);
             && |Run(steps).processed| <= i < Finished(s) && In(s, seat.room, i)
             && (seat in s.since ==> s.since[seat] <= i)
    ensures Entries(Run(steps + later), seat) == 0
  {
    var s := Run(steps + later);
    SeatsClearExactly(steps + later, seat);
    EverySeatIsKept(steps + later, seat);
    EveryRunIsGood(steps + later);
    EveryClientIsServed(steps + later, seat.client);
    ClosedStays(steps, later, seat.client);
    HeardIsShown(s, i, seat.client);
    hide Run, Consistent, Membership, Departures, Conserved, Served, Of, Shares;
    if seat in s.since && Heard(s, i, seat.client) > 0 {
      assert ClosedAt(Of(s.deliveries, seat.client), i);
    }
  }

  // ---------- entries that stay behind ----------

  /** Nothing is on its way, and the client is ready with an open channel that holds `n` messages. */
  ghost predicate Idle(s: State, c: ClientId, n: nat) {
    && s.ongoing.None? && s.commands == Initial.commands && InPhase(s, c, Ready)
    && c in s.channels && s.channels[c].open && s.channels[c].capacity == CLIENT_CHANNEL_CAPACITY && |s.channels[c].queue| == n
  }

  /** A client connects, in the initial state. */
  lemma Arrive(c: ClientId) returns (steps: seq<Step>)
    ensures var s := Run(steps); Idle(s, c, 0) && s.rooms == map[] && s.sessions[c].room == None
  {
    steps := [] + [Connect(c)];
    RunMore([], Connect(c));
    assert Run([]) == Initial;
  }

  /** A ready client asks for a room, and the coordinator carries the join out. */
  lemma Enter(before: seq<Step>, c: ClientId, room: DocumentId, n: nat) returns (steps: seq<Step>)
    requires Idle(Run(before), c, n)
    ensures var s, t := Run(before), Run(steps);
            && t.rooms == AfterJoin(s.rooms, room, c, c) && t.ongoing.None? && t.commands == Initial.commands
            && IsAwaiting(t, c) && t.sessions[c].phase.room == room && t.sessions[c].phase.ticket in t.acks
            && t.sessions[c].room == s.sessions[c].room && t.channels == s.channels
  {
    hide Run, EntriesOf;
    var s := Run(before);
    var asked := before + [Receive(c, JoinFrame(room))];
    RunMore(before, Receive(c, JoinFrame(room)));
    assert Run(asked) == HandleJoinFrame(s, c, room);
    RunMore(asked, Coordinate);
    steps := asked + [Coordinate];
    assert Run(steps) == TakeCommand(Run(asked));
    assert Initial.commands.queue == [];
    assert Run(asked).commands.queue == [Join(room, c, c, s.nextTicket)];
  }

  lemma Answer(before: seq<Step>, c: ClientId, n: nat) returns (steps: seq<Step>)
    requires var s := Run(before);
             && s.ongoing.None? && s.commands == Initial.commands && IsAwaiting(s, c) && s.sessions[c].phase.ticket in s.acks
             && c in s.channels && s.channels[c].open && s.channels[c].capacity == CLIENT_CHANNEL_CAPACITY
             && |s.channels[c].queue| == n < CLIENT_CHANNEL_CAPACITY
    ensures var s, t := Run(before), Run(steps);
            Idle(t, c, n + 1) && t.rooms == s.rooms && t.sessions[c].room == Some(s.sessions[c].phase.room)
  {
    hide Run;
    RunMore(before, AckJoin(c));
    steps := before + [AckJoin(c)];
  }

  /** The receive loop ends. */
  lemma Stop(before: seq<Step>, c: ClientId) returns (steps: seq<Step>)
    requires InPhase(Run(before), c, Ready)
    ensures Run(steps) == WithPhase(Run(before), c, Ended)
  {
    RunMore(before, EndReceive(c));
    steps := before + [EndReceive(c)];
  }

  lemma TwoRoomsOneLeave(a: DocumentId, b: DocumentId, c: ClientId)
    requires a != b
    ensures var rooms := AfterLeave(AfterJoin(AfterJoin(map[], a, c, c), b, c, c), b, c);
            EntriesOf(rooms, a) == [Entry(c, c)] && EntriesOf(rooms, b) == []
  {
    var entries := [Entry(c, c)];
    assert [] + entries == entries && entries[..0] == [];
    assert Retain(entries, {c}) == [];
  }

  /** A client that joined two rooms leaves the second and stays in the first. */
  lemma EarlierRoomIsNotLeft(c: ClientId, a: DocumentId, b: DocumentId) returns (steps: seq<Step>)
    requires a != b
    ensures var s := Run(steps);
            && InPhase(s, c, Gone) && s.commands.queue == [] && s.ongoing.None?
            && EntriesOf(s.rooms, a) == [Entry(c, c)] && EntriesOf(s.rooms, b) == []
  {
    hide Run, Apply, AfterJoin, AfterLeave, EntriesOf;
    TwoRoomsOneLeave(a, b, c);
    steps := Arrive(c);
    steps := Enter(steps, c, a, 0);
    steps := Answer(steps, c, 0);
    steps := Enter(steps, c, b, 1);
    steps := Answer(steps, c, 1);
    steps := Stop(steps, c);
    steps := LeaveTaken(steps, c);
  }

  lemma LeaveTaken(before: seq<Step>, c: ClientId) returns (steps: seq<Step>)
    requires var s := Run(before);
             s.ongoing.None? && s.commands == Initial.commands && InPhase(s, c, Ended) && s.sessions[c].room.Some?
    ensures var s, t := Run(before), Run(steps);
            && InPhase(t, c, Gone) && t.commands.queue == [] && t.ongoing.None?
            && t.rooms == AfterLeave(s.rooms, s.sessions[c].room.value, c)
  {
    hide Run, AfterLeave;
    var s := Run(before);
    RunMore(before, SendLeave(c));
    var sent := before + [SendLeave(c)];
    assert Run(sent).commands.queue == [Leave(s.sessions[c].room.value, c)];
    RunMore(sent, Coordinate);
    steps := sent + [Coordinate];
    assert Run(steps) == TakeCommand(Run(sent));
  }

  /** A client whose join was answered too late has an entry, and leaves no room at the end. */
  lemma TimedOutJoinIsNotLeft(c: ClientId, a: DocumentId) returns (steps: seq<Step>)
    ensures var s := Run(steps);
            && InPhase(s, c, Gone) && s.commands.queue == [] && s.ongoing.None?
            && s.sessions[c].room == None && EntriesOf(s.rooms, a) == [Entry(c, c)]
  {
    hide Run, AfterLeave;
    steps := Arrive(c);
    steps := Enter(steps, c, a, 0);
    RunMore(steps, TimeOutJoin(c));
    steps := steps + [TimeOutJoin(c)];
    steps := Stop(steps, c);
    RunMore(steps, SendLeave(c));
    steps := steps + [SendLeave(c)];
  }

  /** Invalidations fill the command channel. */
  lemma {:induction false} Flood(before: seq<Step>, d: DocumentId, n: nat) returns (steps: seq<Step>)
    requires Run(before).commands == Initial.commands && n <= ROOMS_COORDINATOR_CHANNEL_CAPACITY
    ensures var s, t := Run(before), Run(steps);
            && t.rooms == s.rooms && t.sessions == s.sessions
            && t.commands.open && t.commands.capacity == ROOMS_COORDINATOR_CHANNEL_CAPACITY && |t.commands.queue| == n
            && forall i :: 0 <= i < n ==> t.commands.queue[i].Broadcast?
  {
    hide Run;
    if n == 0 {
      steps := before;
    } else {
      steps := Flood(before, d, n - 1);
      RunMore(steps, Invalidate(d, [], 0));
      steps := steps + [Invalidate(d, [], 0)];
    }
  }

  /** A leave that a full command channel turns away is not tried again. */
  lemma RejectedLeaveIsLost(c: ClientId, a: DocumentId) returns (steps: seq<Step>)
    ensures var s := Run(steps);
            && InPhase(s, c, Gone) && EntriesOf(s.rooms, a) == [Entry(c, c)] && s.sessions[c].room == Some(a)
            && forall i :: 0 <= i < |s.commands.queue| ==> s.commands.queue[i].Broadcast?
  {
    hide Run;
    steps := Arrive(c);
    steps := Enter(steps, c, a, 0);
    steps := Answer(steps, c, 0);
    steps := Flood(steps, a, ROOMS_COORDINATOR_CHANNEL_CAPACITY);
    steps := Stop(steps, c);
    RunMore(steps, SendLeave(c));
    steps := steps + [SendLeave(c)];
  }
}
