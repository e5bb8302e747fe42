/**
 One client in one room. Every entry stems from a join the command channel took, and a client that joined the
 room once is heard in an unbroken stretch of its broadcasts.
 */
module RoomsSeats {
  import opened Channels
  import opened Rooms
  import opened RoomsProtocol
  import opened RoomsSteps
  import opened RoomsInvariants
  import opened RoomsFifo

  // ---------- counting joins ----------

  /** The joins of the seat that the command channel took. */
  function JoinsOf(joins: seq<Seat>, seat: Seat): nat {
    if joins == [] then 0 else
      var k := |joins| - 1;
      JoinsOf(joins[..k], seat) + if joins[k] == seat then 1 else 0
  }

  /** The joins of the seat that are still in the command channel. */
  function Queued(queue: seq<RoomCommand>, seat: Seat): nat {
    if queue == [] then 0 else
      (if queue[0].Join? && Seat(queue[0].room, queue[0].client) == seat then 1 else 0) + Queued(queue[1..], seat)
  }

  lemma JoinsOfAppend(joins: seq<Seat>, x: Seat, seat: Seat)
    ensures JoinsOf(joins + [x], seat) == JoinsOf(joins, seat) + if x == seat then 1 else 0
  {
    assert (joins + [x])[..|joins|] == joins;
  }

  lemma {:induction false} QueuedAppend(queue: seq<RoomCommand>, command: RoomCommand, seat: Seat)
    ensures Queued(queue + [command], seat)
         == Queued(queue, seat) + if command.Join? && Seat(command.room, command.client) == seat then 1 else 0
  {
    if queue != [] {
      assert (queue + [command])[1..] == queue[1..] + [command];
      QueuedAppend(queue[1..], command, seat);
    }
  }

  lemma QueuedFirst(queue: seq<RoomCommand>, seat: Seat)
    requires queue != []
    ensures Queued(queue, seat)
         == (if queue[0].Join? && Seat(queue[0].room, queue[0].client) == seat then 1 else 0) + Queued(queue[1..], seat)
  {
  }

  function Entries(s: State, seat: Seat): nat {
    EntryCount(s, seat.room, seat.client)
  }

  /** No entry without a join that was carried out; and the time of the latest one is on record. */
  ghost predicate Tallied(s: State, seat: Seat) {
    && Entries(s, seat) + Queued(s.commands.queue, seat) <= JoinsOf(s.joins, seat)
    && (seat in s.since <==> Queued(s.commands.queue, seat) < JoinsOf(s.joins, seat))
  }

  lemma OuterKeepsTallied(s: State, s1: State, act: Act, seat: Seat)
    requires Tallied(s, seat) && Outer(s, s1, act)
    ensures Tallied(s1, seat) && JoinsOf(s.joins, seat) <= JoinsOf(s1.joins, seat)
  {
    hide Shares, ChannelsMove, SessionsMove, JoinsOf, Queued, Takes;
    match act
    case NoAct => assert s.joins + [] == s.joins;
    case Posting(post) =>
      assert s.joins + [] == s.joins;
      QueuedAppend(s.commands.queue, Broadcast(post.room, post.message), seat);
    case Joining(client, room) =>
      JoinsOfAppend(s.joins, Seat(room, client), seat);
      QueuedAppend(s.commands.queue, Join(room, client, client, s.nextTicket), seat);
    case Leaving(client, room) =>
      assert s.joins + [] == s.joins;
      QueuedAppend(s.commands.queue, Leave(room, client), seat);
  }

  lemma CoordinateKeepsTallied(s: State, seat: Seat)
    requires Consistent(s) && Tallied(s, seat)
    ensures Tallied(Coordinated(s), seat)
  {
    EntryCountAfter(s, seat.room, seat.client);
    CommandsAfter(s);
    hide Coordinated, EntryCount, Consistent, JoinsOf, Queued;
    if Taking(s) {
      QueuedFirst(s.commands.queue, seat);
    }
  }

  lemma CommandsAfter(s: State)
    ensures var s1 := Coordinated(s);
            && s1.joins == s.joins
            && s1.commands.queue == (if Taking(s) then s.commands.queue[1..] else s.commands.queue)
            && forall seat :: seat in s1.since <==>
                 seat in s.since || (Taking(s) && s.commands.queue[0].Join? && seat == Seat(s.commands.queue[0].room, s.commands.queue[0].client))
  {
    hide Coordinated;
    CoordinatedKeeps(s);
    HistoryAfter(s);
  }

  // ---------- a stretch of broadcasts ----------

  ghost predicate In(s: State, d: DocumentId, i: int) {
    0 <= i < |s.processed| && i < |s.audience| && s.processed[i].room == d
  }

  /** The entries the client had when the broadcast at position `i` was taken up. */
  function Heard(s: State, i: nat, c: ClientId): nat
    requires i < |s.audience|
  {
    Shares(s.audience[i], c)
  }

  /** A broadcast that a client with a join behind it is not in the audience of finds it gone for good. */
  ghost predicate GoneFrom(s: State, seat: Seat, i: int) {
    && Entries(s, seat) == 0
    && forall j :: i <= j && In(s, seat.room, j) ==> Heard(s, j, seat.client) == 0
  }

  /**
   Since its latest join, a client that is once not heard is gone. If that join was the only one, it is heard at
   most once in each broadcast, and in none before.
   */
  ghost predicate Attended(s: State, seat: Seat) {
    && (forall i :: seat in s.since && s.since[seat] <= i && In(s, seat.room, i) && Heard(s, i, seat.client) == 0
          ==> GoneFrom(s, seat, i))
    && (JoinsOf(s.joins, seat) <= 1 ==>
          forall i :: In(s, seat.room, i) ==>
            Heard(s, i, seat.client) <= 1 && (Heard(s, i, seat.client) > 0 ==> seat in s.since && s.since[seat] <= i))
  }

  lemma OuterKeepsAttended(s: State, s1: State, act: Act, seat: Seat)
    requires Tallied(s, seat) && Attended(s, seat) && Outer(s, s1, act)
    ensures Attended(s1, seat)
  {
    OuterKeepsTallied(s, s1, act, seat);
    hide Shares, ChannelsMove, SessionsMove, CommandsMove, JoinsOf, Tallied;
    assert forall i :: In(s1, seat.room, i) <==> In(s, seat.room, i);
    assert forall i :: GoneFrom(s, seat, i) ==> GoneFrom(s1, seat, i);
  }

  /** A step that takes up no broadcast and carries out no join of the seat leaves the stretch as it is. */
  lemma QuietKeepsAttended(s: State, seat: Seat)
    requires Consistent(s) && Attended(s, seat)
    requires Taking(s) ==> !s.commands.queue[0].Broadcast?
    requires Taking(s) && s.commands.queue[0].Join? ==> Seat(s.commands.queue[0].room, s.commands.queue[0].client) != seat
    ensures Attended(Coordinated(s), seat)
  {
    EntryCountAfter(s, seat.room, seat.client);
    CoordinateOffersNothing(s);
    HistoryAfter(s);
    hide Coordinated, EntryCount, Consistent, JoinsOf, NewAnswer, Shares;
    var s1 := Coordinated(s);
    assert forall i :: In(s1, seat.room, i) <==> In(s, seat.room, i);
    assert forall i :: GoneFrom(s, seat, i) ==> GoneFrom(s1, seat, i);
  }

  lemma JoinKeepsAttended(s: State, seat: Seat)
    requires Consistent(s) && Underway(s) && Tallied(s, seat) && Attended(s, seat)
    requires Taking(s) && s.commands.queue[0].Join? && Seat(s.commands.queue[0].room, s.commands.queue[0].client) == seat
    ensures Attended(Coordinated(s), seat)
  {
    CoordinateOffersNothing(s);
    HistoryAfter(s);
    hide Coordinated, EntryCount, Consistent, JoinsOf, NewAnswer, Shares;
    var s1 := Coordinated(s);
    assert forall i :: In(s1, seat.room, i) <==> In(s, seat.room, i);
  }

  lemma BroadcastKeepsAttended(s: State, seat: Seat)
    requires Consistent(s) && Underway(s) && Tallied(s, seat) && Attended(s, seat)
    requires Taking(s) && s.commands.queue[0].Broadcast?
    ensures Attended(Coordinated(s), seat)
  {
    EntryCountAfter(s, seat.room, seat.client);
    CoordinateOffersNothing(s);
    HistoryAfter(s);
    hide Coordinated, Consistent, JoinsOf, NewAnswer, Shares, EntriesOf;
    var s1, n := Coordinated(s), |s.processed|;
    forall i | In(s1, seat.room, i) ensures i < n ==> In(s, seat.room, i) && Heard(s1, i, seat.client) == Heard(s, i, seat.client)
                                    ensures i == n ==> Heard(s1, i, seat.client) == Entries(s, seat)
    {
    }
    forall i | seat in s.since && s.since[seat] <= i && In(s1, seat.room, i) && Heard(s1, i, seat.client) == 0
      ensures GoneFrom(s1, seat, i)
    {
      if i < n {
        assert GoneFrom(s, seat, i);
      }
    }
  }

  lemma CoordinateKeepsAttended(s: State, seat: Seat)
    requires Consistent(s) && Underway(s) && Tallied(s, seat) && Attended(s, seat)
    ensures Attended(Coordinated(s), seat)
  {
    hide Consistent, Underway, Tallied, Attended, Coordinated;
    if Taking(s) && s.commands.queue[0].Broadcast? {
      BroadcastKeepsAttended(s, seat);
    } else if Taking(s) && s.commands.queue[0].Join? && Seat(s.commands.queue[0].room, s.commands.queue[0].client) == seat {
      JoinKeepsAttended(s, seat);
    } else {
      QuietKeepsAttended(s, seat);
    }
  }

  // ---------- every run ----------

  lemma {:induction false} EverySeatIsKept(steps: seq<Step>, seat: Seat)
    ensures Tallied(Run(steps), seat) && Attended(Run(steps), seat)
  {
    hide Apply, Consistent, Membership, Departures, Conserved, Underway, Outer, Tallied, Attended;
    if steps == [] {
      InitiallyKept(seat);
    } else {
      var k := |steps| - 1;
      var s := Run(steps[..k]);
      EverySeatIsKept(steps[..k], seat);
      EveryRunIsGood(steps[..k]);
      if steps[k].Coordinate? {
        CoordinateKeepsTallied(s, seat);
        CoordinateKeepsAttended(s, seat);
        CoordinateStep(s);
      } else {
        StepIsOuter(s, steps[k]);
        OuterKeepsTallied(s, Apply(s, steps[k]), ActOf(s, steps[k]), seat);
        OuterKeepsAttended(s, Apply(s, steps[k]), ActOf(s, steps[k]), seat);
      }
    }
  }

  lemma InitiallyKept(seat: Seat)
    ensures Tallied(Initial, seat) && Attended(Initial, seat)
  {
  }

  /** Once the coordinator is done with a broadcast, every client has given one answer for each entry it had. */
  lemma EveryEntryAnswers(steps: seq<Step>, c: ClientId, i: nat)
    requires i < Finished(Run(steps))
    ensures var s := Run(steps); i < |s.audience| && CountAt(Of(s.deliveries, c), i) == Shares(s.audience[i], c)
  {
    hide Run, Of, CountAt, Shares, SentMessages, Inbox, EntriesOf, Consistent, Membership, Departures, Conserved;
    EveryRunIsGood(steps);
    EveryClientIsServed(steps, c);
  }

  // ---------- first in, first out, for one room ----------

  /** The record has at most one answer for each broadcast of the room. */
  ghost predicate StrictIn(record: seq<Delivery>, processed: seq<Post>, d: DocumentId)
    requires Indexed(record, processed)
  {
    forall k, l :: 0 <= k < l < |record| && processed[record[k].index].room == d && processed[record[l].index].room == d
      ==> record[k].index < record[l].index
  }

  /** An answer to a broadcast of the room came from an audience the client was in, and from its join on. */
  lemma AnswersAreHeard(s: State, seat: Seat, k: nat)
    requires Underway(s) && Served(s, seat.client) && Attended(s, seat) && JoinsOf(s.joins, seat) <= 1
    requires var record := Of(s.deliveries, seat.client);
             k < |record| && record[k].index < |s.processed| && s.processed[record[k].index].room == seat.room
    ensures var record := Of(s.deliveries, seat.client); var i := record[k].index;
            && CountAt(record, i) == Heard(s, i, seat.client) == 1
            && seat in s.since && s.since[seat] <= i
  {
    hide Of, CountAt, Shares, SentMessages, RoomMessages, InOrder, ClosedLast, InboxIsRecord, FailedIsClosed, EntriesOf;
    var record, i := Of(s.deliveries, seat.client), Of(s.deliveries, seat.client)[k].index;
    CountAtPosition(record, i);
    assert In(s, seat.room, i);
    AskedIsHeard(s, i, seat.client);
  }

  lemma AskedIsHeard(s: State, i: nat, c: ClientId)
    requires Underway(s) && i < |s.audience|
    ensures Shares(Asked(s, i), c) <= Heard(s, i, c)
    ensures i < Finished(s) ==> Shares(Asked(s, i), c) == Heard(s, i, c)
  {
    hide EntriesOf;
    if i >= Finished(s) {
      SharesOfFront(s.audience[i], s.ongoing.value.next, c);
    }
  }

  lemma {:induction false} SharesOfFront(entries: seq<Entry>, n: nat, c: ClientId)
    requires n <= |entries|
    ensures Shares(entries[..n], c) <= Shares(entries, c)
  {
    if n < |entries| {
      assert entries[..|entries| - 1][..n] == entries[..n];
      SharesOfFront(entries[..|entries| - 1], n, c);
    } else {
      assert entries[..n] == entries;
    }
  }

  lemma RecordIsStrict(s: State, seat: Seat)
    requires Underway(s) && Served(s, seat.client) && Attended(s, seat) && JoinsOf(s.joins, seat) <= 1
    ensures StrictIn(Of(s.deliveries, seat.client), s.processed, seat.room)
  {
    hide Of, CountAt, SentMessages, Attended, Underway, AnsweredPerEntry, FailedIsClosed, InboxIsRecord;
    var record := Of(s.deliveries, seat.client);
    forall k, l | 0 <= k < l < |record| && s.processed[record[k].index].room == seat.room
                  && s.processed[record[l].index].room == seat.room
      ensures record[k].index < record[l].index
    {
      AnswersAreHeard(s, seat, k);
      if record[k].index == record[l].index {
        CountAtTwice(record, k, l);
      }
    }
  }

  /** A finished broadcast of the room that the client was in the audience of is in its record. */
  lemma HeardIsShown(s: State, i: nat, c: ClientId)
    requires Underway(s) && Served(s, c) && i < Finished(s)
    ensures Shows(Of(s.deliveries, c), i) <==> Heard(s, i, c) > 0
  {
    hide Of, CountAt, Shares, SentMessages, InOrder, ClosedLast, InboxIsRecord, FailedIsClosed, Asked, EntriesOf;
    CountAtPosition(Of(s.deliveries, c), i);
    AskedIsHeard(s, i, c);
  }

  /** A broadcast between two that the record shows is shown too. */
  lemma ShownBetween(s: State, seat: Seat, l: nat, i: nat, h: nat) returns (k: nat)
    requires Underway(s) && Served(s, seat.client) && Attended(s, seat) && JoinsOf(s.joins, seat) <= 1
    requires var record := Of(s.deliveries, seat.client);
             && l < |record| && h < |record| && record[l].index < i < record[h].index < |s.processed|
             && s.processed[record[l].index].room == s.processed[i].room == s.processed[record[h].index].room == seat.room
    ensures var record := Of(s.deliveries, seat.client);
            l < k < h && record[k].index == i
  {
    var record := Of(s.deliveries, seat.client);
    AnswersAreHeard(s, seat, l);
    AnswersAreHeard(s, seat, h);
    assert In(s, seat.room, i) && In(s, seat.room, record[h].index);
    assert Heard(s, i, seat.client) > 0 by {
      hide Served, Of, CountAt, Shares, Heard;
      assert Heard(s, i, seat.client) == 0 ==> GoneFrom(s, seat, i);
    }
    HeardIsShown(s, i, seat.client);
    hide Of, CountAt, Shares, SentMessages, ClosedLast, InboxIsRecord, FailedIsClosed, Asked, Attended, AnsweredPerEntry, EntriesOf;
    k :| 0 <= k < |record| && record[k].index == i;
  }

  /**
   First in, first out, for a room the client has joined at most once, whatever else it has joined: the record's
   answers for the room are for different broadcasts, in order, from the join on. A finished broadcast since then
   is in the record, or the client had left the room for good. While it has its entry and its channel is open,
   every finished broadcast is in the record, answered as sent or as full.
   */
  lemma RoomDeliveryIsFifo(steps: seq<Step>, c: ClientId, d: DocumentId)
    requires JoinsOf(Run(steps).joins, Seat(d, c)) <= 1
    ensures var s := Run(steps);
            var record, seat := Of(s.deliveries, c), Seat(d, c);
            && Indexed(record, s.processed) && StrictIn(record, s.processed, d)
            && InboxIsRecord(s, c, record)
            && (forall k :: 0 <= k < |record| && s.processed[record[k].index].room == d ==>
                  seat in s.since && s.since[seat] <= record[k].index)
            && (seat in s.since ==>
                  forall i :: s.since[seat] <= i < Finished(s) && In(s, d, i) ==> Shows(record, i) || GoneFrom(s, seat, i))
            && (IsOpen(s.channels, c) ==>
                  forall k :: 0 <= k < |record| ==> record[k].outcome.Sent? || record[k].outcome.Full?)
  {
    var s, seat := Run(steps), Seat(d, c);
    var record := Of(s.deliveries, c);
    EveryRunIsGood(steps);
    EveryClientIsServed(steps, c);
    EverySeatIsKept(steps, seat);
    RecordIsStrict(s, seat);
    hide Run, Of, CountAt, Shares, SentMessages, Inbox, FailedIsClosed, Asked, AnsweredPerEntry, EntriesOf, Consistent, Membership, Departures, Conserved;
    forall k | 0 <= k < |record| && s.processed[record[k].index].room == d
      ensures seat in s.since && s.since[seat] <= record[k].index
    {
      AnswersAreHeard(s, seat, k);
    }
    if seat in s.since {
      forall i | s.since[seat] <= i < Finished(s) && In(s, d, i) ensures Shows(record, i) || GoneFrom(s, seat, i) {
        HeardIsShown(s, i, c);
      }
    }
  }
}
