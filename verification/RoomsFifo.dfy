/**
 Delivery to one client. The answers its channel gave are a record of the broadcasts to its rooms; the first
 part holds for every client in every run, the second for a room that the client has joined at most once.
 */
module RoomsFifo {
  import opened Basics
  import opened Channels
  import opened Rooms
  import opened RoomsProtocol
  import opened RoomsSteps
  import opened RoomsInvariants

  // ---------- the record of a client ----------

  function Of(deliveries: seq<Delivery>, c: ClientId): seq<Delivery> {
    if deliveries == [] then [] else
      var k := |deliveries| - 1;
      Of(deliveries[..k], c) + if deliveries[k].client == c then [deliveries[k]] else []
  }

  lemma OfAppend(deliveries: seq<Delivery>, x: Delivery, c: ClientId)
    ensures Of(deliveries + [x], c) == Of(deliveries, c) + if x.client == c then [x] else []
  {
    assert (deliveries + [x])[..|deliveries|] == deliveries;
  }

  /** The messages of the broadcasts that the client's channel took. */
  function SentMessages(record: seq<Delivery>, processed: seq<Post>): seq<ServerMessage>
    requires Indexed(record, processed)
  {
    if record == [] then [] else
      var k := |record| - 1;
      SentMessages(record[..k], processed) + if record[k].outcome.Sent? then [processed[record[k].index].message] else []
  }

  ghost predicate Indexed(record: seq<Delivery>, processed: seq<Post>) {
    forall k :: 0 <= k < |record| ==> record[k].index < |processed|
  }

  lemma {:induction false} SentMessagesStay(record: seq<Delivery>, processed: seq<Post>, post: Post)
    requires Indexed(record, processed)
    ensures SentMessages(record, processed + [post]) == SentMessages(record, processed)
  {
    if record != [] {
      SentMessagesStay(record[..|record| - 1], processed, post);
    }
  }

  lemma SentMessagesAppend(record: seq<Delivery>, x: Delivery, processed: seq<Post>)
    requires Indexed(record, processed) && x.index < |processed|
    ensures SentMessages(record + [x], processed)
         == SentMessages(record, processed) + if x.outcome.Sent? then [processed[x.index].message] else []
  {
    assert (record + [x])[..|record|] == record;
  }

  /** The number of answers the record has for the broadcast at position `i`. */
  function CountAt(record: seq<Delivery>, i: nat): nat {
    if record == [] then 0 else
      var k := |record| - 1;
      CountAt(record[..k], i) + if record[k].index == i then 1 else 0
  }

  lemma CountAtAppend(record: seq<Delivery>, x: Delivery, i: nat)
    ensures CountAt(record + [x], i) == CountAt(record, i) + if x.index == i then 1 else 0
  {
    assert (record + [x])[..|record|] == record;
  }

  lemma {:induction false} CountAtPosition(record: seq<Delivery>, i: nat)
    ensures CountAt(record, i) > 0 <==> Shows(record, i)
  {
    if record != [] {
      var k := |record| - 1;
      CountAtPosition(record[..k], i);
      assert record == record[..k] + [record[k]];
      if Shows(record[..k], i) {
        var l :| 0 <= l < k && record[..k][l].index == i;
        assert record[l].index == i;
      }
    }
  }

  /** Two answers for one broadcast count twice. */
  lemma {:induction false} CountAtTwice(record: seq<Delivery>, k: nat, l: nat)
    requires k < l < |record| && record[k].index == record[l].index
    ensures CountAt(record, record[k].index) >= 2
  {
    var n := |record| - 1;
    if l < n {
      CountAtTwice(record[..n], k, l);
    } else {
      assert record[..n][k].index == record[k].index;
      CountAtPosition(record[..n], record[k].index);
    }
  }

  /** The record shows the broadcast at position `i`. */
  ghost predicate Shows(record: seq<Delivery>, i: nat) {
    exists k :: 0 <= k < |record| && record[k].index == i
  }

  // ---------- every client, every run ----------

  /** The entries of the broadcast at position `i` that the coordinator has turned to. */
  function Asked(s: State, i: nat): seq<Entry>
    requires i < |s.audience|
  {
    if s.ongoing.Some? && i == s.ongoing.value.index && s.ongoing.value.next <= |s.audience[i]|
    then s.audience[i][..s.ongoing.value.next] else s.audience[i]
  }

  /** Answers come in the order of the broadcasts. */
  ghost predicate InOrder(record: seq<Delivery>) {
    forall k, l :: 0 <= k < l < |record| ==> record[k].index <= record[l].index
  }

  /** Only a closed channel answers that it is closed, and it gives no other answer afterwards. */
  ghost predicate ClosedLast(isOpen: bool, record: seq<Delivery>) {
    && (forall k :: 0 <= k < |record| && record[k].outcome.Closed? ==> !isOpen)
    && (forall k, l :: 0 <= k < l < |record| && record[k].outcome.Closed? ==> record[l].outcome.Closed?)
  }

  /** The room messages the client has been sent are those of the broadcasts its channel took. */
  ghost predicate InboxIsRecord(s: State, c: ClientId, record: seq<Delivery>)
    requires Indexed(record, s.processed)
  {
    if c in s.channels && c in s.received then Inbox(s.received, s.channels, c) == SentMessages(record, s.processed)
    else record == []
  }

  /** Each broadcast has one answer for each entry of the client that the coordinator has turned to. */
  ghost predicate AnsweredPerEntry(s: State, c: ClientId, record: seq<Delivery>) {
    forall i :: 0 <= i < |s.processed| && i < |s.audience| ==> CountAt(record, i) == Shares(Asked(s, i), c)
  }

  /** The clients that failed so far are the ones with a closed answer to the broadcast under way. */
  ghost predicate FailedIsClosed(s: State, c: ClientId, record: seq<Delivery>) {
    s.ongoing.Some? ==> (c in s.ongoing.value.failed <==> ClosedAt(record, s.ongoing.value.index))
  }

  ghost predicate ClosedAt(record: seq<Delivery>, i: nat) {
    exists k :: 0 <= k < |record| && record[k].index == i && record[k].outcome.Closed?
  }

  ghost predicate Served(s: State, c: ClientId) {
    var record := Of(s.deliveries, c);
    && Indexed(record, s.processed) && InOrder(record)
    && InboxIsRecord(s, c, record) && ClosedLast(IsOpen(s.channels, c), record)
    && AnsweredPerEntry(s, c, record) && FailedIsClosed(s, c, record)
  }

  lemma OuterKeepsServed(s: State, s1: State, act: Act, c: ClientId)
    requires Consistent(s) && Served(s, c) && Outer(s, s1, act)
    ensures Served(s1, c)
  {
    var record := Of(s.deliveries, c);
    OuterKeepsAnswers(s, s1, act, c, record);
    OuterKeepsInbox(s, s1, act, c, record);
    hide Of, AnsweredPerEntry, Consistent, InboxIsRecord, Inbox, CommandsMove, SessionsMove, InOrder;
  }

  lemma OuterKeepsInbox(s: State, s1: State, act: Act, c: ClientId, record: seq<Delivery>)
    requires Consistent(s) && Indexed(record, s.processed) && InboxIsRecord(s, c, record) && Outer(s, s1, act)
    ensures InboxIsRecord(s1, c, record)
  {
    KeysAgree(s);
    NothingSent(s.processed);
    hide Consistent, SentMessages, Inbox, CommandsMove, SessionsMove;
  }

  lemma NothingSent(processed: seq<Post>)
    ensures SentMessages([], processed) == []
  {
  }

  lemma OuterKeepsAnswers(s: State, s1: State, act: Act, c: ClientId, record: seq<Delivery>)
    requires AnsweredPerEntry(s, c, record) && Outer(s, s1, act)
    ensures AnsweredPerEntry(s1, c, record)
  {
    hide CommandsMove, SessionsMove, ChannelsMove, Shares, CountAt;
    assert forall i :: 0 <= i < |s.audience| ==> Asked(s1, i) == Asked(s, i);
  }

  /** What the coordinator's offer to an entry does, seen by one client. */
  lemma OfferSeen(s: State, c: ClientId)
    requires Consistent(s) && Underway(s) && Offering(s) && c in s.channels && c in s.received
    ensures var s1, x := OfferNext(s), NewAnswer(s)[0];
            && c in s1.channels && c in s1.received
            && Inbox(s1.received, s1.channels, c) == Inbox(s.received, s.channels, c)
                 + (if x.client == c && x.outcome.Sent? then [s.ongoing.value.message] else [])
  {
    NamesFit(s, s.ongoing.value.room);
    hide Consistent, RoomMessages, EntriesOf;
    var fan := s.ongoing.value;
    var e := Listeners(s)[fan.next];
    if e.client == c && OutcomeAt(s.channels, c).Sent? {
      var before := s.received[c] + s.channels[c].queue;
      assert s.received[c] + (s.channels[c].queue + [fan.message]) == before + [fan.message];
      RoomMessagesAppend(before, fan.message);
    }
  }

  /** The record after the coordinator's offer to an entry. */
  lemma OfferRecorded(s: State, c: ClientId)
    requires Offering(s)
    ensures var s1, x := OfferNext(s), NewAnswer(s)[0];
            Of(s1.deliveries, c) == if x.client == c then Of(s.deliveries, c) + [x] else Of(s.deliveries, c)
  {
    OfferLeaves(s);
    OfAppend(s.deliveries, NewAnswer(s)[0], c);
    assert Of(s.deliveries, c) + [] == Of(s.deliveries, c);
  }

  /** The entry that is asked next names a client that has a channel. */
  lemma NextIsClient(s: State)
    requires Consistent(s) && Offering(s)
    ensures var e, x := Listeners(s)[s.ongoing.value.next], NewAnswer(s)[0];
            e.tx == e.client == x.client && x.client in s.channels && x.client in s.received
            && (x.outcome.Closed? <==> !IsOpen(s.channels, x.client)) && x.index == s.ongoing.value.index
  {
    KeysAgree(s);
    NamesFit(s, s.ongoing.value.room);
  }

  lemma OfferKeepsInbox(s: State, c: ClientId)
    requires Consistent(s) && Underway(s) && Offering(s)
    requires Indexed(Of(s.deliveries, c), s.processed) && InboxIsRecord(s, c, Of(s.deliveries, c))
    ensures var s1 := OfferNext(s); var record := Of(s1.deliveries, c);
            Indexed(record, s1.processed) && InboxIsRecord(s1, c, record)
  {
    hide Consistent, Of, SentMessages, Inbox, OfferNext, IsOpen, TrySendOutcome, EntriesOf;
    NextIsClient(s);
    OfferLeaves(s);
    OfferRecorded(s, c);
    var x := NewAnswer(s)[0];
    SentMessagesAppend(Of(s.deliveries, c), x, s.processed);
    if c in s.channels && c in s.received {
      OfferSeen(s, c);
      assert Inbox(s.received, s.channels, c) + [] == Inbox(s.received, s.channels, c);
    }
  }

  lemma OrderAppend(record: seq<Delivery>, x: Delivery, isOpen: bool)
    requires InOrder(record) && ClosedLast(isOpen, record)
    requires (forall k :: 0 <= k < |record| ==> record[k].index <= x.index) && (x.outcome.Closed? <==> !isOpen)
    ensures InOrder(record + [x]) && ClosedLast(isOpen, record + [x])
  {
  }

  lemma OfferKeepsOrder(s: State, c: ClientId)
    requires Consistent(s) && Underway(s) && Offering(s) && Served(s, c)
    ensures var s1 := OfferNext(s); var record := Of(s1.deliveries, c);
            InOrder(record) && ClosedLast(IsOpen(s1.channels, c), record)
  {
    NextIsClient(s);
    OfferLeaves(s);
    OfferRecorded(s, c);
    hide Consistent, Of, SentMessages, OfferNext, AnsweredPerEntry, FailedIsClosed, InboxIsRecord, NewAnswer, IsOpen, InOrder, ClosedLast;
    if NewAnswer(s)[0].client == c {
      OrderAppend(Of(s.deliveries, c), NewAnswer(s)[0], IsOpen(s.channels, c));
    }
  }

  /** The offer asks one more entry of the broadcast under way. */
  lemma OfferAsks(s: State, i: nat, c: ClientId)
    requires Consistent(s) && Underway(s) && Offering(s) && i < |s.audience|
    ensures Shares(Asked(OfferNext(s), i), c)
         == Shares(Asked(s, i), c) + if i == s.ongoing.value.index && NewAnswer(s)[0].client == c then 1 else 0
  {
    NextIsClient(s);
    hide Consistent, Shares, OutcomeAt, SendAt;
    var fan := s.ongoing.value;
    if i == fan.index {
      assert s.audience[i][..fan.next + 1] == s.audience[i][..fan.next] + [Listeners(s)[fan.next]];
      SharesAppend(s.audience[i][..fan.next], Listeners(s)[fan.next], c);
    }
  }

  lemma OfferKeepsAnswers(s: State, c: ClientId)
    requires Consistent(s) && Underway(s) && Offering(s) && AnsweredPerEntry(s, c, Of(s.deliveries, c))
    ensures AnsweredPerEntry(OfferNext(s), c, Of(OfferNext(s).deliveries, c))
  {
    hide Consistent, Of, OfferNext, CountAt, Shares, Asked, IsOpen, TrySendOutcome, EntriesOf;
    NextIsClient(s);
    OfferLeaves(s);
    OfferRecorded(s, c);
    var s1, x := OfferNext(s), NewAnswer(s)[0];
    forall i | 0 <= i < |s1.processed| && i < |s1.audience|
      ensures CountAt(Of(s1.deliveries, c), i) == Shares(Asked(s1, i), c)
    {
      CountAtAppend(Of(s.deliveries, c), x, i);
      OfferAsks(s, i, c);
    }
  }

  lemma OfferKeepsFailed(s: State, c: ClientId)
    requires Offering(s) && FailedIsClosed(s, c, Of(s.deliveries, c))
    ensures FailedIsClosed(OfferNext(s), c, Of(OfferNext(s).deliveries, c))
  {
    var s1, fan, x := OfferNext(s), s.ongoing.value, NewAnswer(s)[0];
    var record, more := Of(s.deliveries, c), Of(s1.deliveries, c);
    OfAppend(s.deliveries, x, c);
    hide Of, EntriesOf, SendAt, OutcomeAt;
    if ClosedAt(record, fan.index) {
      var k :| 0 <= k < |record| && record[k].index == fan.index && record[k].outcome.Closed?;
      assert more[k] == record[k];
    }
    if x.client == c && x.outcome.Closed? {
      assert more[|record|] == x;
    }
  }

  /** Taking a command off the channel asks no entry. */
  lemma TakeKeepsAnswers(s: State, c: ClientId, record: seq<Delivery>)
    requires Underway(s) && Taking(s) && Indexed(record, s.processed) && AnsweredPerEntry(s, c, record)
    ensures AnsweredPerEntry(TakeCommand(s), c, record)
  {
    TakeLeaves(s);
    TakeRecords(s);
    var s1 := TakeCommand(s);
    hide TakeCommand, CountAt, Shares, EntriesOf, Untouched;
    forall i | 0 <= i < |s1.processed| && i < |s1.audience|
      ensures CountAt(record, i) == Shares(Asked(s1, i), c)
    {
      if i == |s.processed| {
        CountAtPosition(record, i);
        NobodyShares(c);
        assert Asked(s1, i) == [];
      } else {
        assert Asked(s1, i) == Asked(s, i);
      }
    }
  }

  lemma TakeKeepsServed(s: State, c: ClientId)
    requires Consistent(s) && Underway(s) && Taking(s) && Served(s, c)
    ensures Served(TakeCommand(s), c)
  {
    TakeLeaves(s);
    TakeRecords(s);
    KeysAgree(s);
    var s1, record := TakeCommand(s), Of(s.deliveries, c);
    TakeKeepsAnswers(s, c, record);
    hide Consistent, Of, SentMessages, RoomMessages, TakeCommand, EntriesOf, AnsweredPerEntry, InOrder, ClosedLast;
    if s1.ongoing.Some? {
      SentMessagesStay(record, s.processed, s1.processed[|s.processed|]);
    }
  }

  lemma NobodyShares(c: ClientId)
    ensures Shares([], c) == 0
  {
  }

  lemma FinishKeepsServed(s: State, c: ClientId)
    requires Consistent(s) && Underway(s) && Finishing(s) && Served(s, c)
    ensures Served(FinishBroadcast(s), c)
  {
    FinishLeaves(s);
    KeysAgree(s);
    var s1, fan := FinishBroadcast(s), s.ongoing.value;
    assert s.audience[fan.index][..fan.next] == s.audience[fan.index];
    hide Consistent, Of, SentMessages, RoomMessages, EntriesOf, CountAt, Shares, AfterDrop;
    assert forall i :: 0 <= i < |s.audience| ==> Asked(s1, i) == Asked(s, i);
  }

  lemma CoordinateKeepsServed(s: State, c: ClientId)
    requires Consistent(s) && Underway(s) && Served(s, c)
    ensures Served(Coordinated(s), c)
  {
    if Offering(s) {
      OfferKeepsInbox(s, c);
      OfferKeepsOrder(s, c);
      OfferKeepsAnswers(s, c);
      OfferKeepsFailed(s, c);
      hide Consistent, Underway, OfferNext, InOrder, InboxIsRecord, ClosedLast, AnsweredPerEntry, FailedIsClosed;
    } else if Finishing(s) {
      FinishKeepsServed(s, c);
    } else if Taking(s) {
      TakeKeepsServed(s, c);
    }
  }

  /**
   Every client, in every state of every run: what it was sent from rooms are the messages of its record, in the
   order of the broadcasts; each broadcast has as many answers as the client had entries; and a closed answer is
   given by a closed channel only, and is followed by no other kind.
   */
  lemma {:induction false} EveryClientIsServed(steps: seq<Step>, c: ClientId)
    ensures Served(Run(steps), c)
  {
    hide Apply, Consistent, Membership, Departures, Conserved, Underway, Outer, Served;
    if steps == [] {
      InitiallyServed(c);
    } else {
      var k := |steps| - 1;
      var s := Run(steps[..k]);
      EveryClientIsServed(steps[..k], c);
      EveryRunIsGood(steps[..k]);
      if steps[k].Coordinate? {
        CoordinateKeepsServed(s, c);
        assert Apply(s, steps[k]) == Coordinated(s) by { CoordinateStep(s); }
      } else {
        StepIsOuter(s, steps[k]);
        OuterKeepsServed(s, Apply(s, steps[k]), ActOf(s, steps[k]), c);
      }
    }
  }

  lemma InitiallyServed(c: ClientId)
    ensures Served(Initial, c)
  {
  }
}
