/**
 Sessions, command queue, coordinator and client channels together, as an interleaved transition
 system: src/rooms.rs with the receive, send and disconnect paths of src/websocket.rs. A step of a session is
 what its task does between two awaits; the coordinator turns to one entry of a broadcast at a time, and anything
 may happen in between. Every choice the scheduler or the outside makes is in the step's label, and a step that
 is not possible in a state leaves it as it is, so every list of steps is a run.
 */
module RoomsProtocol {
  import opened Basics
  import opened Channels
  import opened Rooms

  /** Where a session's receive task stands; `Gone` is past the leave that ends `handle_socket`. */
  datatype Phase =
    | Ready
    | Awaiting(room: DocumentId, ticket: nat)
    | Ended
    | Gone

  datatype Session = Session(phase: Phase, room: Option<DocumentId>)

  datatype Post = Post(room: DocumentId, message: ServerMessage)

  /** A broadcast command that was offered to the command channel. */
  datatype Offer = Offer(post: Post, accepted: bool)

  /** The answer of a client's channel to the broadcast processed at position `index`. */
  datatype Delivery = Delivery(index: nat, client: ClientId, outcome: SendOutcome)

  /** A broadcast the coordinator is in the middle of: the entry it turns to next, and who failed so far. */
  datatype Fan = Fan(index: nat, room: DocumentId, message: ServerMessage, next: nat, failed: set<ClientId>)

  datatype Seat = Seat(room: DocumentId, client: ClientId)

  datatype State = State(
    rooms: RoomTable,
    channels: ChannelTable,
    acks: set<nat>,
    fanoutDrops: U64,
    commands: Channel<RoomCommand>,
    sessions: map<ClientId, Session>,
    nextTicket: nat,
    actorDrops: U64,
    ongoing: Option<Fan>,
    // What has happened so far; no step looks at these: the messages each client has received, the broadcast and
    // join commands of all senders, the broadcasts taken up with the entries of their room, the answers, the
    // number of broadcasts before the latest join of a seat, and the seats given up by a leave.
    received: map<ClientId, seq<ServerMessage>>,
    offers: seq<Offer>,
    joins: seq<Seat>,
    processed: seq<Post>,
    audience: seq<seq<Entry>>,
    deliveries: seq<Delivery>,
    since: map<Seat, nat>,
    left: set<Seat>)

  datatype Frame =
    | JoinFrame(room: DocumentId)
    | TextFrame(body: Body, timestamp: U64)
    | TextToFrame(room: DocumentId, body: Body, timestamp: U64)
    | BadFrame

  datatype Step =
    | Connect(client: ClientId)
    | Receive(client: ClientId, frame: Frame)
    | AckJoin(client: ClientId)
    | TimeOutJoin(client: ClientId)
    | EndReceive(client: ClientId)
    | SendLeave(client: ClientId)
    | Relay(client: ClientId)
    | CloseChannel(client: ClientId)
    | Invalidate(room: DocumentId, hints: seq<Str>, timestamp: U64)
    | Coordinate

  const Initial: State := State(
    map[], map[], {}, 0, Channel([], true, ROOMS_COORDINATOR_CHANNEL_CAPACITY), map[], 0, 0, None,
    map[], [], [], [], [], [], map[], {})

  // ---------- steps ----------

  predicate InPhase(s: State, c: ClientId, phase: Phase) {
    c in s.sessions && s.sessions[c].phase == phase
  }

  predicate IsAwaiting(s: State, c: ClientId) {
    c in s.sessions && s.sessions[c].phase.Awaiting?
  }

  /** `let _ = session.tx.try_send(m)`. */
  function Tell(s: State, c: ClientId, m: ServerMessage): State {
    s.(channels := SendAt(s.channels, c, m))
  }

  function WithPhase(s: State, c: ClientId, phase: Phase): State
    requires c in s.sessions
  {
    s.(sessions := s.sessions[c := s.sessions[c].(phase := phase)])
  }

  predicate Takes(s: State) {
    TrySendOutcome(s.commands).Sent?
  }

  function Submit(s: State, command: RoomCommand): State {
    s.(commands := TrySend(s.commands, command))
  }

  /** A command of a session that finds the channel full is counted; a closed channel is not. */
  function CountDrop(s: State): State {
    if TrySendOutcome(s.commands).Full? then s.(actorDrops := Bump(s.actorDrops)) else s
  }

  function OfferPost(s: State, post: Post): State {
    Submit(s, Broadcast(post.room, post.message)).(offers := s.offers + [Offer(post, Takes(s))])
  }

  function HandleJoinFrame(s: State, c: ClientId, room: DocumentId): State
    requires c in s.sessions
  {
    if Takes(s) then
      Submit(s, Join(room, c, c, s.nextTicket)).(
        sessions := s.sessions[c := s.sessions[c].(phase := Awaiting(room, s.nextTicket))],
        nextTicket := s.nextTicket + 1,
        joins := s.joins + [Seat(room, c)])
    else Tell(CountDrop(s), c, Error(SendFailed))
  }

  function HandleText(s: State, c: ClientId, post: Post): State {
    if Takes(s) then OfferPost(s, post) else Tell(CountDrop(OfferPost(s, post)), c, Error(SendFailed))
  }

  function HandleFrame(s: State, c: ClientId, frame: Frame): State
    requires c in s.sessions
  {
    match frame
    case JoinFrame(room) => HandleJoinFrame(s, c, room)
    case TextFrame(body, timestamp) =>
      if s.sessions[c].room.Some? then HandleText(s, c, Post(s.sessions[c].room.value, Message(c, body, timestamp)))
      else Tell(s, c, Error(NotInRoom))
    case TextToFrame(room, body, timestamp) => HandleText(s, c, Post(room, Message(c, body, timestamp)))
    case BadFrame => Tell(s, c, Error(InvalidMessage))
  }

  function AcceptAck(s: State, c: ClientId): State
    requires IsAwaiting(s, c)
  {
    var room := s.sessions[c].phase.room;
    Tell(s.(sessions := s.sessions[c := s.sessions[c].(phase := Ready, room := Some(room))]), c, Joined(c, room))
  }

  function HandleExit(s: State, c: ClientId): State
    requires c in s.sessions
  {
    var gone := WithPhase(s, c, Gone);
    if s.sessions[c].room.None? then gone
    else if Takes(s) then Submit(gone, Leave(s.sessions[c].room.value, c))
    else CountDrop(gone)
  }

  function Connected(s: State, c: ClientId): State {
    s.(sessions := s.sessions[c := Session(Ready, None)],
       channels := s.channels[c := Channel([], true, CLIENT_CHANNEL_CAPACITY)],
       received := s.received[c := []])
  }

  /** The send task takes the oldest message off the channel and writes it to the socket. */
  function Relayed(s: State, c: ClientId): State
    requires c in s.channels && s.channels[c].queue != []
  {
    var queue := s.channels[c].queue;
    s.(channels := s.channels[c := s.channels[c].(queue := queue[1..])],
       received := s.received[c := (if c in s.received then s.received[c] else []) + [queue[0]]])
  }

  /** The coordinator takes a command off its channel. A broadcast is taken up, and its entries come one by one. */
  function TakeCommand(s: State): State
    requires s.commands.queue != []
  {
    var s1 := s.(commands := s.commands.(queue := s.commands.queue[1..]));
    match s.commands.queue[0]
    case Join(room, client, tx, respondTo) =>
      s1.(rooms := AfterJoin(s.rooms, room, client, tx), acks := s.acks + {respondTo},
          since := s.since[Seat(room, client) := |s.processed|])
    case Leave(room, client) =>
      s1.(rooms := AfterLeave(s.rooms, room, client), left := s.left + {Seat(room, client)})
    case Broadcast(room, m) =>
      s1.(ongoing := Some(Fan(|s.processed|, room, m, 0, {})),
          processed := s.processed + [Post(room, m)],
          audience := s.audience + [EntriesOf(s.rooms, room)])
  }

  /** The entries of the room that is being broadcast to. */
  function Listeners(s: State): seq<Entry>
    requires s.ongoing.Some?
  {
    EntriesOf(s.rooms, s.ongoing.value.room)
  }

  predicate Offering(s: State) {
    s.ongoing.Some? && s.ongoing.value.next < |Listeners(s)|
  }

  predicate Finishing(s: State) {
    s.ongoing.Some? && s.ongoing.value.next >= |Listeners(s)|
  }

  predicate Taking(s: State) {
    s.ongoing.None? && s.commands.queue != []
  }

  /** The coordinator offers the message to the next entry. */
  function OfferNext(s: State): State
    requires Offering(s)
  {
    var fan, e := s.ongoing.value, Listeners(s)[s.ongoing.value.next];
    var outcome := OutcomeAt(s.channels, e.tx);
    s.(channels := SendAt(s.channels, e.tx, fan.message),
       fanoutDrops := if outcome.Full? then Bump(s.fanoutDrops) else s.fanoutDrops,
       ongoing := Some(fan.(next := fan.next + 1, failed := fan.failed + if outcome.Closed? then {e.client} else {})),
       deliveries := s.deliveries + [Delivery(fan.index, e.client, outcome)])
  }

  /** After the last entry, the clients that failed are dropped. */
  function FinishBroadcast(s: State): State
    requires s.ongoing.Some?
  {
    s.(ongoing := None, rooms := AfterDrop(s.rooms, s.ongoing.value.room, s.ongoing.value.failed))
  }

  function Coordinated(s: State): State {
    if Offering(s) then OfferNext(s)
    else if Finishing(s) then FinishBroadcast(s)
    else if Taking(s) then TakeCommand(s)
    else s
  }

  function Apply(s: State, step: Step): State {
    match step
    case Connect(c) => if c in s.sessions then s else Connected(s, c)
    case Receive(c, frame) => if InPhase(s, c, Ready) then HandleFrame(s, c, frame) else s
    case AckJoin(c) => if IsAwaiting(s, c) && s.sessions[c].phase.ticket in s.acks then AcceptAck(s, c) else s
    case TimeOutJoin(c) => if IsAwaiting(s, c) then Tell(WithPhase(s, c, Ready), c, Error(SendFailed)) else s
    case EndReceive(c) =>
      if InPhase(s, c, Ready) || (IsAwaiting(s, c) && !IsOpen(s.channels, c)) then WithPhase(s, c, Ended) else s
    case SendLeave(c) => if InPhase(s, c, Ended) then HandleExit(s, c) else s
    case Relay(c) => if IsOpen(s.channels, c) && s.channels[c].queue != [] then Relayed(s, c) else s
    case CloseChannel(c) =>
      if c in s.channels then s.(channels := s.channels[c := s.channels[c].(open := false)]) else s
    case Invalidate(room, hints, timestamp) => OfferPost(s, Post(room, Invalidation(hints, timestamp)))
    case Coordinate => Coordinated(s)
  }

  /** The state a run leads to. */
  function Run(steps: seq<Step>): State {
    if steps == [] then Initial else Apply(Run(steps[..|steps| - 1]), steps[|steps| - 1])
  }

  lemma RunMore(steps: seq<Step>, step: Step)
    ensures Run(steps + [step]) == Apply(Run(steps), step)
  {
    hide Apply;
    assert (steps + [step])[..|steps|] == steps;
  }

  lemma CoordinateStep(s: State)
    ensures Apply(s, Coordinate) == Coordinated(s)
  {
    hide Coordinated;
  }

  // ---------- the coordinator object carries out the coordinator's steps ----------

  /** The object holds what the state says of the coordinator. */
  ghost predicate Embodies(coordinator: RoomsCoordinator, s: State)
    reads coordinator
  {
    && coordinator.rooms == s.rooms && coordinator.channels == s.channels
    && coordinator.acks == s.acks && coordinator.fanoutDrops == s.fanoutDrops
  }

  /** One step of `while let Some(cmd) = rx.recv().await`, on the object. */
  method CoordinateWith(coordinator: RoomsCoordinator, s: State)
    requires Embodies(coordinator, s)
    modifies coordinator
    ensures Embodies(coordinator, Coordinated(s))
  {
    hide AfterJoin, AfterLeave, AfterDrop, OutcomeAt, SendAt, EntriesOf;
    if s.ongoing.Some? {
      var fan, entries := s.ongoing.value, Listeners(s);
      if fan.next < |entries| {
        var outcome := coordinator.OfferTo(entries[fan.next], fan.message);
      } else {
        coordinator.DropFailed(fan.room, fan.failed);
      }
    } else if s.commands.queue != [] {
      match s.commands.queue[0]
      case Join(room, client, tx, respondTo) => coordinator.HandleJoin(room, client, tx, respondTo);
      case Leave(room, client) => coordinator.HandleLeave(room, client);
      case Broadcast(_, _) =>
    }
  }

  /** The coordinator's next `n` steps, with no other step between them. */
  function Turns(s: State, n: nat): State {
    if n == 0 then s else Coordinated(Turns(s, n - 1))
  }

  /** In `t`, the first `n` entries of the broadcast that `s` takes up have been served as by the loop on the object. */
  ghost predicate ServedFront(s: State, t: State, room: DocumentId, m: ServerMessage, n: nat)
    requires n <= |EntriesOf(s.rooms, room)|
  {
    var front := EntriesOf(s.rooms, room)[..n];
    var outcomes := Outcomes(front, s.channels, m);
    && t.rooms == s.rooms && t.acks == s.acks && t.channels == Fanout(front, s.channels, m)
    && t.ongoing == Some(Fan(|s.processed|, room, m, n, Failed(front, outcomes)))
    && t.fanoutDrops == (s.fanoutDrops + CountOutcome(outcomes, Full)) % TWO_TO_64
  }

  lemma OfferServesOneMore(s: State, t: State, room: DocumentId, m: ServerMessage, n: nat)
    requires n < |EntriesOf(s.rooms, room)| && ServedFront(s, t, room, m, n)
    ensures ServedFront(s, Coordinated(t), room, m, n + 1)
  {
    hide Fanout, Outcomes, CountOutcome, Failed, SendAt, OutcomeAt;
    FanoutOneMore(EntriesOf(s.rooms, room), n, s.channels, m);
    var t1 := OfferNext(t);
    assert Coordinated(t) == t1;
  }

  lemma {:induction false} UninterruptedOffers(s: State, room: DocumentId, m: ServerMessage, n: nat)
    requires Taking(s) && s.commands.queue[0] == Broadcast(room, m) && n <= |EntriesOf(s.rooms, room)|
    ensures ServedFront(s, Turns(s, n + 1), room, m, n)
  {
    hide Coordinated;
    if n == 0 {
      TakenUp(s, room, m);
      assert Turns(s, 1) == Coordinated(Turns(s, 0));
    } else {
      UninterruptedOffers(s, room, m, n - 1);
      hide ServedFront;
      OfferServesOneMore(s, Turns(s, n), room, m, n - 1);
    }
  }

  lemma TakenUp(s: State, room: DocumentId, m: ServerMessage)
    requires Taking(s) && s.commands.queue[0] == Broadcast(room, m)
    ensures ServedFront(s, Coordinated(s), room, m, 0)
  {
    FanoutToNobody(s.channels, m);
  }

  lemma FinishAgrees(s: State, t: State, room: DocumentId, m: ServerMessage)
    requires ServedFront(s, t, room, m, |EntriesOf(s.rooms, room)|)
    ensures Coordinated(t).rooms == AfterBroadcast(s.rooms, s.channels, room, m)
    ensures Coordinated(t).ongoing.None? && Coordinated(t).acks == s.acks
    ensures Coordinated(t).channels == Fanout(EntriesOf(s.rooms, room), s.channels, m)
    ensures Coordinated(t).fanoutDrops
         == (s.fanoutDrops + CountOutcome(Outcomes(EntriesOf(s.rooms, room), s.channels, m), Full)) % TWO_TO_64
  {
    hide Fanout, Outcomes, CountOutcome, Failed, WithEntries;
    var entries := EntriesOf(s.rooms, room);
    assert entries[..|entries|] == entries;
    FanoutToNobody(s.channels, m);
  }

  lemma UninterruptedBroadcast(s: State)
    requires Taking(s) && s.commands.queue[0].Broadcast?
    ensures var command := s.commands.queue[0];
            var t := Turns(s, |EntriesOf(s.rooms, command.room)| + 2);
            && t.rooms == RoomsAfter(s.rooms, s.channels, command)
            && t.channels == ChannelsAfter(s.rooms, s.channels, command)
            && t.fanoutDrops == DropsAfter(s.rooms, s.channels, s.fanoutDrops, command)
            && t.ongoing.None? && t.acks == s.acks
  {
    hide Fanout, Outcomes, CountOutcome, Failed, AfterBroadcast, Coordinated, ServedFront;
    var room, m := s.commands.queue[0].room, s.commands.queue[0].message;
    var n := |EntriesOf(s.rooms, room)|;
    UninterruptedOffers(s, room, m, n);
    FinishAgrees(s, Turns(s, n + 1), room, m);
  }

  /** The coordinator's steps for its next command: one, or for a broadcast one for each entry and two more. */
  function TurnsNeeded(s: State): nat
    requires s.commands.queue != []
  {
    var command := s.commands.queue[0];
    if command.Broadcast? then |EntriesOf(s.rooms, command.room)| + 2 else 1
  }

  /** A command that nothing interrupts does what the object does in one call. */
  lemma UninterruptedCommand(s: State)
    requires Taking(s)
    ensures var command, t := s.commands.queue[0], Turns(s, TurnsNeeded(s));
            && t.rooms == RoomsAfter(s.rooms, s.channels, command)
            && t.channels == ChannelsAfter(s.rooms, s.channels, command)
            && t.fanoutDrops == DropsAfter(s.rooms, s.channels, s.fanoutDrops, command)
            && t.acks == AcksAfter(s.acks, command)
            && t.ongoing.None?
  {
    if s.commands.queue[0].Broadcast? {
      hide Turns, RoomsAfter, ChannelsAfter, DropsAfter;
      UninterruptedBroadcast(s);
    } else {
      hide AfterJoin, AfterLeave;
      OneTurn(s);
    }
  }

  lemma OneTurn(s: State)
    ensures Turns(s, 1) == Coordinated(s)
  {
    hide Coordinated;
    assert Turns(s, 0) == s;
  }

  // ---------- structure ----------

  ghost predicate EntriesNameTheirClient(entries: seq<Entry>, sessions: map<ClientId, Session>) {
    forall i :: 0 <= i < |entries| ==> entries[i].tx == entries[i].client && entries[i].client in sessions
  }

  ghost predicate CommandFits(s: State, command: RoomCommand) {
    match command
    case Join(_, client, tx, ticket) => tx == client && client in s.sessions && ticket < s.nextTicket
    case Leave(_, client) => InPhase(s, client, Gone)
    case Broadcast(_, m) => m.Message? || m.Invalidation?
  }

  /** A client has one channel and one session; entries and joins name them; queues keep their bounds. */
  ghost predicate Consistent(s: State) {
    && s.sessions.Keys == s.channels.Keys == s.received.Keys
    && (forall d :: d in s.rooms ==> s.rooms[d] != [] && EntriesNameTheirClient(s.rooms[d], s.sessions))
    && (forall i :: 0 <= i < |s.commands.queue| ==> CommandFits(s, s.commands.queue[i]))
    && (forall t :: t in s.acks ==> t < s.nextTicket)
    && s.commands.open && s.commands.capacity == ROOMS_COORDINATOR_CHANNEL_CAPACITY
    && |s.commands.queue| <= ROOMS_COORDINATOR_CHANNEL_CAPACITY
    && (forall c :: c in s.channels ==>
          s.channels[c].capacity == CLIENT_CHANNEL_CAPACITY && |s.channels[c].queue| <= CLIENT_CHANNEL_CAPACITY)
  }

  // ---------- membership ----------

  /** The number of the client's entries in a room. */
  function EntryCount(s: State, room: DocumentId, c: ClientId): nat {
    Shares(EntriesOf(s.rooms, room), c)
  }

  predicate Live(session: Session) {
    session.phase.Ready? || session.phase.Awaiting?
  }

  ghost predicate MemberOfItsRoom(s: State, c: ClientId)
    requires c in s.sessions
  {
    && (Live(s.sessions[c]) && IsOpen(s.channels, c) && s.sessions[c].room.Some? ==> EntryCount(s, s.sessions[c].room.value, c) > 0)
    && (IsAwaiting(s, c) && IsOpen(s.channels, c) && s.sessions[c].phase.ticket in s.acks
        ==> EntryCount(s, s.sessions[c].phase.room, c) > 0)
  }

  /** A ticket in the queue that a session waits for is the ticket of that session's own join. */
  ghost predicate TicketsMatch(s: State, c: ClientId)
    requires c in s.sessions
  {
    IsAwaiting(s, c) ==>
      && s.sessions[c].phase.ticket < s.nextTicket
      && forall i :: 0 <= i < |s.commands.queue| && s.commands.queue[i].Join? && s.commands.queue[i].respondTo == s.sessions[c].phase.ticket
           ==> s.commands.queue[i].client == c && s.commands.queue[i].room == s.sessions[c].phase.room
  }

  ghost predicate Membership(s: State) {
    forall c :: c in s.sessions ==> MemberOfItsRoom(s, c) && TicketsMatch(s, c)
  }

  lemma {:induction false} SharesAppend(front: seq<Entry>, e: Entry, c: ClientId)
    ensures Shares(front + [e], c) == Shares(front, c) + if e.tx == c then 1 else 0
  {
  }

  lemma {:induction false} SharesRetained(entries: seq<Entry>, gone: set<ClientId>, c: ClientId)
    requires forall i :: 0 <= i < |entries| ==> entries[i].tx == entries[i].client
    ensures Shares(Retain(entries, gone), c) == if c in gone then 0 else Shares(entries, c)
  {
    if entries != [] {
      var k := |entries| - 1;
      SharesRetained(entries[..k], gone, c);
      SharesAppend(Retain(entries[..k], gone), entries[k], c);
      assert Retain(entries[..k], gone) + [] == Retain(entries[..k], gone);
    }
  }

  lemma {:induction false} SharedByPosition(entries: seq<Entry>, c: ClientId)
    ensures Shares(entries, c) > 0 <==> exists i :: 0 <= i < |entries| && entries[i].tx == c
  {
    if entries != [] {
      var k := |entries| - 1;
      SharedByPosition(entries[..k], c);
      assert entries == entries[..k] + [entries[k]];
    }
  }

  lemma {:induction false} CountAfterJoin(rooms: RoomTable, room: DocumentId, client: ClientId, d: DocumentId, c: ClientId)
    ensures Shares(EntriesOf(AfterJoin(rooms, room, client, client), d), c)
         == Shares(EntriesOf(rooms, d), c) + if d == room && c == client then 1 else 0
  {
  }

  lemma {:induction false} CountAfterLeave(rooms: RoomTable, room: DocumentId, client: ClientId, d: DocumentId, c: ClientId)
    requires room in rooms ==> forall i :: 0 <= i < |rooms[room]| ==> rooms[room][i].tx == rooms[room][i].client
    ensures Shares(EntriesOf(AfterLeave(rooms, room, client), d), c)
         == if d == room && c == client then 0 else Shares(EntriesOf(rooms, d), c)
  {
    if room in rooms {
      SharesRetained(rooms[room], {client}, c);
    }
  }

  /** The end of a broadcast takes away the entries of the clients that failed, and no others. */
  lemma CountAfterDrop(rooms: RoomTable, room: DocumentId, failed: set<ClientId>, d: DocumentId, c: ClientId)
    requires room in rooms ==> forall i :: 0 <= i < |rooms[room]| ==> rooms[room][i].tx == rooms[room][i].client
    ensures Shares(EntriesOf(AfterDrop(rooms, room, failed), d), c)
         == if d == room && c in failed then 0 else Shares(EntriesOf(rooms, d), c)
  {
    hide Retain;
    if room in rooms {
      SharesRetained(rooms[room], failed, c);
    }
  }

  // ---------- the structure is kept ----------

  lemma RetainKeepsNames(entries: seq<Entry>, gone: set<ClientId>, sessions: map<ClientId, Session>)
    requires EntriesNameTheirClient(entries, sessions)
    ensures EntriesNameTheirClient(Retain(entries, gone), sessions)
  {
  }

  ghost predicate TableFits(rooms: RoomTable, sessions: map<ClientId, Session>) {
    forall d :: d in rooms ==> rooms[d] != [] && EntriesNameTheirClient(rooms[d], sessions)
  }

  lemma DropKeepsTable(rooms: RoomTable, sessions: map<ClientId, Session>, room: DocumentId, gone: set<ClientId>)
    requires TableFits(rooms, sessions)
    ensures TableFits(AfterDrop(rooms, room, gone), sessions)
  {
    hide Retain, EntriesNameTheirClient;
    if room in rooms {
      RetainKeepsNames(rooms[room], gone, sessions);
    }
  }

  lemma LeaveKeepsTable(rooms: RoomTable, sessions: map<ClientId, Session>, room: DocumentId, client: ClientId)
    requires TableFits(rooms, sessions)
    ensures TableFits(AfterLeave(rooms, room, client), sessions)
  {
    DropKeepsTable(rooms, sessions, room, {client});
  }

  lemma JoinKeepsNames(entries: seq<Entry>, e: Entry, sessions: map<ClientId, Session>)
    requires entries == [] || EntriesNameTheirClient(entries, sessions)
    requires e.tx == e.client && e.client in sessions
    ensures EntriesNameTheirClient(entries + [e], sessions)
  {
  }

  lemma TakeKeepsConsistent(s: State)
    requires Consistent(s) && s.commands.queue != []
    ensures Consistent(TakeCommand(s))
  {
    hide EntriesNameTheirClient, AfterLeave;
    var s1, command := TakeCommand(s), s.commands.queue[0];
    assert CommandFits(s, command);
    match command
    case Join(room, client, tx, _) => JoinKeepsNames(EntriesOf(s.rooms, room), Entry(client, tx), s.sessions);
    case Leave(room, client) => LeaveKeepsTable(s.rooms, s.sessions, room, client);
    case Broadcast(_, _) =>
    forall i | 0 <= i < |s1.commands.queue| ensures CommandFits(s1, s1.commands.queue[i]) {
      assert CommandFits(s, s.commands.queue[i + 1]);
    }
  }

  lemma CoordinateKeepsConsistent(s: State)
    requires Consistent(s)
    ensures Consistent(Coordinated(s))
  {
    hide Listeners, AfterDrop, TakeCommand;
    var s1 := Coordinated(s);
    if Offering(s) {
      TellKeepsConsistent(s, Listeners(s)[s.ongoing.value.next].tx, s.ongoing.value.message);
      GrowthKeepsConsistent(Tell(s, Listeners(s)[s.ongoing.value.next].tx, s.ongoing.value.message), s1);
    } else if Finishing(s) {
      DropKeepsTable(s.rooms, s.sessions, s.ongoing.value.room, s.ongoing.value.failed);
      forall i | 0 <= i < |s1.commands.queue| ensures CommandFits(s1, s1.commands.queue[i]) {
        assert CommandFits(s, s.commands.queue[i]);
      }
    } else if Taking(s) {
      TakeKeepsConsistent(s);
    }
  }

  /** Sessions come and never go, the gone stay gone, and tickets only grow. */
  ghost predicate SessionsGrow(s: State, s1: State) {
    && s1.nextTicket >= s.nextTicket
    && forall c :: c in s.sessions ==> c in s1.sessions && (s.sessions[c].phase.Gone? ==> s1.sessions[c].phase.Gone?)
  }

  lemma TellKeepsConsistent(s: State, c: ClientId, m: ServerMessage)
    requires Consistent(s)
    ensures Consistent(Tell(s, c, m))
  {
    hide EntriesNameTheirClient;
    var s1 := Tell(s, c, m);
    forall i | 0 <= i < |s1.commands.queue| ensures CommandFits(s1, s1.commands.queue[i]) {
      assert CommandFits(s, s.commands.queue[i]);
    }
  }

  lemma SubmitKeepsConsistent(s: State, command: RoomCommand)
    requires Consistent(s) && CommandFits(s, command)
    ensures Consistent(Submit(s, command))
  {
  }

  /** A change of sessions and of fields the structure does not depend on. */
  lemma GrowthKeepsConsistent(s: State, s1: State)
    requires Consistent(s) && SessionsGrow(s, s1)
    requires s1.sessions.Keys == s.sessions.Keys
    requires s1.rooms == s.rooms && s1.channels == s.channels && s1.received.Keys == s.received.Keys
    requires s1.acks == s.acks && s1.commands == s.commands
    ensures Consistent(s1)
  {
    forall i | 0 <= i < |s1.commands.queue| ensures CommandFits(s1, s1.commands.queue[i]) {
      assert CommandFits(s, s.commands.queue[i]);
    }
  }

  lemma OfferKeepsConsistent(s: State, post: Post)
    requires Consistent(s) && (post.message.Message? || post.message.Invalidation?)
    ensures Consistent(OfferPost(s, post))
  {
  }

  lemma TextKeepsConsistent(s: State, c: ClientId, post: Post)
    requires Consistent(s) && (post.message.Message? || post.message.Invalidation?)
    ensures Consistent(HandleText(s, c, post))
  {
    hide Consistent, OfferPost;
    OfferKeepsConsistent(s, post);
    if !Takes(s) {
      GrowthKeepsConsistent(OfferPost(s, post), CountDrop(OfferPost(s, post)));
      TellKeepsConsistent(CountDrop(OfferPost(s, post)), c, Error(SendFailed));
    }
  }

  lemma JoinFrameKeepsConsistent(s: State, c: ClientId, room: DocumentId)
    requires Consistent(s) && InPhase(s, c, Ready)
    ensures Consistent(HandleJoinFrame(s, c, room))
  {
    hide EntriesNameTheirClient;
    var s1 := HandleJoinFrame(s, c, room);
    if Takes(s) {
      var waiting := s.(sessions := s1.sessions, nextTicket := s1.nextTicket, joins := s1.joins);
      GrowthKeepsConsistent(s, waiting);
      SubmitKeepsConsistent(waiting, Join(room, c, c, s.nextTicket));
      assert s1 == Submit(waiting, Join(room, c, c, s.nextTicket));
    } else {
      GrowthKeepsConsistent(s, CountDrop(s));
      TellKeepsConsistent(CountDrop(s), c, Error(SendFailed));
    }
  }

  lemma FrameKeepsConsistent(s: State, c: ClientId, frame: Frame)
    requires Consistent(s) && InPhase(s, c, Ready)
    ensures Consistent(HandleFrame(s, c, frame))
  {
    hide Consistent, HandleText, HandleJoinFrame;
    match frame
    case JoinFrame(room) => JoinFrameKeepsConsistent(s, c, room);
    case TextFrame(body, timestamp) =>
      if s.sessions[c].room.Some? {
        TextKeepsConsistent(s, c, Post(s.sessions[c].room.value, Message(c, body, timestamp)));
      } else {
        TellKeepsConsistent(s, c, Error(NotInRoom));
      }
    case TextToFrame(room, body, timestamp) =>
      TextKeepsConsistent(s, c, Post(room, Message(c, body, timestamp)));
    case BadFrame =>
      TellKeepsConsistent(s, c, Error(InvalidMessage));
  }

  lemma PhaseKeepsConsistent(s: State, c: ClientId, phase: Phase)
    requires Consistent(s) && c in s.sessions && (s.sessions[c].phase.Gone? ==> phase.Gone?)
    ensures Consistent(WithPhase(s, c, phase))
  {
    GrowthKeepsConsistent(s, WithPhase(s, c, phase));
  }

  lemma AckKeepsConsistent(s: State, c: ClientId)
    requires Consistent(s) && IsAwaiting(s, c)
    ensures Consistent(AcceptAck(s, c))
  {
    var room := s.sessions[c].phase.room;
    var ready := s.(sessions := s.sessions[c := s.sessions[c].(phase := Ready, room := Some(room))]);
    GrowthKeepsConsistent(s, ready);
    TellKeepsConsistent(ready, c, Joined(c, room));
  }

  lemma ExitKeepsConsistent(s: State, c: ClientId)
    requires Consistent(s) && InPhase(s, c, Ended)
    ensures Consistent(HandleExit(s, c))
  {
    hide Consistent;
    var gone := WithPhase(s, c, Gone);
    PhaseKeepsConsistent(s, c, Gone);
    if s.sessions[c].room.Some? {
      SubmitKeepsConsistent(gone, Leave(s.sessions[c].room.value, c));
      GrowthKeepsConsistent(gone, CountDrop(gone));
    }
  }

  lemma ConnectKeepsConsistent(s: State, c: ClientId)
    requires Consistent(s) && c !in s.sessions
    ensures Consistent(Connected(s, c))
  {
    var s1 := Connected(s, c);
    forall i | 0 <= i < |s1.commands.queue| ensures CommandFits(s1, s1.commands.queue[i]) {
      assert CommandFits(s, s.commands.queue[i]);
    }
  }

  /** Relaying and closing change one channel, within its bounds. */
  lemma ChannelKeepsConsistent(s: State, s1: State, c: ClientId, ch: Channel<ServerMessage>)
    requires Consistent(s) && c in s.channels
    requires ch.capacity == CLIENT_CHANNEL_CAPACITY && |ch.queue| <= CLIENT_CHANNEL_CAPACITY
    requires s1 == s.(channels := s.channels[c := ch], received := s1.received) && s1.received.Keys == s.received.Keys
    ensures Consistent(s1)
  {
    hide EntriesNameTheirClient;
    forall i | 0 <= i < |s1.commands.queue| ensures CommandFits(s1, s1.commands.queue[i]) {
      assert CommandFits(s, s.commands.queue[i]);
    }
  }

  lemma RelayKeepsConsistent(s: State, c: ClientId)
    requires Consistent(s) && c in s.channels && s.channels[c].queue != []
    ensures Consistent(Relayed(s, c))
  {
    ChannelKeepsConsistent(s, Relayed(s, c), c, Relayed(s, c).channels[c]);
  }

  lemma StepKeepsConsistent(s: State, step: Step)
    requires Consistent(s)
    ensures Consistent(Apply(s, step))
  {
    hide HandleFrame, HandleExit, Coordinated, AcceptAck, Connected, Relayed, OfferPost, Tell;
    match step
    case Connect(c) =>
      if c !in s.sessions {
        ConnectKeepsConsistent(s, c);
      }
    case Receive(c, frame) =>
      if InPhase(s, c, Ready) {
        FrameKeepsConsistent(s, c, frame);
      }
    case AckJoin(c) =>
      if IsAwaiting(s, c) {
        AckKeepsConsistent(s, c);
      }
    case TimeOutJoin(c) =>
      if IsAwaiting(s, c) {
        PhaseKeepsConsistent(s, c, Ready);
        TellKeepsConsistent(WithPhase(s, c, Ready), c, Error(SendFailed));
      }
    case EndReceive(c) =>
      if InPhase(s, c, Ready) || IsAwaiting(s, c) {
        PhaseKeepsConsistent(s, c, Ended);
      }
    case SendLeave(c) =>
      if InPhase(s, c, Ended) {
        ExitKeepsConsistent(s, c);
      }
    case Relay(c) =>
      if IsOpen(s.channels, c) && s.channels[c].queue != [] {
        RelayKeepsConsistent(s, c);
      }
    case CloseChannel(c) =>
      if c in s.channels {
        ChannelKeepsConsistent(s, Apply(s, step), c, s.channels[c].(open := false));
      }
    case Invalidate(room, hints, timestamp) =>
      OfferKeepsConsistent(s, Post(room, Invalidation(hints, timestamp)));
    case Coordinate =>
      CoordinateKeepsConsistent(s);
  }
}
