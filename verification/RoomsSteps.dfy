/**
 One summary for all steps but the coordinator's: what they may do to sessions, channels and the command
 queue. The invariants of the protocol are proved from this summary and from the coordinator's step.
 */
module RoomsSteps {
  import opened Basics
  import opened Channels
  import opened Rooms
  import opened RoomsProtocol

  /** What a step puts to the command channel. */
  datatype Act =
    | NoAct
    | Posting(post: Post)
    | Joining(client: ClientId, room: DocumentId)
    | Leaving(client: ClientId, room: DocumentId)

  function ActOf(s: State, step: Step): Act {
    match step
    case Receive(c, frame) =>
      if !InPhase(s, c, Ready) then NoAct else
        (match frame
         case JoinFrame(room) => if Takes(s) then Joining(c, room) else NoAct
         case TextFrame(body, timestamp) =>
           if s.sessions[c].room.Some? then Posting(Post(s.sessions[c].room.value, Message(c, body, timestamp))) else NoAct
         case TextToFrame(room, body, timestamp) => Posting(Post(room, Message(c, body, timestamp)))
         case BadFrame => NoAct)
    case SendLeave(c) =>
      if InPhase(s, c, Ended) && s.sessions[c].room.Some? && Takes(s) then Leaving(c, s.sessions[c].room.value) else NoAct
    case Invalidate(room, hints, timestamp) => Posting(Post(room, Invalidation(hints, timestamp)))
    case _ => NoAct
  }

  /** The messages that came by way of a room; the other ones a session is told directly. */
  function RoomMessages(ms: seq<ServerMessage>): seq<ServerMessage> {
    if ms == [] then [] else
      var k := |ms| - 1;
      RoomMessages(ms[..k]) + if ms[k].Message? || ms[k].Invalidation? then [ms[k]] else []
  }

  /** The room messages a client has been sent, whether it has them yet or not. */
  function Inbox(received: map<ClientId, seq<ServerMessage>>, channels: ChannelTable, c: ClientId): seq<ServerMessage>
    requires c in received && c in channels
  {
    RoomMessages(received[c] + channels[c].queue)
  }

  lemma RoomMessagesAppend(ms: seq<ServerMessage>, m: ServerMessage)
    ensures RoomMessages(ms + [m]) == RoomMessages(ms) + if m.Message? || m.Invalidation? then [m] else []
  {
  }

  function Pushed(s: State, command: RoomCommand): Channel<RoomCommand> {
    s.commands.(queue := s.commands.queue + [command])
  }

  ghost predicate CommandsMove(s: State, s1: State, act: Act) {
    && s1.joins == s.joins + (if act.Joining? then [Seat(act.room, act.client)] else [])
    && match act
    case NoAct => s1.commands == s.commands && s1.offers == s.offers
    case Posting(post) =>
      && s1.offers == s.offers + [Offer(post, Takes(s))]
      && s1.commands == if Takes(s) then Pushed(s, Broadcast(post.room, post.message)) else s.commands
    case Joining(c, room) =>
      && s1.offers == s.offers && s1.commands == Pushed(s, Join(room, c, c, s.nextTicket))
      && s1.nextTicket == s.nextTicket + 1
      && c in s.sessions && s.sessions[c].phase.Ready? && c in s1.sessions && s1.sessions[c].phase == Awaiting(room, s.nextTicket)
    case Leaving(c, room) =>
      && s1.offers == s.offers && s1.commands == Pushed(s, Leave(room, c))
      && c in s.sessions && s.sessions[c].phase.Ended? && InPhase(s1, c, Gone)
  }

  /** The ways a session changes in a step that is not the coordinator's. */
  predicate Moves(s: State, c: ClientId, was: Session, now: Session, act: Act) {
    || now == was
    || (act.Joining? && act.client == c && was.phase.Ready?
        && now == was.(phase := Awaiting(act.room, s.nextTicket)))
    || (was.phase.Awaiting? && was.phase.ticket in s.acks && now == was.(phase := Ready, room := Some(was.phase.room)))
    || (was.phase.Awaiting? && now == was.(phase := Ready))
    || (Live(was) && now == was.(phase := Ended))
    || (was.phase.Ended? && now == was.(phase := Gone))
  }

  ghost predicate SessionsMove(s: State, s1: State, act: Act) {
    && s1.nextTicket >= s.nextTicket
    && (forall c :: c in s.sessions ==> c in s1.sessions && Moves(s, c, s.sessions[c], s1.sessions[c], act))
    && (forall c :: c in s1.sessions && c !in s.sessions ==> s1.sessions[c] == Session(Ready, None))
  }

  /** Channels may close and never reopen, and what they carried from rooms stays accounted for. */
  ghost predicate ChannelsMove(
      channels: ChannelTable, received: map<ClientId, seq<ServerMessage>>,
      channels1: ChannelTable, received1: map<ClientId, seq<ServerMessage>>)
  {
    && channels.Keys == received.Keys && channels1.Keys == received1.Keys
    && (forall c :: c in channels ==>
          && c in channels1 && (channels1[c].open ==> channels[c].open)
          && Inbox(received1, channels1, c) == Inbox(received, channels, c) && received[c] <= received1[c])
    && (forall c :: c in channels1 && c !in channels ==> Inbox(received1, channels1, c) == [])
  }

  ghost predicate SameCoordinator(s: State, s1: State) {
    && s1.rooms == s.rooms && s1.acks == s.acks && s1.fanoutDrops == s.fanoutDrops && s1.ongoing == s.ongoing
    && s1.processed == s.processed && s1.audience == s.audience && s1.deliveries == s.deliveries && s1.since == s.since && s1.left == s.left
  }

  ghost predicate Outer(s: State, s1: State, act: Act) {
    SameCoordinator(s, s1) && SessionsMove(s, s1, act) && ChannelsMove(s.channels, s.received, s1.channels, s1.received) && CommandsMove(s, s1, act)
  }

  // ---------- the summary holds ----------

  lemma ChannelsStay(s: State)
    requires s.channels.Keys == s.received.Keys
    ensures ChannelsMove(s.channels, s.received, s.channels, s.received)
  {
  }

  /** Telling a session something changes nothing but its channel, and leaves room messages alone. */
  lemma TellIsQuiet(s: State, c: ClientId, m: ServerMessage)
    requires s.channels.Keys == s.received.Keys
    requires m.Joined? || m.Error?
    ensures ChannelsMove(s.channels, s.received, SendAt(s.channels, c, m), s.received)
  {
    hide RoomMessages;
    var channels1 := SendAt(s.channels, c, m);
    if c in s.channels && TrySendOutcome(s.channels[c]).Sent? {
      RoomMessagesAppend(s.received[c] + s.channels[c].queue, m);
      assert s.received[c] + channels1[c].queue == s.received[c] + s.channels[c].queue + [m];
    }
  }

  lemma KeysAgree(s: State)
    requires Consistent(s)
    ensures s.sessions.Keys == s.channels.Keys == s.received.Keys
    ensures s.commands.open && s.commands.capacity == ROOMS_COORDINATOR_CHANNEL_CAPACITY
  {
  }

  lemma TextIsOuter(s: State, c: ClientId, post: Post)
    requires Consistent(s)
    ensures Outer(s, HandleText(s, c, post), Posting(post))
  {
    hide Consistent, ChannelsMove, SendAt;
    KeysAgree(s);
    ChannelsStay(s);
    TellIsQuiet(s, c, Error(SendFailed));
  }

  lemma JoinFrameIsOuter(s: State, c: ClientId, room: DocumentId)
    requires Consistent(s) && InPhase(s, c, Ready)
    ensures Outer(s, HandleJoinFrame(s, c, room), if Takes(s) then Joining(c, room) else NoAct)
  {
    hide Consistent, ChannelsMove, SendAt;
    KeysAgree(s);
    ChannelsStay(s);
    TellIsQuiet(s, c, Error(SendFailed));
  }

  lemma ErrorIsOuter(s: State, c: ClientId, e: ErrorText)
    requires Consistent(s)
    ensures Outer(s, Tell(s, c, Error(e)), NoAct)
  {
    hide Consistent, ChannelsMove, SendAt;
    KeysAgree(s);
    TellIsQuiet(s, c, Error(e));
  }

  lemma FrameIsOuter(s: State, c: ClientId, frame: Frame)
    requires Consistent(s) && InPhase(s, c, Ready)
    ensures Outer(s, HandleFrame(s, c, frame), ActOf(s, Receive(c, frame)))
  {
    hide Consistent, Outer, HandleText, HandleJoinFrame, Tell;
    match frame
    case JoinFrame(room) => JoinFrameIsOuter(s, c, room);
    case TextFrame(body, timestamp) =>
      if s.sessions[c].room.Some? {
        TextIsOuter(s, c, Post(s.sessions[c].room.value, Message(c, body, timestamp)));
      } else {
        ErrorIsOuter(s, c, NotInRoom);
      }
    case TextToFrame(room, body, timestamp) => TextIsOuter(s, c, Post(room, Message(c, body, timestamp)));
    case BadFrame => ErrorIsOuter(s, c, InvalidMessage);
  }

  lemma AckIsOuter(s: State, c: ClientId)
    requires Consistent(s) && IsAwaiting(s, c) && s.sessions[c].phase.ticket in s.acks
    ensures Outer(s, AcceptAck(s, c), NoAct)
  {
    hide Consistent, ChannelsMove, SendAt;
    KeysAgree(s);
    TellIsQuiet(s, c, Joined(c, s.sessions[c].phase.room));
  }

  lemma RelayIsOuter(s: State, c: ClientId)
    requires Consistent(s) && IsOpen(s.channels, c) && s.channels[c].queue != []
    ensures Outer(s, Relayed(s, c), NoAct)
  {
    hide Consistent, ChannelsMove;
    KeysAgree(s);
    RelayMovesChannels(s, c);
  }

  lemma RelayMovesChannels(s: State, c: ClientId)
    requires s.channels.Keys == s.received.Keys && c in s.channels && s.channels[c].queue != []
    ensures ChannelsMove(s.channels, s.received, Relayed(s, c).channels, Relayed(s, c).received)
  {
    hide RoomMessages;
    var s1 := Relayed(s, c);
    assert s1.received[c] + s1.channels[c].queue == s.received[c] + s.channels[c].queue;
  }

  lemma ConnectMovesChannels(s: State, c: ClientId)
    requires s.channels.Keys == s.received.Keys && c !in s.channels
    ensures ChannelsMove(s.channels, s.received, Connected(s, c).channels, Connected(s, c).received)
  {
  }

  lemma ConnectIsOuter(s: State, c: ClientId)
    requires Consistent(s) && c !in s.sessions
    ensures Outer(s, Connected(s, c), NoAct)
  {
    hide Consistent, ChannelsMove, Moves;
    KeysAgree(s);
    ConnectMovesChannels(s, c);
    StillMoves(s, NoAct);
  }

  lemma StillMoves(s: State, act: Act)
    ensures forall c :: c in s.sessions ==> Moves(s, c, s.sessions[c], s.sessions[c], act)
  {
  }

  lemma ExitIsOuter(s: State, c: ClientId)
    requires Consistent(s) && InPhase(s, c, Ended)
    ensures Outer(s, HandleExit(s, c), ActOf(s, SendLeave(c)))
  {
    hide Consistent, ChannelsMove, Moves;
    KeysAgree(s);
    ChannelsStay(s);
    var act, now := ActOf(s, SendLeave(c)), s.sessions[c].(phase := Gone);
    StillMoves(s, act);
    assert Moves(s, c, s.sessions[c], now, act) by { GoneMoves(s, c, act); }
  }

  lemma GoneMoves(s: State, c: ClientId, act: Act)
    requires InPhase(s, c, Ended)
    ensures Moves(s, c, s.sessions[c], s.sessions[c].(phase := Gone), act)
  {
  }

  lemma NothingIsOuter(s: State)
    requires Consistent(s)
    ensures Outer(s, s, NoAct)
  {
  }

  lemma TimeOutIsOuter(s: State, c: ClientId)
    requires Consistent(s) && IsAwaiting(s, c)
    ensures Outer(s, Tell(WithPhase(s, c, Ready), c, Error(SendFailed)), NoAct)
  {
    hide Consistent, ChannelsMove, SendAt;
    KeysAgree(s);
    TellIsQuiet(s, c, Error(SendFailed));
  }

  lemma EndIsOuter(s: State, c: ClientId)
    requires Consistent(s) && c in s.sessions && Live(s.sessions[c])
    ensures Outer(s, WithPhase(s, c, Ended), NoAct)
  {
    hide Consistent, ChannelsMove;
    KeysAgree(s);
    ChannelsStay(s);
  }

  lemma CloseIsOuter(s: State, c: ClientId)
    requires Consistent(s) && c in s.channels
    ensures Outer(s, s.(channels := s.channels[c := s.channels[c].(open := false)]), NoAct)
  {
    hide Consistent, RoomMessages;
    KeysAgree(s);
  }

  lemma InvalidateIsOuter(s: State, post: Post)
    requires Consistent(s)
    ensures Outer(s, OfferPost(s, post), Posting(post))
  {
  }

  /** Every step but the coordinator's is as the summary says. */
  lemma StepIsOuter(s: State, step: Step)
    requires Consistent(s) && !step.Coordinate?
    ensures Outer(s, Apply(s, step), ActOf(s, step))
  {
    hide Consistent, HandleFrame, HandleExit, AcceptAck, Connected, Relayed, OfferPost, Tell, Outer;
    KeysAgree(s);
    NothingIsOuter(s);
    match step
    case Connect(c) =>
      if c !in s.sessions {
        ConnectIsOuter(s, c);
      }
    case Receive(c, frame) =>
      if InPhase(s, c, Ready) {
        FrameIsOuter(s, c, frame);
      }
    case AckJoin(c) =>
      if IsAwaiting(s, c) && s.sessions[c].phase.ticket in s.acks {
        AckIsOuter(s, c);
      }
    case TimeOutJoin(c) =>
      if IsAwaiting(s, c) {
        TimeOutIsOuter(s, c);
      }
    case EndReceive(c) =>
      if InPhase(s, c, Ready) || IsAwaiting(s, c) {
        EndIsOuter(s, c);
      }
    case SendLeave(c) =>
      if InPhase(s, c, Ended) {
        ExitIsOuter(s, c);
      }
    case Relay(c) =>
      if IsOpen(s.channels, c) && s.channels[c].queue != [] {
        RelayIsOuter(s, c);
      }
    case CloseChannel(c) =>
      if c in s.channels {
        CloseIsOuter(s, c);
      }
    case Invalidate(room, hints, timestamp) =>
      InvalidateIsOuter(s, Post(room, Invalidation(hints, timestamp)));
  }
}
