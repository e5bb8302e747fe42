/**
 What sessions say, told from the steps of a run: the messages each client is told directly, the commands the
 sessions and the sink send, and what reaches a client's socket. Nothing here speaks of the functions that make up
 a step; each list is spelled out step by step and proved to be what the run has.
 */
module RoomsSessions {
  import opened Basics
  import opened Channels
  import opened Rooms
  import opened RoomsProtocol
  import opened RoomsSteps
  import opened RoomsInvariants

  predicate HasRoom<T>(ch: Channel<T>) {
    ch.open && |ch.queue| < ch.capacity
  }

  predicate IsReady(s: State, c: ClientId) {
    c in s.sessions && s.sessions[c].phase == Ready
  }

  predicate IsAnswered(s: State, c: ClientId) {
    c in s.sessions && s.sessions[c].phase.Awaiting? && s.sessions[c].phase.ticket in s.acks
  }

  // ---------- commands ----------

  /** The command a step sends to the coordinator, whether it is taken or not. */
  function CommandOf(s: State, step: Step): Option<RoomCommand> {
    match step
    case Receive(c, JoinFrame(room)) =>
      if IsReady(s, c) then Some(Join(room, c, c, s.nextTicket)) else None
    case Receive(c, TextFrame(body, timestamp)) =>
      if IsReady(s, c) && s.sessions[c].room.Some? then Some(Broadcast(s.sessions[c].room.value, Message(c, body, timestamp))) else None
    case Receive(c, TextToFrame(room, body, timestamp)) =>
      if IsReady(s, c) then Some(Broadcast(room, Message(c, body, timestamp))) else None
    case SendLeave(c) =>
      if c in s.sessions && s.sessions[c].phase == Ended && s.sessions[c].room.Some? then Some(Leave(s.sessions[c].room.value, c)) else None
    case Invalidate(room, hints, timestamp) => Some(Broadcast(room, Invalidation(hints, timestamp)))
    case _ => None
  }

  /** The commands the channel took, in order. */
  function Commands(steps: seq<Step>): seq<RoomCommand> {
    if steps == [] then [] else
      var k := |steps| - 1;
      var s := Run(steps[..k]);
      Commands(steps[..k])
      + if CommandOf(s, steps[k]).Some? && HasRoom(s.commands) then [CommandOf(s, steps[k]).value] else []
  }

  /** How many of them the coordinator has taken off the channel. */
  function TakenUp(steps: seq<Step>): nat {
    if steps == [] then 0 else
      var k := |steps| - 1;
      var s := Run(steps[..k]);
      TakenUp(steps[..k]) + if steps[k] == Coordinate && s.ongoing == None && s.commands.queue != [] then 1 else 0
  }

  /** The broadcasts that were sent, with what became of them at the channel. */
  function Broadcasts(steps: seq<Step>): seq<Offer> {
    if steps == [] then [] else
      var k := |steps| - 1;
      var s := Run(steps[..k]);
      Broadcasts(steps[..k])
      + match CommandOf(s, steps[k])
        case Some(Broadcast(room, m)) => [Offer(Post(room, m), HasRoom(s.commands))]
        case _ => []
  }

  /** The commands of sessions that found the channel full. */
  function LostCommands(steps: seq<Step>): nat {
    if steps == [] then 0 else
      var k := |steps| - 1;
      var s := Run(steps[..k]);
      LostCommands(steps[..k])
      + if CommandOf(s, steps[k]).Some? && !steps[k].Invalidate? && s.commands.open && |s.commands.queue| >= s.commands.capacity
        then 1 else 0
  }

  /** What one step does to the command channel, the offers and the counter. */
  lemma StepSends(s: State, step: Step)
    requires Consistent(s) && !step.Coordinate?
    ensures var s1, sent := Apply(s, step), CommandOf(s, step);
            && s1.commands == (if sent.Some? && HasRoom(s.commands) then s.commands.(queue := s.commands.queue + [sent.value]) else s.commands)
            && s1.offers == s.offers + (match sent case Some(Broadcast(room, m)) => [Offer(Post(room, m), HasRoom(s.commands))] case _ => [])
            && s1.actorDrops == (if sent.Some? && !step.Invalidate? && !HasRoom(s.commands) then Bump(s.actorDrops) else s.actorDrops)
  {
    KeysAgree(s);
    hide Consistent, SendAt, Bump;
    assert s.offers + [] == s.offers;
    if step.Receive? && IsReady(s, step.client) {
      FrameSends(s, step.client, step.frame);
    }
  }

  lemma FrameSends(s: State, c: ClientId, frame: Frame)
    requires IsReady(s, c) && s.commands.open
    ensures var s1, sent := HandleFrame(s, c, frame), CommandOf(s, Receive(c, frame));
            && s1.commands == (if sent.Some? && HasRoom(s.commands) then s.commands.(queue := s.commands.queue + [sent.value]) else s.commands)
            && s1.offers == s.offers + (match sent case Some(Broadcast(room, m)) => [Offer(Post(room, m), HasRoom(s.commands))] case _ => [])
            && s1.actorDrops == (if sent.Some? && !HasRoom(s.commands) then Bump(s.actorDrops) else s.actorDrops)
  {
    hide SendAt, Bump;
    assert s.offers + [] == s.offers;
    match frame
    case JoinFrame(_) =>
    case TextFrame(_, _) =>
    case TextToFrame(_, _, _) =>
    case BadFrame =>
  }

  /** The command channel is first in, first out: it holds the commands it took less those the coordinator has taken up. */
  lemma {:induction false} QueueIsOfCommands(steps: seq<Step>)
    ensures TakenUp(steps) <= |Commands(steps)| && Run(steps).commands.queue == Commands(steps)[TakenUp(steps)..]
  {
    hide Apply, Consistent, Underway, Membership, Departures, Conserved, CommandOf, Bump;
    if steps != [] {
      var k := |steps| - 1;
      var s, before, n := Run(steps[..k]), Commands(steps[..k]), TakenUp(steps[..k]);
      QueueIsOfCommands(steps[..k]);
      EveryRunIsGood(steps[..k]);
      if steps[k].Coordinate? {
        CoordinateSends(s);
        assert Commands(steps) == before;
      } else {
        StepSends(s, steps[k]);
        assert Commands(steps)[n..] == before[n..] + Commands(steps)[|before|..];
      }
    }
  }

  /** The broadcasts offered to the channel are those that the steps send, with what became of them. */
  lemma {:induction false} OffersAreBroadcasts(steps: seq<Step>)
    ensures Run(steps).offers == Broadcasts(steps)
  {
    hide Apply, Consistent, Underway, Membership, Departures, Conserved, CommandOf, Bump;
    if steps != [] {
      var k := |steps| - 1;
      var s := Run(steps[..k]);
      OffersAreBroadcasts(steps[..k]);
      EveryRunIsGood(steps[..k]);
      if steps[k].Coordinate? {
        CoordinateSends(s);
      } else {
        StepSends(s, steps[k]);
      }
    }
  }

  /** The counter of lost commands counts, modulo 2^64, the commands of sessions that found the channel full. */
  lemma {:induction false} LossesAreCounted(steps: seq<Step>)
    ensures Run(steps).actorDrops == LostCommands(steps) % 0x1_0000_0000_0000_0000
  {
    hide Apply, Consistent, Underway, Membership, Departures, Conserved, CommandOf, Bump;
    if steps != [] {
      var k := |steps| - 1;
      var s := Run(steps[..k]);
      LossesAreCounted(steps[..k]);
      EveryRunIsGood(steps[..k]);
      KeysAgree(s);
      if steps[k].Coordinate? {
        CoordinateSends(s);
      } else {
        StepSends(s, steps[k]);
        BumpCounts(LostCommands(steps[..k]));
      }
    }
  }

  lemma BumpCounts(n: nat)
    ensures Bump(n % TWO_TO_64) == (n + 1) % TWO_TO_64
  {
  }

  lemma CoordinateSends(s: State)
    ensures var s1 := Apply(s, Coordinate);
            && CommandOf(s, Coordinate) == None
            && s1.commands.queue == (if s.ongoing == None && s.commands.queue != [] then s.commands.queue[1..] else s.commands.queue)
            && s1.offers == s.offers && s1.actorDrops == s.actorDrops
  {
    CoordinateStep(s);
    CoordinatedKeeps(s);
    hide Coordinated, Apply;
  }

  // ---------- what a session tells its client ----------

  /** The message a step calls for, from the session to its own client. */
  function Reply(s: State, step: Step, c: ClientId): Option<ServerMessage> {
    match step
    case Receive(client, JoinFrame(_)) =>
      if client == c && IsReady(s, c) && !HasRoom(s.commands) then Some(Error(SendFailed)) else None
    case Receive(client, TextFrame(_, _)) =>
      if client != c || !IsReady(s, c) then None
      else if s.sessions[c].room == None then Some(Error(NotInRoom))
      else if !HasRoom(s.commands) then Some(Error(SendFailed))
      else None
    case Receive(client, TextToFrame(_, _, _)) =>
      if client == c && IsReady(s, c) && !HasRoom(s.commands) then Some(Error(SendFailed)) else None
    case Receive(client, BadFrame) =>
      if client == c && IsReady(s, c) then Some(Error(InvalidMessage)) else None
    case AckJoin(client) =>
      if client == c && IsAnswered(s, c) then Some(Joined(c, s.sessions[c].phase.room)) else None
    case TimeOutJoin(client) =>
      if client == c && c in s.sessions && s.sessions[c].phase.Awaiting? then Some(Error(SendFailed)) else None
    case _ => None
  }

  /** The replies for which the client's channel had room. */
  function Replies(steps: seq<Step>, c: ClientId): seq<ServerMessage> {
    if steps == [] then [] else
      var k := |steps| - 1;
      var s := Run(steps[..k]);
      Replies(steps[..k], c)
      + if Reply(s, steps[k], c).Some? && c in s.channels && HasRoom(s.channels[c]) then [Reply(s, steps[k], c).value] else []
  }

  /** The messages that did not come by way of a room. */
  function DirectMessages(ms: seq<ServerMessage>): seq<ServerMessage> {
    if ms == [] then [] else
      var k := |ms| - 1;
      DirectMessages(ms[..k]) + if ms[k].Joined? || ms[k].Error? then [ms[k]] else []
  }

  lemma DirectAppend(ms: seq<ServerMessage>, m: ServerMessage)
    ensures DirectMessages(ms + [m]) == DirectMessages(ms) + if m.Joined? || m.Error? then [m] else []
  {
    assert (ms + [m])[..|ms|] == ms;
  }

  /** All that was put on the way to a client so far. */
  function Sent(s: State, c: ClientId): seq<ServerMessage>
    requires c in s.received && c in s.channels
  {
    s.received[c] + s.channels[c].queue
  }

  /** What was told directly to a client, if there is one. */
  function DirectlySent(s: State, c: ClientId): seq<ServerMessage> {
    if c in s.received && c in s.channels then DirectMessages(Sent(s, c)) else []
  }

  function Taken(s: State, c: ClientId, reply: Option<ServerMessage>): seq<ServerMessage> {
    if reply.Some? && c in s.channels && HasRoom(s.channels[c]) then [reply.value] else []
  }

  /** A message put to a client's channel is sent, if it is taken. */
  lemma SendAdds(s: State, s1: State, to: ClientId, m: ServerMessage, c: ClientId)
    requires s.channels.Keys == s.received.Keys && s1.received == s.received && s1.channels == SendAt(s.channels, to, m)
    ensures DirectlySent(s1, c) == DirectlySent(s, c)
         + if to == c && (m.Joined? || m.Error?) then Taken(s, c, Some(m)) else []
  {
    hide DirectMessages, TrySend;
    if c in s.channels && to == c && HasRoom(s.channels[c]) {
      DirectAppend(Sent(s, c), m);
      assert Sent(s1, c) == Sent(s, c) + [m];
    } else {
      assert DirectlySent(s, c) + [] == DirectlySent(s, c);
    }
  }

  lemma QuietStep(s: State, s1: State, c: ClientId)
    requires s1.received == s.received && s1.channels == s.channels
    ensures DirectlySent(s1, c) == DirectlySent(s, c) + []
  {
  }

  /** What a frame does besides sending a command: its session moves on, and its client is told the reply, if any. */
  ghost predicate FrameShape(s: State, s1: State, x: ClientId, reply: Option<ServerMessage>) {
    && s1.received == s.received
    && s1.channels == (if reply.Some? then SendAt(s.channels, x, reply.value) else s.channels)
    && s1.sessions.Keys == s.sessions.Keys
    && forall c :: c in s.sessions ==> s1.sessions[c].room == s.sessions[c].room
  }

  lemma TextShape(s: State, x: ClientId, post: Post)
    ensures FrameShape(s, HandleText(s, x, post), x, if HasRoom(s.commands) then None else Some(Error(SendFailed)))
  {
    hide SendAt, Bump;
  }

  lemma JoinFrameShape(s: State, x: ClientId, room: DocumentId)
    requires IsReady(s, x)
    ensures FrameShape(s, HandleJoinFrame(s, x, room), x, if HasRoom(s.commands) then None else Some(Error(SendFailed)))
  {
    hide SendAt, Bump;
  }

  lemma ErrorShape(s: State, x: ClientId, e: ErrorText)
    ensures FrameShape(s, Tell(s, x, Error(e)), x, Some(Error(e)))
  {
    hide SendAt;
  }

  lemma FrameIsShaped(s: State, x: ClientId, frame: Frame)
    requires IsReady(s, x)
    ensures FrameShape(s, HandleFrame(s, x, frame), x, Reply(s, Receive(x, frame), x))
  {
    hide FrameShape, HandleText, HandleJoinFrame, Tell;
    match frame
    case JoinFrame(room) => JoinFrameShape(s, x, room);
    case TextFrame(body, timestamp) =>
      if s.sessions[x].room.Some? {
        TextShape(s, x, Post(s.sessions[x].room.value, Message(x, body, timestamp)));
      } else {
        ErrorShape(s, x, NotInRoom);
      }
    case TextToFrame(room, body, timestamp) => TextShape(s, x, Post(room, Message(x, body, timestamp)));
    case BadFrame => ErrorShape(s, x, InvalidMessage);
  }

  /** The steps that can do no more to channels than to tell a client something. */
  predicate OnlyTells(step: Step) {
    step.Receive? || step.AckJoin? || step.TimeOutJoin? || step.EndReceive? || step.SendLeave? || step.Invalidate?
  }

  function Speaker(step: Step): ClientId {
    if step.Invalidate? || step.Coordinate? then [] else step.client
  }

  lemma TellingIsAll(s: State, step: Step)
    requires OnlyTells(step)
    ensures var s1, reply := Apply(s, step), Reply(s, step, Speaker(step));
            && s1.received == s.received
            && s1.channels == if reply.Some? then SendAt(s.channels, Speaker(step), reply.value) else s.channels
  {
    hide HandleFrame, HandleExit, OfferPost, SendAt;
    match step
    case Receive(x, frame) =>
      if IsReady(s, x) {
        FrameIsShaped(s, x, frame);
      }
    case SendLeave(x) =>
      if InPhase(s, x, Ended) {
        ExitIsQuiet(s, x);
      }
    case Invalidate(room, hints, timestamp) => OfferIsQuiet(s, Post(room, Invalidation(hints, timestamp)));
    case _ =>
  }

  lemma OthersHearNothing(s: State, step: Step, c: ClientId)
    requires OnlyTells(step)
    ensures c != Speaker(step) ==> Reply(s, step, c) == None
    ensures var reply := Reply(s, step, Speaker(step)); reply.Some? ==> reply.value.Error? || reply.value.Joined?
  {
  }

  lemma TellingReplies(s: State, step: Step, c: ClientId)
    requires s.channels.Keys == s.received.Keys && OnlyTells(step)
    ensures DirectlySent(Apply(s, step), c) == DirectlySent(s, c) + Taken(s, c, Reply(s, step, c))
  {
    TellingIsAll(s, step);
    OthersHearNothing(s, step, c);
    hide Apply, Reply, DirectlySent, SendAt;
    var reply := Reply(s, step, Speaker(step));
    if reply.Some? {
      SendAdds(s, Apply(s, step), Speaker(step), reply.value, c);
    } else {
      QuietStep(s, Apply(s, step), c);
    }
  }

  lemma RelayKeepsSent(s: State, x: ClientId, c: ClientId)
    requires s.channels.Keys == s.received.Keys && x in s.channels && s.channels[x].queue != []
    ensures DirectlySent(Relayed(s, x), c) == DirectlySent(s, c) + []
  {
    var s1 := Relayed(s, x);
    if x == c {
      assert Sent(s1, c) == Sent(s, c);
    }
  }

  lemma ConnectSendsNothing(s: State, x: ClientId, c: ClientId)
    requires s.channels.Keys == s.received.Keys && x !in s.channels
    ensures DirectlySent(Connected(s, x), c) == DirectlySent(s, c) + []
  {
    if x == c {
      assert Sent(Connected(s, x), c) == [];
    }
  }

  lemma CloseKeepsSent(s: State, x: ClientId, c: ClientId)
    requires x in s.channels
    ensures DirectlySent(s.(channels := s.channels[x := s.channels[x].(open := false)]), c) == DirectlySent(s, c) + []
  {
  }

  lemma OfferSends(s: State)
    requires Offering(s)
    ensures OfferNext(s).received == s.received
    ensures OfferNext(s).channels == SendAt(s.channels, Listeners(s)[s.ongoing.value.next].tx, s.ongoing.value.message)
  {
    hide SendAt, OutcomeAt, Bump;
  }

  lemma CoordinateReplies(s: State, c: ClientId)
    requires Consistent(s) && Underway(s)
    ensures DirectlySent(Coordinated(s), c) == DirectlySent(s, c) + []
  {
    KeysAgree(s);
    hide Consistent, SendAt, DirectlySent, OfferNext, TakeCommand, FinishBroadcast, Listeners;
    if Offering(s) {
      OfferSends(s);
      SendAdds(s, OfferNext(s), Listeners(s)[s.ongoing.value.next].tx, s.ongoing.value.message, c);
    } else {
      if Finishing(s) {
        FinishLeaves(s);
      } else if Taking(s) {
        TakeLeaves(s);
      }
      QuietStep(s, Coordinated(s), c);
    }
  }

  lemma StepReplies(s: State, step: Step, c: ClientId)
    requires Consistent(s) && Underway(s)
    ensures DirectlySent(Apply(s, step), c) == DirectlySent(s, c) + Taken(s, c, Reply(s, step, c))
  {
    KeysAgree(s);
    if OnlyTells(step) {
      TellingReplies(s, step, c);
    } else {
      hide Consistent, Underway, Connected, Relayed, Coordinated, DirectlySent;
      QuietStep(s, s, c);
      match step
      case Connect(x) =>
        if x !in s.sessions {
          ConnectSendsNothing(s, x, c);
        }
      case Relay(x) =>
        if IsOpen(s.channels, x) && s.channels[x].queue != [] {
          RelayKeepsSent(s, x, c);
        }
      case CloseChannel(x) =>
        if x in s.channels {
          CloseKeepsSent(s, x, c);
        }
      case Coordinate => CoordinateReplies(s, c);
      case _ =>
    }
  }

  lemma ExitIsQuiet(s: State, x: ClientId)
    requires x in s.sessions
    ensures HandleExit(s, x).channels == s.channels && HandleExit(s, x).received == s.received
  {
  }

  lemma OfferIsQuiet(s: State, post: Post)
    ensures OfferPost(s, post).channels == s.channels && OfferPost(s, post).received == s.received
  {
  }

  /**
   In every run, what a client was told other than by way of rooms are the replies its own steps called for, in
   order, as far as its channel had room: that it joined, once its join is answered; that a send failed, when a join
   times out or a command is lost; that it is in no room; and that its message is not understood.
   */
  lemma {:induction false} RepliesAreThoseCalledFor(steps: seq<Step>, c: ClientId)
    ensures DirectlySent(Run(steps), c) == Replies(steps, c)
  {
    hide Apply, Consistent, Underway, Membership, Departures, Conserved, Reply, DirectlySent;
    if steps == [] {
      NothingSentYet(c);
    } else {
      var k := |steps| - 1;
      RepliesAreThoseCalledFor(steps[..k], c);
      EveryRunIsGood(steps[..k]);
      StepReplies(Run(steps[..k]), steps[k], c);
    }
  }

  lemma NothingSentYet(c: ClientId)
    ensures DirectlySent(Initial, c) == []
  {
  }

  // ---------- what reaches the client ----------

  /** A relay on an open channel that holds something hands the oldest message over, and does nothing else. */
  lemma RelayHandsOver(s: State, c: ClientId)
    requires Consistent(s) && c in s.channels && s.channels[c].open && s.channels[c].queue != []
    ensures var s1, queue := Apply(s, Relay(c)), s.channels[c].queue;
            && s1.received.Keys == s.received.Keys && s1.channels.Keys == s.channels.Keys
            && s1.received[c] == s.received[c] + [queue[0]]
            && s1.channels[c] == s.channels[c].(queue := queue[1..])
            && forall x :: x in s.channels && x != c ==> s1.received[x] == s.received[x] && s1.channels[x] == s.channels[x]
  {
    KeysAgree(s);
    hide Consistent;
  }

  /** Nothing but its relay brings a client a message, or takes one from its channel. */
  lemma OnlyRelayHandsOver(s: State, step: Step, c: ClientId)
    requires Consistent(s) && step != Relay(c) && c in s.channels
    ensures var s1 := Apply(s, step);
            c in s1.received && s1.received[c] == s.received[c] && c in s1.channels && s.channels[c].queue <= s1.channels[c].queue
  {
    KeysAgree(s);
    if OnlyTells(step) {
      TellingIsAll(s, step);
      hide Consistent, Apply, Reply, SendAt;
      var reply := Reply(s, step, Speaker(step));
      if reply.Some? {
        SendAtGrows(s.channels, Speaker(step), reply.value, c);
      }
    } else if step.Coordinate? {
      CoordinateStep(s);
      CoordinateHandsOverNothing(s, c);
    } else {
      hide Consistent;
    }
  }

  lemma SendAtGrows(channels: ChannelTable, to: ClientId, m: ServerMessage, c: ClientId)
    requires c in channels
    ensures var after := SendAt(channels, to, m);
            c in after && channels[c].queue <= after[c].queue && after[c].open == channels[c].open && after.Keys == channels.Keys
  {
  }

  lemma CoordinateHandsOverNothing(s: State, c: ClientId)
    requires c in s.channels
    ensures var s1 := Coordinated(s);
            s1.received == s.received && c in s1.channels && s.channels[c].queue <= s1.channels[c].queue
  {
    hide TakeCommand, FinishBroadcast, SendAt, EntriesOf, OutcomeAt;
    if Offering(s) {
      SendAtGrows(s.channels, Listeners(s)[s.ongoing.value.next].tx, s.ongoing.value.message, c);
    } else if Finishing(s) {
      FinishLeaves(s);
    } else if Taking(s) {
      TakeLeaves(s);
    }
  }

  /** A client's channel is open from its connection on until it is closed. */
  function WasClosed(steps: seq<Step>, c: ClientId): bool {
    if steps == [] then false else
      var k := |steps| - 1;
      WasClosed(steps[..k], c) || (steps[k] == CloseChannel(c) && HasConnected(steps[..k], c))
  }

  function HasConnected(steps: seq<Step>, c: ClientId): bool {
    Connect(c) in steps
  }

  function RoomOf(steps: seq<Step>, c: ClientId): Option<DocumentId> {
    if steps == [] then None else
      var k := |steps| - 1;
      var s := Run(steps[..k]);
      if steps[k] == AckJoin(c) && IsAnswered(s, c) then Some(s.sessions[c].phase.room) else RoomOf(steps[..k], c)
  }

  /**
   In every run a client has a session and a channel of 256 places from its Connect on; the channel is open until a
   CloseChannel; and its current room is the one of its latest answered join.
   */
  lemma {:induction false} SessionsAreAsTold(steps: seq<Step>, c: ClientId)
    ensures var s := Run(steps);
            && (c in s.sessions <==> HasConnected(steps, c)) && (c in s.channels <==> HasConnected(steps, c))
            && (c in s.sessions ==> s.sessions[c].room == RoomOf(steps, c))
            && (c !in s.sessions ==> RoomOf(steps, c) == None)
            && (c in s.channels ==> s.channels[c].open == !WasClosed(steps, c))
            && (c in s.channels ==> s.channels[c].capacity == 256 && |s.channels[c].queue| <= 256)
            && s.commands.open && s.commands.capacity == 256 && |s.commands.queue| <= 256
            && (!HasConnected(steps, c) ==> !WasClosed(steps, c))
  {
    hide Apply, Underway, Membership, Departures, Conserved;
    EveryRunIsGood(steps);
    if steps != [] {
      var k := |steps| - 1;
      SessionsAreAsTold(steps[..k], c);
      EveryRunIsGood(steps[..k]);
      assert steps == steps[..k] + [steps[k]];
      SessionAfter(Run(steps[..k]), steps[k], c);
      ChannelAfter(Run(steps[..k]), steps[k], c);
    }
  }

  lemma SessionAfter(s: State, step: Step, c: ClientId)
    requires Consistent(s)
    ensures var s1 := Apply(s, step);
            && (c in s1.sessions <==> c in s.sessions || step == Connect(c))
            && (c in s.sessions ==>
                  s1.sessions[c].room == if step == AckJoin(c) && IsAnswered(s, c) then Some(s.sessions[c].phase.room) else s.sessions[c].room)
            && (c in s1.sessions && c !in s.sessions ==> s1.sessions[c].room == None)
  {
    hide Consistent, HandleFrame, HandleExit, Coordinated, OfferPost, SendAt, Connected, Relayed;
    match step
    case Receive(x, frame) =>
      if IsReady(s, x) {
        FrameIsShaped(s, x, frame);
      }
    case SendLeave(x) =>
      if InPhase(s, x, Ended) {
        ExitKeepsRooms(s, x);
      }
    case Connect(x) => ConnectAddsSession(s, x);
    case Relay(x) =>
      if IsOpen(s.channels, x) && s.channels[x].queue != [] {
        RelayKeepsSessions(s, x);
      }
    case Invalidate(room, hints, timestamp) => OfferKeepsSessions(s, Post(room, Invalidation(hints, timestamp)));
    case Coordinate => CoordinatedKeeps(s);
    case _ =>
  }

  lemma ExitKeepsRooms(s: State, x: ClientId)
    requires x in s.sessions
    ensures HandleExit(s, x).sessions == s.sessions[x := s.sessions[x].(phase := Gone)]
  {
    hide Bump, TrySend;
  }

  lemma ConnectAddsSession(s: State, x: ClientId)
    ensures Connected(s, x).sessions == s.sessions[x := Session(Ready, None)]
  {
  }

  lemma RelayKeepsSessions(s: State, x: ClientId)
    requires x in s.channels && s.channels[x].queue != []
    ensures Relayed(s, x).sessions == s.sessions
  {
  }

  lemma OfferKeepsSessions(s: State, post: Post)
    ensures OfferPost(s, post).sessions == s.sessions
  {
  }

  lemma ChannelAfter(s: State, step: Step, c: ClientId)
    requires Consistent(s)
    ensures var s1 := Apply(s, step);
            && (c in s.channels ==> c in s1.channels && s1.channels[c].open == (s.channels[c].open && step != CloseChannel(c)))
            && (c in s1.channels && c !in s.channels ==> s1.channels[c].open)
  {
    KeysAgree(s);
    if OnlyTells(step) {
      TellingIsAll(s, step);
      SendKeepsOpen(s.channels, Speaker(step), c);
      hide Consistent, Apply, Reply, SendAt;
    } else if step.Coordinate? {
      CoordinateStep(s);
      CoordinatedKeeps(s);
      hide Consistent, Coordinated, Apply;
      assert IsOpen(Coordinated(s).channels, c) <==> IsOpen(s.channels, c);
    } else {
      hide Consistent;
    }
  }

  lemma SendKeepsOpen(channels: ChannelTable, to: ClientId, c: ClientId)
    ensures forall m :: SendAt(channels, to, m).Keys == channels.Keys
    ensures c in channels ==> forall m :: SendAt(channels, to, m)[c].open == channels[c].open
  {
  }
}
