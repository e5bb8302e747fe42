/**
 src/websocket.rs with the handle of src/rooms.rs, as objects. What a receive task does between two awaits
 is one method; each is proved to carry out the step of the transition system that stands for it.
 */
module WebSocket {
  import opened Basics
  import opened Channels
  import opened Rooms
  import opened RoomsProtocol

  datatype RoomCommandError = ChannelFull | ChannelClosed

  /** The sending end of the coordinator's channel, and the counter of commands that sessions lost. */
  class AppState {
    var commands: Channel<RoomCommand>
    var actorDrops: U64

    constructor ()
      ensures commands == Initial.commands && actorDrops == Initial.actorDrops
    {
      commands, actorDrops := Initial.commands, Initial.actorDrops;
    }

    /** `RoomsHandle::join_room`, `leave_room` and `broadcast_to_room` differ in the command only. */
    method TrySendCommand(command: RoomCommand) returns (r: Result<(), RoomCommandError>)
      modifies this`commands
      ensures commands == TrySend(old(commands), command)
      ensures r == match TrySendOutcome(old(commands))
                   case Sent => Success(())
                   case Full => Failure(ChannelFull)
                   case Closed => Failure(ChannelClosed)
    {
      if !commands.open {
        return Failure(ChannelClosed);
      }
      if |commands.queue| >= commands.capacity {
        return Failure(ChannelFull);
      }
      commands := commands.(queue := commands.queue + [command]);
      return Success(());
    }

    /** The `map_err` of every command a session sends. */
    method SendCounted(command: RoomCommand) returns (r: Result<(), ErrorText>)
      modifies this
      ensures commands == TrySend(old(commands), command)
      ensures r == if TrySendOutcome(old(commands)).Sent? then Success(()) else Failure(SendFailed)
      ensures actorDrops == if TrySendOutcome(old(commands)).Full? then Bump(old(actorDrops)) else old(actorDrops)
    {
      var sent := TrySendCommand(command);
      if sent.Success? {
        return Success(());
      }
      if sent.error.ChannelFull? {
        actorDrops := Bump(actorDrops);
      }
      return Failure(SendFailed);
    }
  }

  class ClientSession {
    const clientId: ClientId
    var currentRoom: Option<DocumentId>
    var outbound: Channel<ServerMessage>

    constructor (clientId: ClientId)
      ensures this.clientId == clientId && currentRoom == None
      ensures outbound == Channel([], true, CLIENT_CHANNEL_CAPACITY)
    {
      this.clientId, currentRoom, outbound := clientId, None, Channel([], true, CLIENT_CHANNEL_CAPACITY);
    }

    /** The objects hold what the state of the transition system says of this session. */
    ghost predicate Shows(app: AppState, s: State)
      reads this, app
    {
      && clientId in s.sessions && clientId in s.channels
      && s.sessions[clientId].room == currentRoom
      && s.channels[clientId] == outbound
      && s.commands == app.commands
      && s.actorDrops == app.actorDrops
    }

    /** `let _ = session.tx.try_send(m)`. */
    method Tell(m: ServerMessage)
      modifies this`outbound
      ensures outbound == TrySend(old(outbound), m)
    {
      outbound := TrySend(outbound, m);
    }

    /** `handle_client_message` up to its first await; `waits` when the session now waits for the ticket's answer. */
    method HandleClientMessage(app: AppState, frame: Frame, ticket: nat, ghost s: State)
      returns (r: Result<(), ErrorText>, waits: bool)
      requires Shows(app, s) && InPhase(s, clientId, Ready) && ticket == s.nextTicket
      requires !frame.BadFrame?
      modifies app
      ensures r.Success? ==> Shows(app, HandleFrame(s, clientId, frame))
      ensures r.Failure? ==> Shows(app, HandleFrame(s, clientId, frame).(channels := s.channels))
      ensures r.Failure? ==>
        HandleFrame(s, clientId, frame).channels == RoomsProtocol.Tell(s, clientId, Error(r.error)).channels
      ensures waits ==> r.Success? && frame.JoinFrame?
      ensures HandleFrame(s, clientId, frame).sessions[clientId].phase
           == if waits then Awaiting(frame.room, ticket) else Ready
    {
      waits := false;
      match frame
      case JoinFrame(room) =>
        r := app.SendCounted(Join(room, clientId, clientId, ticket));
        waits := r.Success?;
      case TextFrame(body, timestamp) =>
        if currentRoom.Some? {
          r := app.SendCounted(Broadcast(currentRoom.value, Message(clientId, body, timestamp)));
        } else {
          r := Failure(NotInRoom);
        }
      case TextToFrame(room, body, timestamp) =>
        r := app.SendCounted(Broadcast(room, Message(clientId, body, timestamp)));
    }

    /** One turn of the receive loop of `handle_socket`. */
    method Receive(app: AppState, frame: Frame, ticket: nat, ghost s: State) returns (waits: bool)
      requires Shows(app, s) && InPhase(s, clientId, Ready) && ticket == s.nextTicket
      modifies this, app
      ensures Shows(app, Apply(s, Step.Receive(clientId, frame)))
      ensures waits ==> frame.JoinFrame?
      ensures Apply(s, Step.Receive(clientId, frame)).sessions[clientId].phase
           == if waits then Awaiting(frame.room, ticket) else Ready
    {
      waits := false;
      if frame.BadFrame? {
        Tell(Error(InvalidMessage));
      } else {
        var r;
        r, waits := HandleClientMessage(app, frame, ticket, s);
        if r.Failure? {
          Tell(Error(r.error));
        }
      }
    }

    /** The rest of a join, once the wait of at most 250 ms is over. */
    method FinishJoin(app: AppState, room: DocumentId, answered: bool, ghost s: State)
      requires Shows(app, s) && IsAwaiting(s, clientId) && s.sessions[clientId].phase.room == room
      requires answered ==> s.sessions[clientId].phase.ticket in s.acks
      modifies this
      ensures Shows(app, Apply(s, if answered then AckJoin(clientId) else TimeOutJoin(clientId)))
    {
      if answered {
        currentRoom := Some(room);
        Tell(Joined(clientId, room));
      } else {
        Tell(Error(SendFailed));
      }
    }

    /** The end of `handle_socket`. */
    method LeaveAtEnd(app: AppState, ghost s: State)
      requires Shows(app, s) && InPhase(s, clientId, Ended)
      modifies app
      ensures Shows(app, Apply(s, SendLeave(clientId)))
    {
      if currentRoom.Some? {
        var r := app.TrySendCommand(Leave(currentRoom.value, clientId));
        if r.Failure? && r.error.ChannelFull? {
          app.actorDrops := Bump(app.actorDrops);
        }
      }
    }
  }
}
