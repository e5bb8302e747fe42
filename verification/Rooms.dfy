/**
 The rooms coordinator of src/rooms.rs. The senders that clients hand over with a join are names of
 bounded channels; the channels themselves are a table, since several entries may share one.
 */
module Rooms {
  import opened Basics
  import opened Channels

  type ClientId = Str
  type DocumentId = Str
  type ChannelId = Str

  const ROOMS_COORDINATOR_CHANNEL_CAPACITY: nat := 256
  const CLIENT_CHANNEL_CAPACITY: nat := 256

  /** The text of a chat message: the numbered payload of the load test, or anything else. */
  datatype Body = Payload(number: nat) | Plain(text: Str)

  datatype ErrorText = InvalidMessage | NotInRoom | SendFailed

  datatype ServerMessage =
    | Joined(client: ClientId, document: DocumentId)
    | Message(from: ClientId, body: Body, timestamp: U64)
    | Invalidation(hints: seq<Str>, timestamp: U64)
    | Error(error: ErrorText)

  datatype Entry = Entry(client: ClientId, tx: ChannelId)

  datatype RoomCommand =
    | Join(room: DocumentId, client: ClientId, tx: ChannelId, respondTo: nat)
    | Leave(room: DocumentId, client: ClientId)
    | Broadcast(room: DocumentId, message: ServerMessage)

  type RoomTable = map<DocumentId, seq<Entry>>
  type ChannelTable = map<ChannelId, Channel<ServerMessage>>

  function EntriesOf(rooms: RoomTable, room: DocumentId): seq<Entry> {
    if room in rooms then rooms[room] else []
  }

  /** A room without entries is removed. */
  function WithEntries(rooms: RoomTable, room: DocumentId, entries: seq<Entry>): RoomTable {
    if entries == [] then rooms - {room} else rooms[room := entries]
  }

  // ---------- fan-out ----------

  function OutcomeAt(channels: ChannelTable, tx: ChannelId): SendOutcome {
    if tx in channels then TrySendOutcome(channels[tx]) else Closed
  }

  function SendAt(channels: ChannelTable, tx: ChannelId, m: ServerMessage): ChannelTable {
    if tx in channels then channels[tx := TrySend(channels[tx], m)] else channels
  }

  /** The channels after the message was offered to every entry in turn. */
  function Fanout(entries: seq<Entry>, channels: ChannelTable, m: ServerMessage): (after: ChannelTable)
    ensures after.Keys == channels.Keys
  {
    if entries == [] then channels else
      var k := |entries| - 1;
      SendAt(Fanout(entries[..k], channels, m), entries[k].tx, m)
  }

  /** The answer each entry's channel gave. */
  function Outcomes(entries: seq<Entry>, channels: ChannelTable, m: ServerMessage): (outcomes: seq<SendOutcome>)
    ensures |outcomes| == |entries|
  {
    if entries == [] then [] else
      var k := |entries| - 1;
      Outcomes(entries[..k], channels, m) + [OutcomeAt(Fanout(entries[..k], channels, m), entries[k].tx)]
  }

  function CountOutcome(outcomes: seq<SendOutcome>, o: SendOutcome): nat {
    if outcomes == [] then 0 else
      var k := |outcomes| - 1;
      CountOutcome(outcomes[..k], o) + if outcomes[k] == o then 1 else 0
  }

  /** The clients with an entry whose channel was closed. */
  function Failed(entries: seq<Entry>, outcomes: seq<SendOutcome>): set<ClientId>
    requires |outcomes| == |entries|
  {
    if entries == [] then {} else
      var k := |entries| - 1;
      Failed(entries[..k], outcomes[..k]) + if outcomes[k].Closed? then {entries[k].client} else {}
  }

  lemma {:induction false} FailedMeans(entries: seq<Entry>, outcomes: seq<SendOutcome>, client: ClientId)
    requires |outcomes| == |entries|
    ensures client in Failed(entries, outcomes)
       <==> exists i :: 0 <= i < |entries| && outcomes[i].Closed? && entries[i].client == client
  {
    if entries != [] {
      var k := |entries| - 1;
      FailedMeans(entries[..k], outcomes[..k], client);
      if client in Failed(entries[..k], outcomes[..k]) {
        var i :| 0 <= i < k && outcomes[..k][i].Closed? && entries[..k][i].client == client;
        assert outcomes[i].Closed? && entries[i].client == client;
      }
      if i :| 0 <= i < k && outcomes[i].Closed? && entries[i].client == client {
        assert outcomes[..k][i].Closed? && entries[..k][i].client == client;
      }
    }
  }

  /** `Vec::retain` of the entries whose client is not in the set. */
  function Retain(entries: seq<Entry>, gone: set<ClientId>): seq<Entry> {
    if entries == [] then [] else
      var k := |entries| - 1;
      Retain(entries[..k], gone) + if entries[k].client in gone then [] else [entries[k]]
  }

  /** The end of a broadcast: the clients whose channel was found closed lose their entries. */
  function AfterDrop(rooms: RoomTable, room: DocumentId, failed: set<ClientId>): RoomTable {
    if room !in rooms || failed == {} then rooms else WithEntries(rooms, room, Retain(rooms[room], failed))
  }

  /** Retaining keeps, in their order, just the entries whose client is not in the set. */
  lemma {:induction false} RetainKeepsTheOthers(entries: seq<Entry>, gone: set<ClientId>) returns (at: seq<nat>)
    ensures |at| == |Retain(entries, gone)|
    ensures forall k :: 0 <= k < |at| ==>
              at[k] < |entries| && entries[at[k]].client !in gone && Retain(entries, gone)[k] == entries[at[k]]
    ensures forall k, l :: 0 <= k < l < |at| ==> at[k] < at[l]
    ensures forall i: nat :: i < |entries| && entries[i].client !in gone ==> i in at
  {
    if entries == [] {
      at := [];
    } else {
      var n := |entries| - 1;
      var front := RetainKeepsTheOthers(entries[..n], gone);
      at := front + if entries[n].client in gone then [] else [n];
      forall i: nat | i < |entries| && entries[i].client !in gone ensures i in at {
        if i < n {
          assert entries[..n][i] == entries[i];
          assert i in front;
        }
      }
    }
  }

  /** A leave takes the client out of that room, the end of a broadcast the clients that failed; nothing else changes. */
  lemma OtherRoomsStay(rooms: RoomTable, room: DocumentId, client: ClientId, failed: set<ClientId>)
    requires forall d :: d in rooms ==> rooms[d] != []
    ensures var left, dropped := AfterLeave(rooms, room, client), AfterDrop(rooms, room, failed);
            && EntriesOf(left, room) == Retain(EntriesOf(rooms, room), {client})
            && EntriesOf(dropped, room) == Retain(EntriesOf(rooms, room), failed)
            && (forall d :: d != room ==> EntriesOf(left, d) == EntriesOf(rooms, d) == EntriesOf(dropped, d))
            && (forall d :: d in left ==> left[d] != []) && (forall d :: d in dropped ==> dropped[d] != [])
  {
    hide Retain;
    NobodyToRetain({client});
    NobodyToRetain(failed);
    RetainNobody(EntriesOf(rooms, room));
  }

  lemma NobodyToRetain(gone: set<ClientId>)
    ensures Retain([], gone) == []
  {
  }

  function AfterBroadcast(rooms: RoomTable, channels: ChannelTable, room: DocumentId, m: ServerMessage): RoomTable {
    if room !in rooms then rooms else AfterDrop(rooms, room, Failed(rooms[room], Outcomes(rooms[room], channels, m)))
  }

  function AfterLeave(rooms: RoomTable, room: DocumentId, client: ClientId): RoomTable {
    if room !in rooms then rooms else WithEntries(rooms, room, Retain(rooms[room], {client}))
  }

  function AfterJoin(rooms: RoomTable, room: DocumentId, client: ClientId, tx: ChannelId): RoomTable {
    rooms[room := EntriesOf(rooms, room) + [Entry(client, tx)]]
  }

  // ---------- the coordinator ----------

  class RoomsCoordinator {
    var rooms: RoomTable
    var channels: ChannelTable
    var acks: set<nat>
    var fanoutDrops: U64

    constructor ()
      ensures rooms == map[] && channels == map[] && acks == {} && fanoutDrops == 0
    {
      rooms, channels, acks, fanoutDrops := map[], map[], {}, 0;
    }

    method HandleJoin(room: DocumentId, client: ClientId, tx: ChannelId, respondTo: nat)
      modifies this`rooms, this`acks
      ensures rooms == AfterJoin(old(rooms), room, client, tx)
      ensures rooms.Keys == old(rooms).Keys + {room} && rooms[room] == EntriesOf(old(rooms), room) + [Entry(client, tx)]
      ensures forall d :: d in old(rooms) && d != room ==> rooms[d] == old(rooms)[d]
      ensures acks == old(acks) + {respondTo}
    {
      if room !in rooms {
        rooms := rooms[room := []];
      }
      rooms := rooms[room := rooms[room] + [Entry(client, tx)]];
      acks := acks + {respondTo};
    }

    method HandleLeave(room: DocumentId, client: ClientId)
      modifies this`rooms
      ensures rooms == AfterLeave(old(rooms), room, client)
    {
      if room in rooms {
        var clients := RetainOthers(rooms[room], {client});
        rooms := rooms[room := clients];
        if clients == [] {
          rooms := rooms - {room};
        }
      }
    }

    /** One turn of the fan-out loop; what becomes of a closed entry is up to the loop. */
    method OfferTo(e: Entry, m: ServerMessage) returns (outcome: SendOutcome)
      modifies this`channels, this`fanoutDrops
      ensures outcome == OutcomeAt(old(channels), e.tx)
      ensures channels == SendAt(old(channels), e.tx, m)
      ensures fanoutDrops == if outcome.Full? then Bump(old(fanoutDrops)) else old(fanoutDrops)
    {
      outcome := OutcomeAt(channels, e.tx);
      channels := SendAt(channels, e.tx, m);
      if outcome.Full? {
        fanoutDrops := Bump(fanoutDrops);
      }
    }

    method DropFailed(room: DocumentId, failedClients: set<ClientId>)
      modifies this`rooms
      ensures rooms == AfterDrop(old(rooms), room, failedClients)
    {
      if room in rooms && failedClients != {} {
        var clients := RetainOthers(rooms[room], failedClients);
        rooms := rooms[room := clients];
        if clients == [] {
          rooms := rooms - {room};
        }
      }
    }

    /** The whole broadcast, when nothing else touches the channels meanwhile. */
    method HandleBroadcast(room: DocumentId, m: ServerMessage)
      modifies this`rooms, this`channels, this`fanoutDrops
      ensures rooms == AfterBroadcast(old(rooms), old(channels), room, m)
      ensures channels == Fanout(EntriesOf(old(rooms), room), old(channels), m)
      ensures fanoutDrops
           == (old(fanoutDrops) + CountOutcome(Outcomes(EntriesOf(old(rooms), room), old(channels), m), Full)) % TWO_TO_64
    {
      hide Fanout, Outcomes, CountOutcome, Failed, SendAt, OutcomeAt, AfterDrop;
      FanoutToNobody(channels, m);
      if room in rooms {
        var clients := rooms[room];
        var failedClients: set<ClientId> := {};
        for i := 0 to |clients|
          invariant rooms == old(rooms)
          invariant channels == Fanout(clients[..i], old(channels), m)
          invariant fanoutDrops == (old(fanoutDrops) + CountOutcome(Outcomes(clients[..i], old(channels), m), Full)) % TWO_TO_64
          invariant failedClients == Failed(clients[..i], Outcomes(clients[..i], old(channels), m))
        {
          FanoutOneMore(clients, i, old(channels), m);
          var outcome := OfferTo(clients[i], m);
          if outcome.Closed? {
            failedClients := failedClients + {clients[i].client};
          }
        }
        assert clients[..|clients|] == clients;
        DropFailed(room, failedClients);
      }
    }

    method Handle(command: RoomCommand)
      modifies this
      ensures rooms == RoomsAfter(old(rooms), old(channels), command)
      ensures channels == ChannelsAfter(old(rooms), old(channels), command)
      ensures acks == AcksAfter(old(acks), command)
      ensures fanoutDrops == DropsAfter(old(rooms), old(channels), old(fanoutDrops), command)
    {
      match command
      case Join(room, client, tx, respondTo) => HandleJoin(room, client, tx, respondTo);
      case Leave(room, client) => HandleLeave(room, client);
      case Broadcast(room, m) => HandleBroadcast(room, m);
    }
  }

  method RetainOthers(entries: seq<Entry>, gone: set<ClientId>) returns (kept: seq<Entry>)
    ensures kept == Retain(entries, gone)
  {
    kept := [];
    for i := 0 to |entries|
      invariant kept == Retain(entries[..i], gone)
    {
      assert entries[..i + 1][..i] == entries[..i];
      if entries[i].client !in gone {
        kept := kept + [entries[i]];
      }
    }
    assert entries[..|entries|] == entries;
  }

  function RoomsAfter(rooms: RoomTable, channels: ChannelTable, command: RoomCommand): RoomTable {
    match command
    case Join(room, client, tx, _) => AfterJoin(rooms, room, client, tx)
    case Leave(room, client) => AfterLeave(rooms, room, client)
    case Broadcast(room, m) => AfterBroadcast(rooms, channels, room, m)
  }

  function ChannelsAfter(rooms: RoomTable, channels: ChannelTable, command: RoomCommand): ChannelTable {
    if command.Broadcast? then Fanout(EntriesOf(rooms, command.room), channels, command.message) else channels
  }

  function AcksAfter(acks: set<nat>, command: RoomCommand): set<nat> {
    if command.Join? then acks + {command.respondTo} else acks
  }

  function DropsAfter(rooms: RoomTable, channels: ChannelTable, drops: U64, command: RoomCommand): U64 {
    if command.Broadcast? then
      (drops + CountOutcome(Outcomes(EntriesOf(rooms, command.room), channels, command.message), Full)) % TWO_TO_64
    else drops
  }

  lemma FanoutToNobody(channels: ChannelTable, m: ServerMessage)
    ensures Fanout([], channels, m) == channels && Outcomes([], channels, m) == []
    ensures CountOutcome([], Full) == 0 && Failed([], []) == {}
  {
  }

  lemma FanoutSplit(entries: seq<Entry>, channels: ChannelTable, m: ServerMessage)
    requires entries != []
    ensures var k := |entries| - 1;
            Fanout(entries, channels, m) == SendAt(Fanout(entries[..k], channels, m), entries[k].tx, m)
  {
  }

  lemma FanoutOneMore(entries: seq<Entry>, i: nat, channels: ChannelTable, m: ServerMessage)
    requires i < |entries|
    ensures var before, outcomes := Fanout(entries[..i], channels, m), Outcomes(entries[..i], channels, m);
            var outcome := OutcomeAt(before, entries[i].tx);
            && Fanout(entries[..i + 1], channels, m) == SendAt(before, entries[i].tx, m)
            && Outcomes(entries[..i + 1], channels, m) == outcomes + [outcome]
            && CountOutcome(outcomes + [outcome], Full) == CountOutcome(outcomes, Full) + (if outcome.Full? then 1 else 0)
            && Failed(entries[..i + 1], outcomes + [outcome])
            == Failed(entries[..i], outcomes) + (if outcome.Closed? then {entries[i].client} else {})
  {
    hide Fanout, OutcomeAt, SendAt;
    FanoutSplit(entries[..i + 1], channels, m);
    var outcomes := Outcomes(entries[..i], channels, m);
    var more := outcomes + [OutcomeAt(Fanout(entries[..i], channels, m), entries[i].tx)];
    assert entries[..i + 1][..i] == entries[..i];
    assert more[..i] == outcomes;
  }

  // ---------- what a broadcast does ----------

  /** The number of entries that send to the channel. */
  function Shares(entries: seq<Entry>, tx: ChannelId): nat {
    if entries == [] then 0 else
      var k := |entries| - 1;
      Shares(entries[..k], tx) + if entries[k].tx == tx then 1 else 0
  }

  function Copies(m: ServerMessage, n: nat): seq<ServerMessage> {
    if n == 0 then [] else Copies(m, n - 1) + [m]
  }

  function Min(a: nat, b: nat): nat {
    if a < b then a else b
  }

  function Free(ch: Channel<ServerMessage>): nat {
    if ch.open && |ch.queue| < ch.capacity then ch.capacity - |ch.queue| else 0
  }

  /** A channel gets one copy for each entry that names it, for as long as there is room. */
  lemma {:induction false} FanoutFillsChannels(entries: seq<Entry>, channels: ChannelTable, m: ServerMessage, tx: ChannelId)
    requires tx in channels
    ensures Fanout(entries, channels, m)[tx]
         == channels[tx].(queue := channels[tx].queue + Copies(m, Min(Shares(entries, tx), Free(channels[tx]))))
  {
    if entries == [] {
      assert channels[tx].queue + [] == channels[tx].queue;
    } else {
      FanoutFillsChannels(entries[..|entries| - 1], channels, m, tx);
      CopiesCount(m, Min(Shares(entries[..|entries| - 1], tx), Free(channels[tx])));
      var n := Min(Shares(entries[..|entries| - 1], tx), Free(channels[tx]));
      assert channels[tx].queue + (Copies(m, n) + [m]) == channels[tx].queue + Copies(m, n) + [m];
    }
  }

  lemma CopiesCount(m: ServerMessage, n: nat)
    ensures |Copies(m, n)| == n
  {
  }

  /**
   The answer to an entry, read off the state before the broadcast: closed when the channel is; full
   when the entries before it that share its channel have used up the room; and sent otherwise.
   */
  function Answer(entries: seq<Entry>, channels: ChannelTable, i: nat): SendOutcome
    requires i < |entries|
  {
    var tx := entries[i].tx;
    if tx !in channels || !channels[tx].open then Closed
    else if Shares(entries[..i], tx) >= Free(channels[tx]) then Full
    else Sent
  }

  lemma LastIsAnswer(entries: seq<Entry>, channels: ChannelTable, m: ServerMessage)
    requires entries != []
    ensures var k := |entries| - 1;
            OutcomeAt(Fanout(entries[..k], channels, m), entries[k].tx) == Answer(entries, channels, k)
  {
    hide Fanout, Copies, Shares;
    var k, tx := |entries| - 1, entries[|entries| - 1].tx;
    if tx in channels {
      FanoutFillsChannels(entries[..k], channels, m, tx);
      CopiesCount(m, Min(Shares(entries[..k], tx), Free(channels[tx])));
    }
  }

  lemma {:induction false} OutcomesAreAnswers(entries: seq<Entry>, channels: ChannelTable, m: ServerMessage)
    ensures forall i :: 0 <= i < |entries| ==> Outcomes(entries, channels, m)[i] == Answer(entries, channels, i)
  {
    if entries != [] {
      var k := |entries| - 1;
      OutcomesAreAnswers(entries[..k], channels, m);
      LastIsAnswer(entries, channels, m);
      hide Fanout, OutcomeAt, Shares, Free;
      forall i | 0 <= i < |entries| ensures Outcomes(entries, channels, m)[i] == Answer(entries, channels, i) {
        if i < k {
          assert entries[..k][..i] == entries[..i];
        }
      }
    }
  }

  /** Every entry is answered once: deliveries, full drops and closed failures add up. */
  lemma OutcomesAddUp(outcomes: seq<SendOutcome>)
    ensures CountOutcome(outcomes, Sent) + CountOutcome(outcomes, Full) + CountOutcome(outcomes, Closed) == |outcomes|
  {
  }

  /** The entries whose channel is open, in their order. */
  function OpenEntries(entries: seq<Entry>, channels: ChannelTable): seq<Entry> {
    if entries == [] then [] else
      var k := |entries| - 1;
      OpenEntries(entries[..k], channels) + if IsOpen(channels, entries[k].tx) then [entries[k]] else []
  }

  predicate IsOpen(channels: ChannelTable, tx: ChannelId) {
    tx in channels && channels[tx].open
  }

  lemma RetainIsOpen(entries: seq<Entry>, channels: ChannelTable, failed: set<ClientId>)
    requires forall e :: e in entries ==> (e.client in failed <==> !IsOpen(channels, e.tx))
    ensures Retain(entries, failed) == OpenEntries(entries, channels)
  {
  }

  /**
   When a client id stands for one channel, a broadcast leaves in its room exactly the entries whose
   channel is open, in their order, and no room without entries; it leaves the other rooms alone.
   */
  lemma BroadcastDropsClosed(rooms: RoomTable, channels: ChannelTable, room: DocumentId, m: ServerMessage)
    requires room in rooms
    requires forall d :: d in rooms ==> rooms[d] != []
    requires forall i, j :: 0 <= i < |rooms[room]| && 0 <= j < |rooms[room]| && rooms[room][i].client == rooms[room][j].client
                        ==> rooms[room][i].tx == rooms[room][j].tx
    ensures var after := AfterBroadcast(rooms, channels, room, m);
            && EntriesOf(after, room) == OpenEntries(rooms[room], channels)
            && (room in after <==> OpenEntries(rooms[room], channels) != [])
            && forall d :: d != room ==> (d in after <==> d in rooms) && EntriesOf(after, d) == EntriesOf(rooms, d)
  {
    var entries := rooms[room];
    var outcomes := Outcomes(entries, channels, m);
    var failed := Failed(entries, outcomes);
    OutcomesAreAnswers(entries, channels, m);
    forall e | e in entries ensures e.client in failed <==> !IsOpen(channels, e.tx) {
      var i :| 0 <= i < |entries| && entries[i] == e;
      assert outcomes[i].Closed? <==> !IsOpen(channels, e.tx);
      FailedMeans(entries, outcomes, e.client);
      if e.client in failed {
        var j :| 0 <= j < |entries| && outcomes[j].Closed? && entries[j].client == e.client;
        assert entries[j].tx == e.tx;
      }
    }
    RetainIsOpen(entries, channels, failed);
    if failed == {} {
      RetainNobody(entries);
    }
  }

  lemma {:induction false} RetainNobody(entries: seq<Entry>)
    ensures Retain(entries, {}) == entries
  {
    if entries != [] {
      var k := |entries| - 1;
      RetainNobody(entries[..k]);
      assert entries == entries[..k] + [entries[k]];
    }
  }
}
