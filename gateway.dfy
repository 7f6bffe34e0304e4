/** `MatchmakingGateway`: the socket gateway that keeps one waiting queue per
    game mode and pairs the two clients of a queue as soon as there are two.
    Sockets are client identifiers, `emit('matched', …)` appends to `outbox`,
    and `uuid.v4` is the counter `nextRoomId`. Every method is proved to
    change the gateway exactly as the function of the same name in module
    Matchmaking says. */
module Gateway {
  import opened Rooms
  import opened JsArray
  import Matchmaking

  class MatchmakingGateway {
    /** `masterQueue`: one FIFO queue of waiting clients per game mode. */
    const masterQueue: array<seq<ClientId>>
    /** The shared `gameRooms` list this gateway registers its rooms in. */
    const gameRooms: RoomList
    /** The `matched` notifications sent so far, oldest first. */
    var outbox: seq<Matchmaking.Notice>
    /** The identifier the next room receives. */
    var nextRoomId: RoomId

    ghost predicate Valid() {
      masterQueue.Length == ModeCount
    }

    /** The gateway's state as a value. */
    ghost function State(): (s: Matchmaking.GatewayState)
      requires Valid()
      reads this, masterQueue, gameRooms
      ensures Matchmaking.WellFormed(s)
    {
      Matchmaking.GatewayState(masterQueue[..], gameRooms.rooms, outbox, nextRoomId)
    }

    /** A gateway with three empty queues over the shared room list. */
    constructor (gameRooms: RoomList)
      ensures Valid() && fresh(masterQueue) && this.gameRooms == gameRooms
      ensures State() == Matchmaking.Start.(rooms := gameRooms.rooms)
    {
      masterQueue := new seq<ClientId>[ModeCount](_ => []);
      this.gameRooms := gameRooms;
      outbox := [];
      nextRoomId := 0;
      new;
      assert masterQueue[..] == [[], [], []];
    }

    /** `joinQueue(client, gameMode)`. */
    method JoinQueue(client: ClientId, gameMode: int)
      requires Valid() && Matchmaking.ValidMode(gameMode)
      modifies this, masterQueue, gameRooms
      ensures Valid()
      ensures State() == Matchmaking.JoinQueue(old(State()), client, gameMode)
      ensures Matchmaking.QueuesShort(old(State())) ==> Matchmaking.QueuesShort(State())
    {
      if Matchmaking.QueuesShort(State()) {
        Matchmaking.StepKeepsQueuesShort(State(), Matchmaking.Join(client, gameMode));
      }
      masterQueue[gameMode] := masterQueue[gameMode] + [client];
      MatchPlayers(gameMode);
    }

    /** `leaveQueue(client, gameMode)`. */
    method LeaveQueue(client: ClientId, gameMode: int)
      requires Valid() && Matchmaking.ValidMode(gameMode)
      modifies masterQueue
      ensures Valid()
      ensures State() == Matchmaking.LeaveQueue(old(State()), client, gameMode)
      ensures Matchmaking.QueuesShort(old(State())) ==> Matchmaking.QueuesShort(State())
    {
      if Matchmaking.QueuesShort(State()) {
        Matchmaking.StepKeepsQueuesShort(State(), Matchmaking.Leave(client, gameMode));
      }
      var index := IndexOf(masterQueue[gameMode], client);
      masterQueue[gameMode] := SpliceOne(masterQueue[gameMode], index);
    }

    /** `matchPlayers(gameMode)`. */
    method MatchPlayers(gameMode: int)
      requires Valid() && Matchmaking.ValidMode(gameMode)
      modifies this, masterQueue, gameRooms
      ensures Valid()
      ensures State() == Matchmaking.MatchPlayers(old(State()), gameMode)
    {
      if |masterQueue[gameMode]| == 2 {
        var (p1, rest) := Shift(masterQueue[gameMode]);
        masterQueue[gameMode] := rest;
        var (p2, rest') := Shift(masterQueue[gameMode]);
        masterQueue[gameMode] := rest';
        var roomId := nextRoomId;
        nextRoomId := nextRoomId + 1;

        var room := Room(roomId, gameMode, p1, p2);
        gameRooms.Push(room);

        outbox := outbox + [Matchmaking.Matched(p2, roomId)];
        outbox := outbox + [Matchmaking.Matched(p1, roomId)];
      }
    }
  }

  /** Clients `a` and `b` join mode 0 of a new gateway one after the other,
      then `c` joins mode 0 alone: `b` and then `a` are told the same room
      identifier, and `c` receives nothing and stays queued. */
  method TwoPlayersMatchedThirdWaits(a: ClientId, b: ClientId, c: ClientId)
    returns (notices: seq<Matchmaking.Notice>, waiting: seq<ClientId>)
    ensures |notices| == 2
    ensures notices[0].to == b && notices[1].to == a
    ensures notices[0].roomId == notices[1].roomId
    ensures waiting == [c]
  {
    var rooms := new RoomList();
    var gateway := new MatchmakingGateway(rooms);
    gateway.JoinQueue(a, 0);
    gateway.JoinQueue(b, 0);
    gateway.JoinQueue(c, 0);
    notices := gateway.outbox;
    waiting := gateway.masterQueue[0];
  }
}
