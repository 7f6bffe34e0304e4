/** The matchmaking gateway as a state machine on values: what `joinQueue`,
    `leaveQueue` and `matchPlayers` do to the three per-mode queues, the
    shared room list, the notifications sent to clients and the source of
    room identifiers. The class in module Gateway is proved against these
    functions; the lemmas here state what any sequence of calls guarantees. */
module Matchmaking {
  import opened Rooms
  import opened JsArray

  /** `socket.emit('matched', roomId)` sent to client `to`. */
  datatype Notice = Matched(to: ClientId, roomId: RoomId)

  /** Everything the gateway's calls read or change. `nextRoomId` stands for
      `uuid.v4`: the identifier the next room receives. */
  datatype GatewayState = GatewayState(
    queues: seq<seq<ClientId>>,
    rooms: seq<Room>,
    outbox: seq<Notice>,
    nextRoomId: RoomId)

  predicate ValidMode(m: int) {
    0 <= m < ModeCount
  }

  /** There is exactly one queue per game mode. */
  predicate WellFormed(s: GatewayState) {
    |s.queues| == ModeCount
  }

  /** A freshly constructed gateway: `masterQueue = [[], [], []]`, and no
      room or notification yet. */
  const Start: GatewayState := GatewayState([[], [], []], [], [], 0)

  /** `matchPlayers(gameMode)`: when exactly two clients wait, the earlier is
      `p1` and the later `p2`, both leave the queue, one room is registered
      for them and both are told its identifier, `p2` first. */
  function MatchPlayers(s: GatewayState, m: int): (r: GatewayState)
    requires WellFormed(s) && ValidMode(m)
    ensures WellFormed(r)
    ensures |s.queues[m]| != 2 ==> r == s
    ensures |s.queues[m]| == 2 ==>
      && r.queues[m] == []
      && (forall i :: 0 <= i < ModeCount && i != m ==> r.queues[i] == s.queues[i])
      && |r.rooms| == |s.rooms| + 1
      && r.rooms[..|s.rooms|] == s.rooms
      && r.rooms[|s.rooms|] == Room(s.nextRoomId, m, s.queues[m][0], s.queues[m][1])
      && r.outbox == s.outbox + [Matched(s.queues[m][1], s.nextRoomId), Matched(s.queues[m][0], s.nextRoomId)]
      && r.nextRoomId > s.nextRoomId
  {
    var q := s.queues[m];
    if |q| == 2 then
      var (p1, q1) := Shift(q);
      var (p2, q2) := Shift(q1);
      var roomId := s.nextRoomId;
      GatewayState(
        s.queues[m := q2],
        s.rooms + [Room(roomId, m, p1, p2)],
        s.outbox + [Matched(p2, roomId), Matched(p1, roomId)],
        roomId + 1)
    else
      s
  }

  /** `joinQueue(client, gameMode)`: the client goes to the back of its
      mode's queue and, if one client was already waiting there, the two are
      matched at once. No check is made that the client is not queued
      already. */
  function JoinQueue(s: GatewayState, c: ClientId, m: int): (r: GatewayState)
    requires WellFormed(s) && ValidMode(m)
    ensures WellFormed(r)
    ensures forall i :: 0 <= i < ModeCount && i != m ==> r.queues[i] == s.queues[i]
    ensures |s.queues[m]| != 1 ==>
      r == s.(queues := s.queues[m := s.queues[m] + [c]])
    ensures |s.queues[m]| == 1 ==>
      && r.queues[m] == []
      && r.rooms == s.rooms + [Room(s.nextRoomId, m, s.queues[m][0], c)]
      && r.outbox == s.outbox + [Matched(c, s.nextRoomId), Matched(s.queues[m][0], s.nextRoomId)]
  {
    MatchPlayers(s.(queues := s.queues[m := s.queues[m] + [c]]), m)
  }

  /** `leaveQueue(client, gameMode)`: `splice(indexOf(client), 1)` on the
      mode's queue. A queued client's first occurrence is removed and the
      others keep their order; for a client that is not queued, `indexOf`
      gives -1 and the splice removes the LAST waiting client instead. */
  function LeaveQueue(s: GatewayState, c: ClientId, m: int): (r: GatewayState)
    requires WellFormed(s) && ValidMode(m)
    ensures WellFormed(r)
    ensures r.rooms == s.rooms && r.outbox == s.outbox && r.nextRoomId == s.nextRoomId
    ensures forall i :: 0 <= i < ModeCount && i != m ==> r.queues[i] == s.queues[i]
    ensures c in s.queues[m] ==>
      exists k :: 0 <= k < |s.queues[m]| && s.queues[m][k] == c && c !in s.queues[m][..k] &&
                  r.queues[m] == s.queues[m][..k] + s.queues[m][k + 1..]
    ensures c !in s.queues[m] ==>
      r.queues[m] == if s.queues[m] == [] then [] else s.queues[m][..|s.queues[m]| - 1]
  {
    var q := s.queues[m];
    var index := IndexOf(q, c);
    s.(queues := s.queues[m := SpliceOne(q, index)])
  }

  /** A client request the gateway handles. */
  datatype Call = Join(client: ClientId, mode: int) | Leave(client: ClientId, mode: int)

  predicate ValidCalls(calls: seq<Call>) {
    forall i :: 0 <= i < |calls| ==> ValidMode(calls[i].mode)
  }

  function Step(s: GatewayState, call: Call): (r: GatewayState)
    requires WellFormed(s) && ValidMode(call.mode)
    ensures WellFormed(r)
  {
    match call
    case Join(c, m) => JoinQueue(s, c, m)
    case Leave(c, m) => LeaveQueue(s, c, m)
  }

  /** The calls handled one after another, in order of receipt. */
  function Run(s: GatewayState, calls: seq<Call>): (r: GatewayState)
    requires WellFormed(s) && ValidCalls(calls)
    ensures WellFormed(r)
    decreases |calls|
  {
    if calls == [] then s
    else
      assert ValidMode(calls[0].mode);
      Run(Step(s, calls[0]), calls[1..])
  }

  /** No mode ever has more than one client waiting. */
  predicate QueuesShort(s: GatewayState) {
    forall m :: 0 <= m < |s.queues| ==> |s.queues[m]| <= 1
  }

  lemma StepKeepsQueuesShort(s: GatewayState, call: Call)
    requires WellFormed(s) && ValidMode(call.mode) && QueuesShort(s)
    ensures QueuesShort(Step(s, call))
  {
    var r := Step(s, call);
    forall i | 0 <= i < |r.queues|
      ensures |r.queues[i]| <= 1
    {
      if i == call.mode && call.Leave? {
        var q := s.queues[i];
        assert |SpliceOne(q, IndexOf(q, call.client))| <= |q|;
      }
    }
  }

  lemma {:induction false} RunKeepsQueuesShort(s: GatewayState, calls: seq<Call>)
    requires WellFormed(s) && ValidCalls(calls) && QueuesShort(s)
    ensures QueuesShort(Run(s, calls))
    decreases |calls|
  {
    if calls != [] {
      assert ValidMode(calls[0].mode);
      StepKeepsQueuesShort(s, calls[0]);
      assert ValidCalls(calls[1..]) by {
        forall i | 0 <= i < |calls[1..]| ensures ValidMode(calls[1..][i].mode) {
          assert calls[1..][i] == calls[i + 1];
        }
      }
      RunKeepsQueuesShort(Step(s, calls[0]), calls[1..]);
    }
  }

  /** Starting from three empty queues, whatever clients join or leave,
      every queue holds at most one client between calls. */
  lemma QueuesShortAfterAnyCalls(calls: seq<Call>)
    requires ValidCalls(calls)
    ensures QueuesShort(Run(Start, calls))
  {
    RunKeepsQueuesShort(Start, calls);
  }

  /** The `matched` notifications the rooms, in registration order, give
      rise to: `p2` then `p1`, each with the room's identifier. */
  function Announcements(rooms: seq<Room>): (r: seq<Notice>)
    ensures |r| == 2 * |rooms|
  {
    if rooms == [] then []
    else
      var last := rooms[|rooms| - 1];
      Announcements(rooms[..|rooms| - 1]) + [Matched(last.p2, last.id), Matched(last.p1, last.id)]
  }

  /** Every room's identifier reaches both of its players, and no other
      notification names it. */
  lemma {:induction false} AnnouncementsAt(rooms: seq<Room>, k: nat)
    requires k < |rooms|
    ensures Announcements(rooms)[2 * k] == Matched(rooms[k].p2, rooms[k].id)
    ensures Announcements(rooms)[2 * k + 1] == Matched(rooms[k].p1, rooms[k].id)
    decreases |rooms|
  {
    var init := rooms[..|rooms| - 1];
    if k < |rooms| - 1 {
      AnnouncementsAt(init, k);
      assert init[k] == rooms[k];
    }
  }

  /** What the gateway keeps true of the rooms it registers: the
      notifications sent are exactly those of the rooms, in order; room
      identifiers increase strictly in registration order and are all below
      the next one to be handed out; every room has a valid mode. */
  predicate Consistent(s: GatewayState) {
    && s.outbox == Announcements(s.rooms)
    && (forall i :: 0 <= i < |s.rooms| ==> s.rooms[i].id < s.nextRoomId && ValidMode(s.rooms[i].mode))
    && (forall i, j :: 0 <= i < j < |s.rooms| ==> s.rooms[i].id < s.rooms[j].id)
  }

  lemma MatchKeepsConsistent(s: GatewayState, m: int)
    requires WellFormed(s) && ValidMode(m) && Consistent(s)
    ensures Consistent(MatchPlayers(s, m))
  {
    var r := MatchPlayers(s, m);
    if |s.queues[m]| == 2 {
      assert r.rooms[..|r.rooms| - 1] == s.rooms;
    }
  }

  lemma StepKeepsConsistent(s: GatewayState, call: Call)
    requires WellFormed(s) && ValidMode(call.mode) && Consistent(s)
    ensures Consistent(Step(s, call))
  {
    match call
    case Join(c, m) =>
      MatchKeepsConsistent(s.(queues := s.queues[m := s.queues[m] + [c]]), m);
    case Leave(c, m) =>
  }

  lemma {:induction false} RunKeepsConsistent(s: GatewayState, calls: seq<Call>)
    requires WellFormed(s) && ValidCalls(calls) && Consistent(s)
    ensures Consistent(Run(s, calls))
    decreases |calls|
  {
    if calls != [] {
      assert ValidMode(calls[0].mode);
      StepKeepsConsistent(s, calls[0]);
      assert ValidCalls(calls[1..]) by {
        forall i | 0 <= i < |calls[1..]| ensures ValidMode(calls[1..][i].mode) {
          assert calls[1..][i] == calls[i + 1];
        }
      }
      RunKeepsConsistent(Step(s, calls[0]), calls[1..]);
    }
  }

  /** After any calls from the start: room identifiers are pairwise distinct,
      and the k-th room's identifier was sent to its `p2` and then its `p1`
      as the (2k)-th and (2k+1)-th notifications. */
  lemma RoomsAnnouncedOnceWithDistinctIds(calls: seq<Call>, k: nat)
    requires ValidCalls(calls)
    ensures var r := Run(Start, calls);
      && |r.outbox| == 2 * |r.rooms|
      && (forall i, j :: 0 <= i < |r.rooms| && 0 <= j < |r.rooms| && i != j ==> r.rooms[i].id != r.rooms[j].id)
      && (k < |r.rooms| ==>
            && r.outbox[2 * k] == Matched(r.rooms[k].p2, r.rooms[k].id)
            && r.outbox[2 * k + 1] == Matched(r.rooms[k].p1, r.rooms[k].id))
  {
    RunKeepsConsistent(Start, calls);
    var r := Run(Start, calls);
    forall i, j | 0 <= i < |r.rooms| && 0 <= j < |r.rooms| && i != j
      ensures r.rooms[i].id != r.rooms[j].id
    {
      if i < j { assert r.rooms[i].id < r.rooms[j].id; }
      else { assert r.rooms[j].id < r.rooms[i].id; }
    }
    if k < |r.rooms| {
      AnnouncementsAt(r.rooms, k);
    }
  }

  /** Clients `cs` joining mode `m` one after another. */
  function Joins(cs: seq<ClientId>, m: int): (calls: seq<Call>)
    ensures |calls| == |cs|
    ensures forall i :: 0 <= i < |cs| ==> calls[i] == Join(cs[i], m)
  {
    if cs == [] then [] else [Join(cs[0], m)] + Joins(cs[1..], m)
  }

  /** The first two joins of a longer run, taken together. */
  lemma RunTwoJoins(s: GatewayState, cs: seq<ClientId>, m: int)
    requires WellFormed(s) && ValidMode(m) && |cs| >= 2
    ensures ValidCalls(Joins(cs, m))
    ensures Run(s, Joins(cs, m)) == Run(JoinQueue(JoinQueue(s, cs[0], m), cs[1], m), Joins(cs[2..], m))
  {
    var calls := Joins(cs, m);
    assert calls[1..][1..] == Joins(cs[2..], m);
  }

  /** Strict arrival order: when clients join an empty queue one after
      another, the (2k)-th and (2k+1)-th arrivals form the k-th new room,
      with consecutive fresh identifiers; |cs| / 2 rooms are made, and the
      last arrival is left waiting exactly when |cs| is odd. */
  lemma {:induction false} JoinsPairInArrivalOrder(s: GatewayState, cs: seq<ClientId>, m: int)
    requires WellFormed(s) && ValidMode(m) && s.queues[m] == []
    ensures ValidCalls(Joins(cs, m))
    ensures |Run(s, Joins(cs, m)).rooms| == |s.rooms| + |cs| / 2
    ensures Run(s, Joins(cs, m)).rooms[..|s.rooms|] == s.rooms
    ensures forall k :: 0 <= k < |cs| / 2 ==>
      Run(s, Joins(cs, m)).rooms[|s.rooms| + k] == Room(s.nextRoomId + k, m, cs[2 * k], cs[2 * k + 1])
    ensures Run(s, Joins(cs, m)).queues[m] == cs[|cs| - |cs| % 2..]
    ensures forall i :: 0 <= i < ModeCount && i != m ==> Run(s, Joins(cs, m)).queues[i] == s.queues[i]
    decreases |cs|
  {
    var calls := Joins(cs, m);
    if |cs| == 0 {
    } else if |cs| == 1 {
      assert calls[1..] == [];
    } else {
      var s2 := JoinQueue(JoinQueue(s, cs[0], m), cs[1], m);
      var rest := cs[2..];
      RunTwoJoins(s, cs, m);
      JoinsPairInArrivalOrder(s2, rest, m);
      var r := Run(s2, Joins(rest, m));
      assert s2.rooms == s.rooms + [Room(s.nextRoomId, m, cs[0], cs[1])];
      assert r.rooms[..|s.rooms|] == s.rooms by {
        assert r.rooms[..|s.rooms|] == r.rooms[..|s2.rooms|][..|s.rooms|];
      }
      RoomsOfPairs(s, s2, r, cs, m);
      assert |rest| % 2 == |cs| % 2;
      assert rest[|rest| - |rest| % 2..] == cs[|cs| - |cs| % 2..];
    }
  }

  /** The inductive step of JoinsPairInArrivalOrder for the rooms. */
  lemma RoomsOfPairs(s: GatewayState, s2: GatewayState, r: GatewayState, cs: seq<ClientId>, m: int)
    requires |cs| >= 2
    requires s2.rooms == s.rooms + [Room(s.nextRoomId, m, cs[0], cs[1])]
    requires s2.nextRoomId == s.nextRoomId + 1
    requires |r.rooms| == |s2.rooms| + |cs[2..]| / 2
    requires r.rooms[..|s2.rooms|] == s2.rooms
    requires forall k :: 0 <= k < |cs[2..]| / 2 ==>
      r.rooms[|s2.rooms| + k] == Room(s2.nextRoomId + k, m, cs[2..][2 * k], cs[2..][2 * k + 1])
    ensures forall k :: 0 <= k < |cs| / 2 ==>
      r.rooms[|s.rooms| + k] == Room(s.nextRoomId + k, m, cs[2 * k], cs[2 * k + 1])
  {
    forall k | 0 <= k < |cs| / 2
      ensures r.rooms[|s.rooms| + k] == Room(s.nextRoomId + k, m, cs[2 * k], cs[2 * k + 1])
    {
      if k == 0 {
        assert r.rooms[|s.rooms|] == r.rooms[..|s2.rooms|][|s.rooms|];
      } else {
        var j := k - 1;
        assert 0 <= j < |cs[2..]| / 2;
        assert r.rooms[|s2.rooms| + j] == Room(s2.nextRoomId + j, m, cs[2..][2 * j], cs[2..][2 * j + 1]);
      }
    }
  }

  /** With no duplicate-join check, a client that joins the same mode twice
      while nobody waits there is matched against itself. */
  lemma DuplicateJoinMatchesClientWithItself(s: GatewayState, c: ClientId, m: int)
    requires WellFormed(s) && ValidMode(m) && s.queues[m] == []
    ensures var r := JoinQueue(JoinQueue(s, c, m), c, m);
      && r.rooms == s.rooms + [Room(s.nextRoomId, m, c, c)]
      && r.outbox == s.outbox + [Matched(c, s.nextRoomId), Matched(c, s.nextRoomId)]
  {
  }

  /** A `leaveQueue` from a client who is not waiting evicts whoever is. */
  lemma LeaveByStrangerEvictsWaitingClient(s: GatewayState, c: ClientId, w: ClientId, m: int)
    requires WellFormed(s) && ValidMode(m) && s.queues[m] == [w] && c != w
    ensures LeaveQueue(s, c, m).queues[m] == []
  {
  }
}
