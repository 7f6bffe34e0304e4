# Matchmaking gateway model

A Dafny model of the matchmaking queue of the `transcendence` back end
(`MatchmakingGateway` in `nest-back/src/matchmaking/matchmaking.gateway.ts`).
The gateway keeps one FIFO queue of waiting clients for each of three game
modes. `joinQueue` appends a client to its mode's queue and then calls
`matchPlayers`. `leaveQueue` removes a client with `indexOf` and `splice`.
`matchPlayers` fires only when the mode's queue holds exactly two clients. It
shifts both of them off, registers a `GameRoom` for them in the shared
`gameRooms` list and sends each of them `matched(roomId)`.

Files:

- `js_array.dfy` (module `JsArray`): the JavaScript array built-ins the gateway
  uses (`indexOf`, `splice(start, 1)` including negative starts, `shift`).
- `rooms.dfy` (module `Rooms`): client and room identifiers, the three modes,
  the `Room` record and the shared, only-growing room list (a class, since the
  list is shared by reference and mutated with `push`).
- `matchmaking.dfy` (module `Matchmaking`): the gateway as a state machine on
  values (`GatewayState`: queues, rooms, notifications sent, next room id).
  It also holds the lemmas about any sequence of calls.
- `gateway.dfy` (module `Gateway`): the class `MatchmakingGateway`. Its
  `masterQueue` is an `array<seq<ClientId>>` whose entries are updated in
  place. Each method is proved to change the object exactly as the
  same-named function of `Matchmaking` says.

The model keeps the source's quirks as written:

- `leaveQueue` does not guard against `indexOf` returning -1. For a client
  that is not waiting, `splice(-1, 1)` removes the last waiting client
  (`Matchmaking.LeaveByStrangerEvictsWaitingClient`).
- `joinQueue` does not check for a duplicate join, so a client can be matched
  against itself (`Matchmaking.DuplicateJoinMatchesClientWithItself`).
- The trigger is an exact `== 2`, not `>= 2`.

Stand-ins:

- A socket is a `ClientId`.
- `emit('matched', roomId)` appends a `Matched(to, roomId)` notice to the
  gateway's outbox.
- `uuid.v4` is a counter `nextRoomId`. Identifiers are therefore distinct by
  construction for the rooms the gateway makes.
- A `gameMode` outside 0..2 makes the source throw a `TypeError`
  (`masterQueue[gameMode]` is `undefined`). The model excludes it with a
  precondition on every operation.

## Model

| member | source | states |
|---|---|---|
| JsArray.IndexOf | nest-back/src/matchmaking/matchmaking.gateway.ts:32 | `indexOf` gives -1 exactly when the client is absent, otherwise the position of its first occurrence |
| JsArray.SpliceOne | nest-back/src/matchmaking/matchmaking.gateway.ts:33 | `splice(start, 1)` removes the element at an in-range start, counts a negative start from the end (so -1 removes the last element, and nothing on an empty array) and removes nothing past the end |
| JsArray.Shift | nest-back/src/matchmaking/matchmaking.gateway.ts:39-40 | `shift` returns the head, and putting it back in front of the rest gives the original queue |
| Rooms.RoomList.Push | nest-back/src/matchmaking/matchmaking.gateway.ts:45 | `gameRooms.push(room)` appends the room and keeps the existing rooms |
| Matchmaking.MatchPlayers | nest-back/src/matchmaking/matchmaking.gateway.ts:37-52 | nothing changes unless the queue holds exactly two clients; otherwise the old head is `p1` and the second `p2`, the queue becomes empty, other modes' queues are unchanged, exactly one room `(fresh id, mode, p1, p2)` is appended after the existing rooms, and `matched(id)` goes to `p2` then `p1` with the same id |
| Matchmaking.JoinQueue | nest-back/src/matchmaking/matchmaking.gateway.ts:25-28 | the client is appended at the back of its mode's queue with the existing order kept; if one client was waiting, the two are matched at once (waiting client as `p1`, joiner as `p2`) and the queue empties; other modes are untouched |
| Matchmaking.LeaveQueue | nest-back/src/matchmaking/matchmaking.gateway.ts:31-34 | a present client's first occurrence is removed and the rest keep their order; for an absent client the last waiting client is removed (none on an empty queue); rooms, notifications and other queues are unchanged |
| Matchmaking.StepKeepsQueuesShort | nest-back/src/matchmaking/matchmaking.gateway.ts:25-40 | a join or leave keeps every queue at length at most one |
| Matchmaking.RunKeepsQueuesShort | nest-back/src/matchmaking/matchmaking.gateway.ts:25-40 | any sequence of joins and leaves keeps every queue at length at most one |
| Matchmaking.QueuesShortAfterAnyCalls | nest-back/src/matchmaking/matchmaking.gateway.ts:12-40 | from three empty queues, every queue holds at most one client after any sequence of joins and leaves |
| Matchmaking.Announcements | nest-back/src/matchmaking/matchmaking.gateway.ts:49-50 | the rooms in registration order give rise to two notices each |
| Matchmaking.AnnouncementsAt | nest-back/src/matchmaking/matchmaking.gateway.ts:49-50 | the notices for the k-th room are at positions 2k and 2k+1: `p2` then `p1`, both with that room's id |
| Matchmaking.MatchKeepsConsistent | nest-back/src/matchmaking/matchmaking.gateway.ts:38-50 | a match keeps the outbox equal to the rooms' announcements, room ids strictly increasing and below the next id, and room modes valid |
| Matchmaking.StepKeepsConsistent | nest-back/src/matchmaking/matchmaking.gateway.ts:25-34 | a join or a leave keeps that consistency |
| Matchmaking.RunKeepsConsistent | nest-back/src/matchmaking/matchmaking.gateway.ts:25-50 | any sequence of calls keeps that consistency |
| Matchmaking.RoomsAnnouncedOnceWithDistinctIds | nest-back/src/matchmaking/matchmaking.gateway.ts:38-50 | from the start, after any calls, room ids are pairwise distinct, there are exactly two notices per room, and the k-th room's id went to its `p2` and then its `p1` |
| Matchmaking.JoinsPairInArrivalOrder | nest-back/src/matchmaking/matchmaking.gateway.ts:25-45 | when N clients join an empty queue one after another, N/2 rooms are appended: the k-th pairs arrivals 2k and 2k+1 with consecutive fresh ids; the last arrival stays queued exactly when N is odd; other queues and earlier rooms are unchanged |
| Matchmaking.DuplicateJoinMatchesClientWithItself | nest-back/src/matchmaking/matchmaking.gateway.ts:26-27 | a client joining an empty queue twice is matched against itself and told the room id twice |
| Matchmaking.LeaveByStrangerEvictsWaitingClient | nest-back/src/matchmaking/matchmaking.gateway.ts:32-33 | a leave from a client who is not queued removes the one client who is |
| Gateway.MatchmakingGateway.constructor | nest-back/src/matchmaking/matchmaking.gateway.ts:12 | a new gateway has three empty queues in a fresh array, no notices, and uses the given shared room list |
| Gateway.MatchmakingGateway.JoinQueue | nest-back/src/matchmaking/matchmaking.gateway.ts:25-28 | the in-place update equals `Matchmaking.JoinQueue` on the old state and keeps every queue at length at most one |
| Gateway.MatchmakingGateway.LeaveQueue | nest-back/src/matchmaking/matchmaking.gateway.ts:31-34 | the in-place update equals `Matchmaking.LeaveQueue` on the old state, touches only `masterQueue`, and keeps every queue at length at most one |
| Gateway.MatchmakingGateway.MatchPlayers | nest-back/src/matchmaking/matchmaking.gateway.ts:37-52 | the in-place update of queue, shared room list, outbox and id source equals `Matchmaking.MatchPlayers` on the old state |
| Gateway.TwoPlayersMatchedThirdWaits | nest-back/src/matchmaking/matchmaking.gateway.ts:12-50 | on a new gateway, after A and B join mode 0, B and then A receive `matched` with the same room id; C then joins alone, receives nothing and stays queued |

## Left out

- Transport: the socket.io `Server` and `Socket`, the `@SubscribeMessage` wiring and `console.log` are not modelled. `emit` is an outbox entry.
- `handleConnection` is not modelled. It only broadcasts a greeting and registers a `disconnect` handler that logs. There is no disconnect cleanup to model.
- `uuid.v4` is replaced by a counter, so its randomness is not modelled. Ids are distinct only among the rooms this gateway makes from its start. Rooms that other code pushes onto the shared `gameRooms` list are not covered.
- `GameRoom` and the `sharedRooms` module are not part of this model. A room is the record `(id, mode, p1, p2)` the gateway builds. The shared list starts empty in the lemmas about runs from the start.
- `gameMode` values outside 0..2, including non-integers, are excluded by a precondition. The source throws a `TypeError` there.
- Membership states, the room state machine, abandonment and the `AlreadyQueued`/`NotQueued` errors are not in the gateway's code, so they are not modelled.
- Concurrency: the gateway runs on the single-threaded JavaScript event loop. Calls are modelled as handled one at a time, in order of receipt.
- The friend-request controller, the two-factor authentication service and the friend-request entity are outside the matchmaking core.
