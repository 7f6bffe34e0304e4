/** The entities the gateway hands its matches to. `GameRoom` and the shared
    `gameRooms` list live in files that are not part of this model, so a room
    is only the record the gateway builds, and the shared list is an object
    whose sequence the gateway appends to. */
module Rooms {

  /** A connected socket, compared by identity. */
  type ClientId = nat

  /** A room identifier; the source draws one from `uuid.v4`. */
  type RoomId = nat

  /** Game modes are the indices of the three per-mode queues. */
  const ModeCount: nat := 3

  /** `new GameRoom(roomId, gameMode, p1, p2)`. */
  datatype Room = Room(id: RoomId, mode: int, p1: ClientId, p2: ClientId)

  /** The process-wide `gameRooms` array: shared by reference, it only grows. */
  class RoomList {
    var rooms: seq<Room>

    constructor ()
      ensures rooms == []
    {
      rooms := [];
    }

    /** `gameRooms.push(room)`. */
    method Push(room: Room)
      modifies this
      ensures rooms == old(rooms) + [room]
    {
      rooms := rooms + [room];
    }
  }
}
