/** `RoomsService` (src/rooms/rooms.service.ts): the in-memory registry of
    waiting rooms, keyed by invite code. Each operation looks the room up,
    applies the matching function of module Lobby, and stores the result
    back under the same key (or removes the key when the room empties). */
module RoomsRegistry {
  import opened Common
  import opened Lobby

  class RoomsService {
    var rooms: map<string, Room>

    /** Every stored room sits under its own id and satisfies RoomValid. */
    ghost predicate Valid()
      reads this
    {
      forall id :: id in rooms ==> rooms[id].id == id && RoomValid(rooms[id])
    }

    constructor ()
      ensures Valid() && rooms == map[]
    {
      rooms := map[];
    }

    /** `createRoom`. The invite code (drawn by `nanoid(6)`) and the creation
        time are parameters; a code already in use is overwritten, as
        `Map.set` does. */
    method CreateRoom(roomId: string, hostId: int, settings: Settings, createdAt: int) returns (room: Room)
      requires Valid()
      modifies this
      ensures Valid()
      ensures room == NewRoom(roomId, hostId, settings, createdAt)
      ensures rooms == old(rooms)[roomId := room]
    {
      room := NewRoom(roomId, hostId, settings, createdAt);
      rooms := rooms[roomId := room];
    }

    /** `getRoom`: the stored room, or NotFound. */
    method GetRoom(roomId: string) returns (r: Result<Room>)
      ensures r.Success? <==> roomId in rooms
      ensures r.Success? ==> r.value == rooms[roomId]
      ensures r.Failure? ==> r.error == RoomNotFound && r.error.IsNotFound()
    {
      if roomId in rooms {
        r := Success(rooms[roomId]);
      } else {
        r := Failure(RoomNotFound);
      }
    }

    /** `addPlayerToRoom`; `coinRed` is the draw of `Math.random() < 0.5`. */
    method AddPlayerToRoom(roomId: string, player: Joiner, coinRed: bool) returns (r: Result<Room>)
      requires Valid()
      modifies this
      ensures Valid()
      ensures roomId !in old(rooms) ==> r == Failure(RoomNotFound)
      ensures roomId in old(rooms) ==> r == Join(old(rooms)[roomId], player, coinRed)
      ensures rooms == if r.Success? then old(rooms)[roomId := r.value] else old(rooms)
    {
      r := GetRoom(roomId);
      if r.Success? {
        r := Join(r.value, player, coinRed);
        if r.Success? {
          JoinPreservesValid(rooms[roomId], player, coinRed);
          rooms := rooms[roomId := r.value];
        }
      }
    }

    /** `removePlayerFromRoom`: `None` stands for the source's `null`, returned
        for an unknown room and for a room that the departure emptied, which
        is then deleted from the registry. */
    method RemovePlayerFromRoom(roomId: string, socketId: string) returns (r: Option<Room>)
      requires Valid()
      modifies this
      ensures Valid()
      ensures roomId !in old(rooms) ==> r == None && rooms == old(rooms)
      ensures roomId in old(rooms) ==> r == Leave(old(rooms)[roomId], socketId)
      ensures roomId in old(rooms) ==>
        rooms == if r.None? then old(rooms) - {roomId} else old(rooms)[roomId := r.value]
    {
      if roomId !in rooms {
        return None;
      }
      r := Leave(rooms[roomId], socketId);
      match r
      case None =>
        rooms := rooms - {roomId};
      case Some(room) =>
        LeavePreservesValid(rooms[roomId], socketId);
        rooms := rooms[roomId := room];
    }

    /** `updatePlayerStatus`. */
    method UpdatePlayerStatus(roomId: string, socketId: string, isReady: bool) returns (r: Result<Room>)
      requires Valid()
      modifies this
      ensures Valid()
      ensures roomId !in old(rooms) ==> r == Failure(RoomNotFound) && rooms == old(rooms)
      ensures roomId in old(rooms) ==>
        r == Success(SetReady(old(rooms)[roomId], socketId, isReady)) && rooms == old(rooms)[roomId := r.value]
    {
      r := GetRoom(roomId);
      if r.Success? {
        SetReadyPreservesValid(r.value, socketId, isReady);
        r := Success(SetReady(r.value, socketId, isReady));
        rooms := rooms[roomId := r.value];
      }
    }

    /** `updateRoomSettings`. */
    method UpdateRoomSettings(roomId: string, userId: int, settings: Settings) returns (r: Result<Room>)
      requires Valid()
      modifies this
      ensures Valid()
      ensures roomId !in old(rooms) ==> r == Failure(RoomNotFound)
      ensures roomId in old(rooms) ==> r == UpdateSettings(old(rooms)[roomId], userId, settings)
      ensures rooms == if r.Success? then old(rooms)[roomId := r.value] else old(rooms)
    {
      r := GetRoom(roomId);
      if r.Success? {
        r := UpdateSettings(r.value, userId, settings);
        if r.Success? {
          rooms := rooms[roomId := r.value];
        }
      }
    }

    /** `changeTeam`. */
    method ChangePlayerTeam(roomId: string, initiatorId: int, targetId: int) returns (r: Result<Room>)
      requires Valid()
      modifies this
      ensures Valid()
      ensures roomId !in old(rooms) ==> r == Failure(RoomNotFound)
      ensures roomId in old(rooms) ==> r == ChangeTeam(old(rooms)[roomId], initiatorId, targetId)
      ensures rooms == if r.Success? then old(rooms)[roomId := r.value] else old(rooms)
    {
      r := GetRoom(roomId);
      if r.Success? {
        var room := r.value;
        r := ChangeTeam(room, initiatorId, targetId);
        if r.Success? {
          ChangeTeamPreservesValid(room, initiatorId, targetId);
          rooms := rooms[roomId := r.value];
        }
      }
    }

    /** `kickPlayer`: the three checks in the source's order, then the
        departure path of `removePlayerFromRoom` for the target's socket. */
    method KickPlayer(roomId: string, requesterId: int, targetId: int) returns (r: Result<Kicked>)
      requires Valid()
      modifies this
      ensures Valid()
      ensures roomId !in old(rooms) ==> r == Failure(RoomNotFound) && rooms == old(rooms)
      ensures roomId in old(rooms) ==> r == Kick(old(rooms)[roomId], requesterId, targetId)
      ensures r.Failure? ==> rooms == old(rooms)
      ensures r.Success? ==>
        rooms == if r.value.room.None? then old(rooms) - {roomId} else old(rooms)[roomId := r.value.room.value]
    {
      var got := GetRoom(roomId);
      if got.Failure? {
        return Failure(got.error);
      }
      var room := got.value;
      if room.hostId != requesterId {
        return Failure(NotHostForKick);
      }
      if requesterId == targetId {
        return Failure(KickSelf);
      }
      var found := FindId(room.players, targetId);
      if found.None? {
        return Failure(KickTargetNotFound);
      }
      var socketId := room.players[found.value].socketId;
      var updated := RemovePlayerFromRoom(roomId, socketId);
      r := Success(Kicked(updated, socketId));
    }

    /** `updateHost`. */
    method UpdateHostOf(roomId: string, newHostId: int) returns (r: Result<Room>)
      requires Valid()
      modifies this
      ensures Valid()
      ensures roomId !in old(rooms) ==> r == Failure(RoomNotFound)
      ensures roomId in old(rooms) ==> r == UpdateHost(old(rooms)[roomId], newHostId)
      ensures rooms == if r.Success? then old(rooms)[roomId := r.value] else old(rooms)
    {
      r := GetRoom(roomId);
      if r.Success? {
        var room := r.value;
        r := UpdateHost(room, newHostId);
        if r.Success? {
          UpdateHostPreservesValid(room, newHostId);
          rooms := rooms[roomId := r.value];
        }
      }
    }
  }
}
