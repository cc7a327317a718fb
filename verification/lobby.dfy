/** The waiting room as a value: players, teams, the host, and what each
    registry operation of `RoomsService` (src/rooms/rooms.service.ts) does to
    one room. The registry class in rooms_service.dfy applies these functions
    to the room stored under the requested id. */
module Lobby {
  import opened Common

  datatype TeamColor = Red | Blue

  datatype DeviceType = Mobile | Tablet | Desktop

  /** What a connection hands to the registry when it joins. */
  datatype Joiner = Joiner(id: int, nickname: string, socketId: string, deviceType: DeviceType)

  /** A room member. `isAi` is never set by a join (joiners do not carry it,
      so the source reads it as `undefined`); it is set on seats built by
      other means, such as test doubles of a match. */
  datatype Player = Player(
    id: int, nickname: string, socketId: string, deviceType: DeviceType,
    isReady: bool, team: TeamColor, isAi: bool)

  /** The match settings, all strings, with the field names the match
      service reads. */
  datatype Settings = Settings(
    handicap: string, komi: string, stoneColor: string,
    basicTime: string, countdownTime: string, countdownCount: string)

  datatype Room = Room(id: string, hostId: int, settings: Settings, players: seq<Player>, createdAt: int)

  const Capacity: nat := 4
  const TeamLimit: nat := 2

  // ---------------------------------------------------------------- counting

  function TeamCount(ps: seq<Player>, t: TeamColor): (n: nat)
    ensures n <= |ps|
  {
    if ps == [] then 0
    else TeamCount(ps[..|ps| - 1], t) + (if ps[|ps| - 1].team == t then 1 else 0)
  }

  /** Every player is on exactly one of the two teams. */
  lemma {:induction false} TeamsPartition(ps: seq<Player>)
    ensures TeamCount(ps, Red) + TeamCount(ps, Blue) == |ps|
  {
    if ps != [] {
      TeamsPartition(ps[..|ps| - 1]);
    }
  }

  predicate HasId(ps: seq<Player>, id: int) {
    exists i :: 0 <= i < |ps| && ps[i].id == id
  }

  predicate DistinctIds(ps: seq<Player>) {
    forall i, j :: 0 <= i < j < |ps| ==> ps[i].id != ps[j].id
  }

  predicate DistinctSockets(ps: seq<Player>) {
    forall i, j :: 0 <= i < j < |ps| ==> ps[i].socketId != ps[j].socketId
  }

  /** The host, when present, is ready. */
  predicate HostReady(room: Room) {
    forall q :: q in room.players && q.id == room.hostId ==> q.isReady
  }

  /** What the registry keeps true of every room it holds. */
  predicate RoomValid(room: Room) {
    |room.players| <= Capacity && DistinctIds(room.players) && HostReady(room)
  }

  function FindId(ps: seq<Player>, id: int): (r: Option<nat>)
    ensures r.Some? ==> r.value < |ps| && ps[r.value].id == id
    ensures r.None? <==> !HasId(ps, id)
  {
    FindFirst(ps, (q: Player) => q.id == id)
  }

  function FindSocket(ps: seq<Player>, sid: string): (r: Option<nat>)
    ensures r.Some? ==> r.value < |ps| && ps[r.value].socketId == sid
    ensures r.None? <==> forall k :: 0 <= k < |ps| ==> ps[k].socketId != sid
  {
    FindFirst(ps, (q: Player) => q.socketId == sid)
  }

  /** With distinct ids, the index found for an id is the only one holding it. */
  lemma FindIdUnique(ps: seq<Player>, id: int, k: nat)
    requires DistinctIds(ps) && k < |ps| && ps[k].id == id
    ensures FindId(ps, id) == Some(k)
  {
    assert HasId(ps, id);
  }

  // -------------------------------------------------------------------- create

  function NewRoom(roomId: string, hostId: int, settings: Settings, createdAt: int): (r: Room)
    ensures RoomValid(r) && r.players == [] && r.id == roomId && r.hostId == hostId
  {
    Room(roomId, hostId, settings, [], createdAt)
  }

  // ---------------------------------------------------------------------- join

  /** The team a joiner is put in, given the current team sizes and the coin
      the source draws (`Math.random() < 0.5` chooses red). */
  function BalancedTeam(red: nat, blue: nat, coinRed: bool): (t: TeamColor)
    requires red + blue < Capacity
    ensures t == Red ==> red < TeamLimit
    ensures t == Blue ==> blue < TeamLimit
    ensures red >= TeamLimit ==> t == Blue
    ensures blue >= TeamLimit ==> t == Red
    ensures red < TeamLimit && blue < TeamLimit ==> (t == Red <==> coinRed)
  {
    if red < TeamLimit && blue < TeamLimit then (if coinRed then Red else Blue)
    else if red >= TeamLimit then Blue
    else Red
  }

  function JoinedPlayer(room: Room, j: Joiner, team: TeamColor): Player {
    Player(j.id, j.nickname, j.socketId, j.deviceType, room.hostId == j.id, team, false)
  }

  /** `addPlayerToRoom` on an existing room: a duplicate id is refused before
      the capacity check; otherwise the joiner is appended with a balanced
      team, ready exactly when they are the host. */
  function Join(room: Room, j: Joiner, coinRed: bool): (r: Result<Room>)
    ensures HasId(room.players, j.id) ==> r == Failure(AlreadyInRoom)
    ensures !HasId(room.players, j.id) && |room.players| >= Capacity ==> r == Failure(RoomFull)
    ensures r.Success? <==> !HasId(room.players, j.id) && |room.players| < Capacity
    ensures r.Success? ==>
      var ps := r.value.players;
      && r.value == room.(players := ps)
      && |ps| == |room.players| + 1
      && ps[..|room.players|] == room.players
      && ps[|room.players|].id == j.id
      && ps[|room.players|].nickname == j.nickname
      && ps[|room.players|].socketId == j.socketId
      && ps[|room.players|].deviceType == j.deviceType
      && (ps[|room.players|].isReady <==> j.id == room.hostId)
      && !ps[|room.players|].isAi
      && TeamCount(room.players, ps[|room.players|].team) < TeamLimit
  {
    if HasId(room.players, j.id) then Failure(AlreadyInRoom)
    else if |room.players| >= Capacity then Failure(RoomFull)
    else
      TeamsPartition(room.players);
      var team := BalancedTeam(TeamCount(room.players, Red), TeamCount(room.players, Blue), coinRed);
      var ps := room.players + [JoinedPlayer(room, j, team)];
      assert ps[..|room.players|] == room.players;
      Success(room.(players := ps))
  }

  /** A join adds one member to the joiner's team and none to the other, so
      no join takes a team past two members. */
  lemma JoinKeepsTeamLimit(room: Room, j: Joiner, coinRed: bool, t: TeamColor)
    requires Join(room, j, coinRed).Success?
    ensures var ps := Join(room, j, coinRed).value.players;
      TeamCount(ps, t) == TeamCount(room.players, t) + (if ps[|ps| - 1].team == t then 1 else 0)
    ensures TeamCount(room.players, t) <= TeamLimit ==>
      TeamCount(Join(room, j, coinRed).value.players, t) <= TeamLimit
  {
    var ps := Join(room, j, coinRed).value.players;
    assert ps[..|ps| - 1] == room.players;
  }

  lemma JoinPreservesValid(room: Room, j: Joiner, coinRed: bool)
    requires RoomValid(room) && Join(room, j, coinRed).Success?
    ensures RoomValid(Join(room, j, coinRed).value)
  {
    var r := Join(room, j, coinRed).value;
    var n := |room.players|;
    forall i, k | 0 <= i < k < |r.players| ensures r.players[i].id != r.players[k].id {
      if k == n {
        assert r.players[i] == room.players[i];
      } else {
        assert r.players[i] == room.players[i] && r.players[k] == room.players[k];
      }
    }
    forall q | q in r.players && q.id == r.hostId ensures q.isReady {
      var i :| 0 <= i < |r.players| && r.players[i] == q;
      if i < n {
        assert q == room.players[i];
      }
    }
  }

  // --------------------------------------------------------------------- leave

  function WithoutSocket(ps: seq<Player>, sid: string): (r: seq<Player>)
    ensures |r| <= |ps|
    ensures forall q :: q in r <==> q in ps && q.socketId != sid
  {
    Filter(ps, (q: Player) => q.socketId != sid)
  }

  /** Removing players keeps the remaining ids distinct. */
  lemma {:induction false} FilterKeepsDistinctIds(ps: seq<Player>, p: Player -> bool)
    requires DistinctIds(ps)
    ensures DistinctIds(Filter(ps, p))
  {
    if ps != [] {
      var rest := ps[1..];
      assert DistinctIds(rest) by {
        forall i, j | 0 <= i < j < |rest| ensures rest[i].id != rest[j].id {
          assert rest[i] == ps[i + 1] && rest[j] == ps[j + 1];
        }
      }
      FilterKeepsDistinctIds(rest, p);
      var tail := Filter(rest, p);
      var head: seq<Player> := if p(ps[0]) then [ps[0]] else [];
      assert Filter(ps, p) == head + tail;
      forall q | q in tail ensures q.id != ps[0].id {
        assert q in rest;
        var k :| 0 <= k < |rest| && rest[k] == q;
        assert ps[k + 1] == q;
      }
    }
  }

  /** `removePlayerFromRoom` on an existing room. `None` means the room became
      empty and is to be deleted; an unknown socket leaves the room as it is. */
  function Leave(room: Room, sid: string): (r: Option<Room>)
    ensures FindSocket(room.players, sid).None? ==> r == Some(room)
    ensures r.None? <==> FindSocket(room.players, sid).Some? && WithoutSocket(room.players, sid) == []
    ensures r.Some? ==>
      r.value.id == room.id && r.value.settings == room.settings && r.value.createdAt == room.createdAt
    ensures r.Some? && FindSocket(room.players, sid).Some? ==>
      |r.value.players| == |WithoutSocket(room.players, sid)|
      && (forall q :: q in r.value.players ==> q.socketId != sid)
      && (forall k :: 0 <= k < |r.value.players| ==>
            r.value.players[k] == WithoutSocket(room.players, sid)[k].(isReady := r.value.players[k].isReady))
    ensures r.Some? && FindSocket(room.players, sid).Some? ==>
      var leaving := room.players[FindSocket(room.players, sid).value];
      var rest := WithoutSocket(room.players, sid);
      if leaving.id == room.hostId
      then
        // the first remaining player becomes host and is ready; everyone
        // else keeps their readiness
        && r.value.hostId == rest[0].id && r.value.players[0] == rest[0].(isReady := true)
        && r.value.players[1..] == rest[1..]
      else r.value == room.(players := rest)
  {
    match FindSocket(room.players, sid)
    case None => Some(room)
    case Some(i) =>
      var leaving := room.players[i];
      var rest := WithoutSocket(room.players, sid);
      if |rest| == 0 then None
      else if room.hostId == leaving.id then
        Some(room.(hostId := rest[0].id, players := rest[0 := rest[0].(isReady := true)]))
      else Some(room.(players := rest))
  }

  /** Leaving keeps a room within capacity, its ids distinct and its host ready. */
  lemma LeavePreservesValid(room: Room, sid: string)
    requires RoomValid(room) && Leave(room, sid).Some?
    ensures RoomValid(Leave(room, sid).value)
  {
    var f := FindSocket(room.players, sid);
    if f.Some? {
      var rest := WithoutSocket(room.players, sid);
      FilterKeepsDistinctIds(room.players, (q: Player) => q.socketId != sid);
      assert DistinctIds(rest);
      var r := Leave(room, sid).value;
      assert forall k :: 0 <= k < |r.players| ==> r.players[k].id == rest[k].id;
      assert DistinctIds(r.players);
      if room.players[f.value].id == room.hostId {
        forall q | q in r.players && q.id == r.hostId ensures q.isReady {
          var k :| 0 <= k < |r.players| && r.players[k] == q;
          if k != 0 {
            assert r.players[k].id == r.players[0].id;
          }
        }
      } else {
        forall q | q in r.players && q.id == r.hostId ensures q.isReady {
          assert q in rest;
        }
      }
    }
  }

  // --------------------------------------------------------------- ready state

  /** `updatePlayerStatus`: the first player on the socket gets the requested
      flag, except that the host stays ready; an unknown socket changes nothing. */
  function SetReady(room: Room, sid: string, ready: bool): (r: Room)
    ensures r.id == room.id && r.hostId == room.hostId && r.settings == room.settings && r.createdAt == room.createdAt
    ensures |r.players| == |room.players|
    ensures forall k :: 0 <= k < |r.players| ==> r.players[k] == room.players[k].(isReady := r.players[k].isReady)
    ensures FindSocket(room.players, sid).None? ==> r == room
    ensures FindSocket(room.players, sid).Some? ==>
      var i := FindSocket(room.players, sid).value;
      && (forall k :: 0 <= k < |r.players| && k != i ==> r.players[k] == room.players[k])
      && r.players[i].isReady == (room.players[i].id == room.hostId || ready)
  {
    match FindSocket(room.players, sid)
    case None => room
    case Some(i) =>
      var p := room.players[i];
      room.(players := room.players[i := p.(isReady := if room.hostId == p.id then true else ready)])
  }

  lemma SetReadyPreservesValid(room: Room, sid: string, ready: bool)
    requires RoomValid(room)
    ensures RoomValid(SetReady(room, sid, ready))
  {
    var r := SetReady(room, sid, ready);
    assert forall k :: 0 <= k < |r.players| ==> r.players[k].id == room.players[k].id;
    forall q | q in r.players && q.id == r.hostId ensures q.isReady {
      var k :| 0 <= k < |r.players| && r.players[k] == q;
      assert room.players[k] in room.players;
    }
  }

  // ------------------------------------------------------------------ settings

  /** `updateRoomSettings`: only the host may replace the settings. */
  function UpdateSettings(room: Room, userId: int, settings: Settings): (r: Result<Room>)
    ensures r.Success? <==> userId == room.hostId
    ensures r.Failure? ==> r.error == NotHostForSettings
    ensures r.Success? ==> r.value.settings == settings && r.value.players == room.players
                           && r.value.hostId == room.hostId && r.value.id == room.id
                           && r.value.createdAt == room.createdAt
  {
    if room.hostId != userId then Failure(NotHostForSettings)
    else Success(room.(settings := settings))
  }

  // ---------------------------------------------------------------------- team

  function Toggle(t: TeamColor): (u: TeamColor)
    ensures u != t
  {
    if t == Red then Blue else Red
  }

  /** `changeTeam`: an absent target is reported before permission, which
      belongs to the target themself and to the host; the target's team is
      flipped and nothing else changes. */
  function ChangeTeam(room: Room, initiatorId: int, targetId: int): (r: Result<Room>)
    ensures !HasId(room.players, targetId) ==> r == Failure(TeamTargetNotFound)
    ensures HasId(room.players, targetId) && initiatorId != targetId && initiatorId != room.hostId
            ==> r == Failure(NoTeamPermission)
    ensures r.Success? <==> HasId(room.players, targetId) && (initiatorId == targetId || initiatorId == room.hostId)
    ensures r.Success? ==>
      var i := FindId(room.players, targetId).value;
      && r.value.id == room.id && r.value.hostId == room.hostId && r.value.settings == room.settings
      && r.value.createdAt == room.createdAt
      && |r.value.players| == |room.players|
      && r.value.players[i] == room.players[i].(team := Toggle(room.players[i].team))
      && forall k :: 0 <= k < |room.players| && k != i ==> r.value.players[k] == room.players[k]
  {
    match FindId(room.players, targetId)
    case None => Failure(TeamTargetNotFound)
    case Some(i) =>
      if initiatorId != targetId && room.hostId != initiatorId then Failure(NoTeamPermission)
      else
        var p := room.players[i];
        Success(room.(players := room.players[i := p.(team := Toggle(p.team))]))
  }

  lemma ChangeTeamPreservesValid(room: Room, initiatorId: int, targetId: int)
    requires RoomValid(room) && ChangeTeam(room, initiatorId, targetId).Success?
    ensures RoomValid(ChangeTeam(room, initiatorId, targetId).value)
  {
    var r := ChangeTeam(room, initiatorId, targetId).value;
    var i := FindId(room.players, targetId).value;
    assert forall k :: 0 <= k < |r.players| ==>
      r.players[k].id == room.players[k].id && r.players[k].isReady == room.players[k].isReady;
    forall q | q in r.players && q.id == r.hostId ensures q.isReady {
      var k :| 0 <= k < |r.players| && r.players[k] == q;
      assert room.players[k] in room.players;
    }
  }

  // ---------------------------------------------------------------------- kick

  datatype Kicked = Kicked(room: Option<Room>, kickedSocketId: string)

  /** `kickPlayer`: the requester must be the host, must not be the target,
      and the target must be present, checked in that order; the target then
      leaves by the same path as a disconnect, by their socket id. */
  function Kick(room: Room, requesterId: int, targetId: int): (r: Result<Kicked>)
    ensures requesterId != room.hostId ==> r == Failure(NotHostForKick)
    ensures requesterId == room.hostId && requesterId == targetId ==> r == Failure(KickSelf)
    ensures requesterId == room.hostId && requesterId != targetId && !HasId(room.players, targetId)
            ==> r == Failure(KickTargetNotFound)
    ensures r.Success? <==> requesterId == room.hostId && requesterId != targetId && HasId(room.players, targetId)
    ensures r.Success? ==>
      var sid := room.players[FindId(room.players, targetId).value].socketId;
      r.value == Kicked(Leave(room, sid), sid)
  {
    if room.hostId != requesterId then Failure(NotHostForKick)
    else if requesterId == targetId then Failure(KickSelf)
    else match FindId(room.players, targetId)
      case None => Failure(KickTargetNotFound)
      case Some(i) =>
        var sid := room.players[i].socketId;
        Success(Kicked(Leave(room, sid), sid))
  }

  /** In a room whose players have distinct ids and sockets, a kick removes
      exactly the target and never moves the host role. */
  lemma KickKeepsHost(room: Room, requesterId: int, targetId: int)
    requires DistinctIds(room.players) && DistinctSockets(room.players)
    requires Kick(room, requesterId, targetId).Success?
    requires Kick(room, requesterId, targetId).value.room.Some?
    ensures Kick(room, requesterId, targetId).value.room.value.hostId == room.hostId
    ensures !HasId(Kick(room, requesterId, targetId).value.room.value.players, targetId)
    ensures |Kick(room, requesterId, targetId).value.room.value.players| == |room.players| - 1
  {
    var i := FindId(room.players, targetId).value;
    var sid := room.players[i].socketId;
    var f := FindSocket(room.players, sid).value;
    assert f == i;
    var r := Kick(room, requesterId, targetId).value.room.value;
    var rest := WithoutSocket(room.players, sid);
    assert r.players == rest;
    forall k | 0 <= k < |r.players| ensures r.players[k].id != targetId {
      assert r.players[k] in room.players;
      var m :| 0 <= m < |room.players| && room.players[m] == r.players[k];
      assert m != i;
    }
    RemoveOneSocket(room.players, sid, i);
  }

  /** With distinct sockets, removing one player's socket drops exactly one entry. */
  lemma {:induction false} RemoveOneSocket(ps: seq<Player>, sid: string, i: nat)
    requires DistinctSockets(ps) && i < |ps| && ps[i].socketId == sid
    ensures |WithoutSocket(ps, sid)| == |ps| - 1
  {
    var rest := ps[1..];
    assert DistinctSockets(rest) by {
      forall a, b | 0 <= a < b < |rest| ensures rest[a].socketId != rest[b].socketId {
        assert rest[a] == ps[a + 1] && rest[b] == ps[b + 1];
      }
    }
    var p := (q: Player) => q.socketId != sid;
    assert WithoutSocket(ps, sid) == Filter(ps, p);
    assert Filter(ps, p) == (if p(ps[0]) then [ps[0]] else []) + Filter(rest, p);
    if i == 0 {
      forall x | x in rest ensures p(x) {
        var b :| 0 <= b < |rest| && rest[b] == x;
        assert ps[b + 1] == x;
      }
      FilterAll(rest, p);
    } else {
      assert ps[0].socketId != sid;
      RemoveOneSocket(rest, sid, i - 1);
      assert WithoutSocket(rest, sid) == Filter(rest, p);
    }
  }

  // ---------------------------------------------------------------------- host

  /** `updateHost`: the new host must be present; they become host and ready. */
  function UpdateHost(room: Room, newHostId: int): (r: Result<Room>)
    ensures r.Success? <==> HasId(room.players, newHostId)
    ensures r.Failure? ==> r.error == NewHostNotFound
    ensures r.Success? ==>
      var i := FindId(room.players, newHostId).value;
      && r.value.hostId == newHostId && r.value.settings == room.settings && r.value.id == room.id
      && r.value.createdAt == room.createdAt
      && |r.value.players| == |room.players|
      && r.value.players[i] == room.players[i].(isReady := true)
      && forall k :: 0 <= k < |room.players| && k != i ==> r.value.players[k] == room.players[k]
  {
    match FindId(room.players, newHostId)
    case None => Failure(NewHostNotFound)
    case Some(i) =>
      Success(room.(hostId := newHostId, players := room.players[i := room.players[i].(isReady := true)]))
  }

  lemma UpdateHostPreservesValid(room: Room, newHostId: int)
    requires RoomValid(room) && UpdateHost(room, newHostId).Success?
    ensures RoomValid(UpdateHost(room, newHostId).value)
  {
    var r := UpdateHost(room, newHostId).value;
    var i := FindId(room.players, newHostId).value;
    assert forall k :: 0 <= k < |r.players| ==> r.players[k].id == room.players[k].id;
    forall q | q in r.players && q.id == r.hostId ensures q.isReady {
      var k :| 0 <= k < |r.players| && r.players[k] == q;
      if k != i {
        assert room.players[k].id == room.players[i].id;
      }
    }
  }
}
