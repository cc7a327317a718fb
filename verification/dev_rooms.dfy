/** `DevRoomsService` (src/dev/rooms/dev-rooms.service.ts): development
    helpers that fill a waiting room with virtual players and hand the host
    role to another member, each followed by a `roomUpdate` broadcast.
    The clock, `nanoid` and `Math.random` draws are parameters: the bots to
    add (id, nickname, socket and device already drawn), the team coins of
    their joins, and the index drawn for the new host. */
module DevRooms {
  import opened Common
  import opened Lobby
  import opened RoomsRegistry

  /** `roomUpdate` sent to a room's channel. */
  datatype DevEvent = RoomUpdate(roomId: string, room: Room)

  /** The room after a run of the add-players loop and the bots it added. */
  datatype Filled = Filled(room: Room, added: seq<Joiner>)

  /** One pass of the add-players loop: the bot joins, with its team coin,
      and is then marked ready. A pass succeeds exactly when the join does,
      and then adds one member to the same room under the same host. */
  function JoinReady(room: Room, b: Joiner, coin: bool): (r: Result<Room>)
    ensures r.Success? <==> !HasId(room.players, b.id) && |room.players| < Capacity
    ensures r.Success? ==> |r.value.players| == |room.players| + 1 && r.value.id == room.id && r.value.hostId == room.hostId
  {
    match Join(room, b, coin)
    case Failure(e) => Failure(e)
    case Success(joined) => Success(SetReady(joined, b.socketId, true))
  }

  /** What the add-players loop does to a room: the bots pass in turn and
      the first refused join ends the loop, so the bots added are a leading
      run of the bots. */
  function Fill(room: Room, bots: seq<Joiner>, coins: seq<bool>): (r: Filled)
    requires |coins| == |bots|
    ensures |r.added| <= |bots| && r.added == bots[..|r.added|]
    decreases |bots|
  {
    if bots == [] then Filled(room, [])
    else
      match JoinReady(room, bots[0], coins[0])
      case Failure(_) => Filled(room, [])
      case Success(next) =>
        var rest := Fill(next, bots[1..], coins[1..]);
        PrefixAfterFirst(bots, rest.added);
        Filled(rest.room, [bots[0]] + rest.added)
  }

  /** The loop ends when the bots run out or a join is refused. */
  lemma FillStops(room: Room, bots: seq<Joiner>, coins: seq<bool>)
    requires |coins| == |bots|
    requires bots == [] || JoinReady(room, bots[0], coins[0]).Failure?
    ensures Fill(room, bots, coins) == Filled(room, [])
  {
  }

  /** Otherwise the first bot is added and the loop goes on from the room
      it joined. */
  lemma FillGoesOn(room: Room, bots: seq<Joiner>, coins: seq<bool>)
    requires |coins| == |bots| && bots != [] && JoinReady(room, bots[0], coins[0]).Success?
    ensures var rest := Fill(JoinReady(room, bots[0], coins[0]).value, bots[1..], coins[1..]);
      Fill(room, bots, coins) == Filled(rest.room, [bots[0]] + rest.added)
  {
  }

  /** The loop's invariant: `whole`, the outcome of the loop over all the
      bots, is what the bots already `added` followed by the outcome of the
      loop over the bots from `i` on, starting at the current room. */
  ghost predicate FillFrom(whole: Filled, room: Room, bots: seq<Joiner>, coins: seq<bool>, i: nat, added: seq<Joiner>)
    requires |coins| == |bots|
  {
    i <= |bots| &&
    var f := Fill(room, bots[i..], coins[i..]);
    whole == Filled(f.room, added + f.added)
  }

  /** When the bots run out or a join is refused, the loop's outcome is the
      current room and the bots added so far. */
  lemma FillHalts(whole: Filled, room: Room, bots: seq<Joiner>, coins: seq<bool>, i: nat, added: seq<Joiner>)
    requires |coins| == |bots| && FillFrom(whole, room, bots, coins, i, added)
    requires i == |bots| || JoinReady(room, bots[i], coins[i]).Failure?
    ensures whole == Filled(room, added)
  {
    FillStops(room, bots[i..], coins[i..]);
    assert added + [] == added;
  }

  /** A pass that succeeds moves the invariant one bot on. */
  lemma FillAdvances(whole: Filled, room: Room, bots: seq<Joiner>, coins: seq<bool>, i: nat, added: seq<Joiner>)
    requires |coins| == |bots| && i < |bots| && FillFrom(whole, room, bots, coins, i, added)
    requires JoinReady(room, bots[i], coins[i]).Success?
    ensures FillFrom(whole, JoinReady(room, bots[i], coins[i]).value, bots, coins, i + 1, added + [bots[i]])
  {
    var b, c := bots[i..], coins[i..];
    assert b[0] == bots[i] && c[0] == coins[i];
    assert b[1..] == bots[i + 1..] && c[1..] == coins[i + 1..];
    FillGoesOn(room, b, c);
    var rest := Fill(JoinReady(room, bots[i], coins[i]).value, bots[i + 1..], coins[i + 1..]);
    assert added + ([bots[i]] + rest.added) == (added + [bots[i]]) + rest.added;
  }

  /** Writing a key twice keeps the second value. */
  lemma UpdateTwice<K, V>(m: map<K, V>, k: K, a: V, b: V)
    ensures m[k := a][k := b] == m[k := b]
  {
  }

  /** A leading run of the tail, behind the head, is a leading run. */
  lemma PrefixAfterFirst<T>(s: seq<T>, t: seq<T>)
    requires |s| > 0 && |t| < |s| && t == s[1..][..|t|]
    ensures [s[0]] + t == s[..|t| + 1]
  {
  }

  /** The loop adds a leading run of the bots, at most one per place left
      in the room, and every bot it adds becomes a member. */
  lemma {:induction false} FillBounds(room: Room, bots: seq<Joiner>, coins: seq<bool>)
    requires |coins| == |bots| && |room.players| <= Capacity
    ensures |Fill(room, bots, coins).added| <= Capacity - |room.players|
    ensures |Fill(room, bots, coins).room.players| == |room.players| + |Fill(room, bots, coins).added|
    ensures Fill(room, bots, coins).room.id == room.id && Fill(room, bots, coins).room.hostId == room.hostId
    decreases |bots|
  {
    if bots == [] {
      FillStops(room, bots, coins);
    } else {
      if JoinReady(room, bots[0], coins[0]).Failure? {
        FillStops(room, bots, coins);
      } else {
        var next := JoinReady(room, bots[0], coins[0]).value;
        FillBounds(next, bots[1..], coins[1..]);
        FillGoesOn(room, bots, coins);
      }
    }
  }

  /** The virtual players are new to the room and to each other: no bot's
      id or socket is a member's, and no two bots share either. */
  predicate FreshBots(room: Room, bots: seq<Joiner>) {
    && (forall k :: 0 <= k < |bots| ==>
          !HasId(room.players, bots[k].id) && FindSocket(room.players, bots[k].socketId).None?)
    && (forall k, l :: 0 <= k < l < |bots| ==> bots[k].id != bots[l].id && bots[k].socketId != bots[l].socketId)
  }

  /** One pass of the loop with a fresh bot and a free place: the members
      stay as they were and the bot is appended, ready. */
  lemma JoinReadyFresh(room: Room, b: Joiner, coin: bool)
    requires !HasId(room.players, b.id) && FindSocket(room.players, b.socketId).None?
    requires |room.players| < Capacity
    ensures JoinReady(room, b, coin).Success?
    ensures var r := JoinReady(room, b, coin).value;
      && r.id == room.id && r.hostId == room.hostId && r.settings == room.settings
      && |r.players| == |room.players| + 1
      && r.players[..|room.players|] == room.players
      && var q := r.players[|room.players|];
         q.id == b.id && q.nickname == b.nickname && q.socketId == b.socketId
         && q.deviceType == b.deviceType && q.isReady && !q.isAi
  {
    var j := Join(room, b, coin).value;
    var n := |room.players|;
    assert j.players[n].socketId == b.socketId;
    assert FindSocket(j.players, b.socketId) == Some(n) by {
      assert forall k :: 0 <= k < n ==> j.players[k] == room.players[k];
    }
    var r := SetReady(j, b.socketId, true);
    assert forall k :: 0 <= k < n ==> r.players[k] == room.players[k];
  }

  /** A member made from a bot by the loop: same id, nickname, socket and
      device, ready. */
  predicate Becomes(q: Player, b: Joiner) {
    q.id == b.id && q.nickname == b.nickname && q.socketId == b.socketId
    && q.deviceType == b.deviceType && q.isReady
  }

  /** `after` is `before` followed by members made from `bots`, in order. */
  predicate Extends(before: seq<Player>, after: seq<Player>, bots: seq<Joiner>) {
    && |after| == |before| + |bots|
    && after[..|before|] == before
    && forall k :: 0 <= k < |bots| ==> Becomes(after[|before| + k], bots[k])
  }

  /** Appending in two runs is appending the runs joined. */
  lemma ExtendsChain(a: seq<Player>, b: seq<Player>, c: seq<Player>, x: Joiner, ys: seq<Joiner>)
    requires Extends(a, b, [x]) && Extends(b, c, ys)
    ensures Extends(a, c, [x] + ys)
  {
    var n := |a|;
    assert c[..n] == c[..n + 1][..n];
    forall k | 0 <= k < |ys| + 1 ensures Becomes(c[n + k], ([x] + ys)[k]) {
      if k == 0 {
        assert c[n] == b[n];
      } else {
        assert Becomes(c[n + 1 + (k - 1)], ys[k - 1]);
      }
    }
  }

  /** The bots still to come stay fresh once the first one has joined. */
  lemma FreshAfterPass(room: Room, next: Room, bots: seq<Joiner>)
    requires |bots| > 0 && FreshBots(room, bots)
    requires Extends(room.players, next.players, [bots[0]])
    ensures FreshBots(next, bots[1..])
  {
    var n := |room.players|;
    forall k | 0 <= k < |bots| - 1
      ensures !HasId(next.players, bots[1..][k].id) && FindSocket(next.players, bots[1..][k].socketId).None?
    {
      var c := bots[k + 1];
      assert c.id != bots[0].id && c.socketId != bots[0].socketId;
      forall i | 0 <= i < |next.players| ensures next.players[i].id != c.id && next.players[i].socketId != c.socketId {
        if i < n {
          assert next.players[i] == next.players[..n][i];
          assert !HasId(room.players, c.id);
        } else {
          assert Becomes(next.players[n + 0], [bots[0]][0]);
        }
      }
    }
  }

  /** With fresh bots, the loop stops only when the bots run out or the
      room is full, and the bots it adds are appended after the members
      already there, in order, and marked ready. */
  lemma {:induction false} FillFresh(room: Room, bots: seq<Joiner>, coins: seq<bool>)
    requires |coins| == |bots| && |room.players| <= Capacity && FreshBots(room, bots)
    ensures var f := Fill(room, bots, coins);
      && |f.added| == (if |bots| < Capacity - |room.players| then |bots| else Capacity - |room.players|)
      && Extends(room.players, f.room.players, f.added)
    decreases |bots|
  {
    if bots != [] && |room.players| < Capacity {
      var b := bots[0];
      JoinReadyFresh(room, b, coins[0]);
      var next := JoinReady(room, b, coins[0]).value;
      assert Extends(room.players, next.players, [b]) by {
        assert Becomes(next.players[|room.players| + 0], [b][0]);
      }
      FreshAfterPass(room, next, bots);
      FillFresh(next, bots[1..], coins[1..]);
      var rest := Fill(next, bots[1..], coins[1..]);
      assert Fill(room, bots, coins) == Filled(rest.room, [b] + rest.added);
      ExtendsChain(room.players, next.players, rest.room.players, b, rest.added);
    } else {
      assert Extends(room.players, room.players, []) by {
        assert room.players[..|room.players|] == room.players;
      }
    }
  }

  /** `changeHostRandom`'s choice: the members other than the host, in
      order, and the one at the drawn index. */
  function RandomHostChoice(room: Room, pick: nat): (r: Result<Player>)
    ensures r.Failure? <==> forall q :: q in room.players ==> q.id == room.hostId
    ensures r.Failure? ==> r.error == NoOtherPlayer
    ensures r.Success? ==> r.value in room.players && r.value.id != room.hostId
  {
    var eligible := Filter(room.players, (q: Player) => q.id != room.hostId);
    if |eligible| == 0 then Failure(NoOtherPlayer)
    else
      assert eligible[pick % |eligible|] in eligible;
      Success(eligible[pick % |eligible|])
  }

  /** `changeHostByNickname`'s choice: the first member with the nickname. */
  function HostByNickname(room: Room, nickname: string): (r: Result<Player>)
    ensures r.Failure? <==> forall k :: 0 <= k < |room.players| ==> room.players[k].nickname != nickname
    ensures r.Failure? ==> r.error == NicknameNotFound
    ensures r.Success? ==> exists i :: (0 <= i < |room.players| && room.players[i] == r.value
      && r.value.nickname == nickname && forall k :: 0 <= k < i ==> room.players[k].nickname != nickname)
  {
    match FindFirst(room.players, (q: Player) => q.nickname == nickname)
    case None => Failure(NicknameNotFound)
    case Some(i) => Success(room.players[i])
  }

  /** Handing the host role to member `i` of a valid room succeeds: that
      member becomes host and is ready, and no one else changes. */
  lemma HandOver(room: Room, i: nat)
    requires RoomValid(room) && i < |room.players|
    ensures var r := UpdateHost(room, room.players[i].id);
      && r.Success?
      && r.value.hostId == room.players[i].id
      && r.value.players[i] == room.players[i].(isReady := true)
      && forall k :: 0 <= k < |room.players| && k != i ==> r.value.players[k] == room.players[k]
  {
    FindIdUnique(room.players, room.players[i].id, i);
  }

  /** The random choice makes another member host, and that member is
      ready. */
  lemma RandomHostTakesOver(room: Room, pick: nat)
    requires RoomValid(room) && RandomHostChoice(room, pick).Success?
    ensures var p := RandomHostChoice(room, pick).value;
      var r := UpdateHost(room, p.id);
      && r.Success? && r.value.hostId == p.id && r.value.hostId != room.hostId
      && exists i :: 0 <= i < |r.value.players| && r.value.players[i] == p.(isReady := true)
  {
    var p := RandomHostChoice(room, pick).value;
    var i :| 0 <= i < |room.players| && room.players[i] == p;
    HandOver(room, i);
  }

  /** The first member with the nickname becomes host and is ready. */
  lemma NamedHostTakesOver(room: Room, nickname: string)
    requires RoomValid(room) && HostByNickname(room, nickname).Success?
    ensures var p := HostByNickname(room, nickname).value;
      var r := UpdateHost(room, p.id);
      && r.Success? && r.value.hostId == p.id && p.nickname == nickname
      && exists i :: (0 <= i < |r.value.players| && r.value.players[i] == p.(isReady := true)
           && forall k :: 0 <= k < i ==> r.value.players[k].nickname != nickname)
  {
    var p := HostByNickname(room, nickname).value;
    var i :| 0 <= i < |room.players| && room.players[i] == p
      && forall k :: 0 <= k < i ==> room.players[k].nickname != nickname;
    HandOver(room, i);
  }

  class DevRoomsService {
    const roomsService: RoomsService
    var events: seq<DevEvent>

    constructor (roomsService: RoomsService)
      ensures this.roomsService == roomsService && events == []
    {
      this.roomsService := roomsService;
      events := [];
    }

    /** `addVirtualPlayers`: up to `count` bots join and are marked ready,
        stopping at the first refused join; the room is broadcast once if
        any bot was added. The result is the list of added bots. */
    method AddVirtualPlayers(roomId: string, count: nat, bots: seq<Joiner>, coins: seq<bool>)
      returns (r: Result<seq<Joiner>>)
      requires roomsService.Valid() && |bots| == count && |coins| == count
      modifies this, roomsService
      ensures roomsService.Valid()
      ensures roomId !in old(roomsService.rooms) ==>
        r == Failure(RoomNotFound) && roomsService.rooms == old(roomsService.rooms) && events == old(events)
      ensures roomId in old(roomsService.rooms) ==>
        var f := Fill(old(roomsService.rooms)[roomId], bots, coins);
        && r == Success(f.added)
        && roomsService.rooms == old(roomsService.rooms)[roomId := f.room]
        && events == old(events) + (if f.added == [] then [] else [RoomUpdate(roomId, f.room)])
    {
      var got := roomsService.GetRoom(roomId);
      if got.Failure? {
        return Failure(got.error);
      }
      var added := AddAll(roomId, bots, coins);
      if |added| > 0 {
        var now := roomsService.GetRoom(roomId);
        events := events + [RoomUpdate(roomId, now.value)];
      }
      r := Success(added);
    }

    /** The add-players loop: the bots pass in turn until one is refused. */
    method AddAll(roomId: string, bots: seq<Joiner>, coins: seq<bool>) returns (added: seq<Joiner>)
      requires roomsService.Valid() && roomId in roomsService.rooms && |coins| == |bots|
      modifies roomsService
      ensures roomsService.Valid()
      ensures var f := Fill(old(roomsService.rooms)[roomId], bots, coins);
        && added == f.added
        && roomsService.rooms == old(roomsService.rooms)[roomId := f.room]
    {
      ghost var whole := Fill(roomsService.rooms[roomId], bots, coins);
      added := [];
      for i := 0 to |bots|
        invariant roomsService.Valid() && roomId in roomsService.rooms
        invariant roomsService.rooms == old(roomsService.rooms)[roomId := roomsService.rooms[roomId]]
        invariant FillFrom(whole, roomsService.rooms[roomId], bots, coins, i, added)
      {
        ghost var room := roomsService.rooms[roomId];
        var ok := AddOne(roomId, bots[i], coins[i]);
        if !ok {
          FillHalts(whole, room, bots, coins, i, added);
          break;
        }
        UpdateTwice(old(roomsService.rooms), roomId, room, roomsService.rooms[roomId]);
        FillAdvances(whole, room, bots, coins, i, added);
        added := added + [bots[i]];
      }
      if whole != Filled(roomsService.rooms[roomId], added) {
        FillHalts(whole, roomsService.rooms[roomId], bots, coins, |bots|, added);
      }
    }

    /** The body of the add-players loop: the bot joins the room and is
        marked ready; a refused join leaves every room as it was. */
    method AddOne(roomId: string, b: Joiner, coin: bool) returns (ok: bool)
      requires roomsService.Valid() && roomId in roomsService.rooms
      modifies roomsService
      ensures roomsService.Valid()
      ensures var p := JoinReady(old(roomsService.rooms)[roomId], b, coin);
        && ok == p.Success?
        && roomsService.rooms == if ok then old(roomsService.rooms)[roomId := p.value] else old(roomsService.rooms)
    {
      var joined := roomsService.AddPlayerToRoom(roomId, b, coin);
      ok := joined.Success?;
      if ok {
        var readied := roomsService.UpdatePlayerStatus(roomId, b.socketId, true);
      }
    }

    /** `changeHostRandom`: the drawn member other than the host becomes
        host, and the room is broadcast. */
    method ChangeHostRandom(roomId: string, pick: nat) returns (r: Result<Player>)
      requires roomsService.Valid()
      modifies this, roomsService
      ensures roomsService.Valid()
      ensures roomId !in old(roomsService.rooms) ==> r == Failure(RoomNotFound)
      ensures roomId in old(roomsService.rooms) ==> r == RandomHostChoice(old(roomsService.rooms)[roomId], pick)
      ensures r.Failure? ==> roomsService.rooms == old(roomsService.rooms) && events == old(events)
      ensures r.Success? ==>
        var room := UpdateHost(old(roomsService.rooms)[roomId], r.value.id).value;
        && roomsService.rooms == old(roomsService.rooms)[roomId := room]
        && events == old(events) + [RoomUpdate(roomId, room)]
    {
      var got := roomsService.GetRoom(roomId);
      if got.Failure? {
        return Failure(got.error);
      }
      r := RandomHostChoice(got.value, pick);
      if r.Failure? {
        return;
      }
      var i :| 0 <= i < |got.value.players| && got.value.players[i] == r.value;
      HandOver(got.value, i);
      var updated := roomsService.UpdateHostOf(roomId, r.value.id);
      events := events + [RoomUpdate(roomId, updated.value)];
    }

    /** `changeHostByNickname`: the first member with the nickname becomes
        host, and the room is broadcast. */
    method ChangeHostByNickname(roomId: string, nickname: string) returns (r: Result<Player>)
      requires roomsService.Valid()
      modifies this, roomsService
      ensures roomsService.Valid()
      ensures roomId !in old(roomsService.rooms) ==> r == Failure(RoomNotFound)
      ensures roomId in old(roomsService.rooms) ==> r == HostByNickname(old(roomsService.rooms)[roomId], nickname)
      ensures r.Failure? ==> roomsService.rooms == old(roomsService.rooms) && events == old(events)
      ensures r.Success? ==>
        var room := UpdateHost(old(roomsService.rooms)[roomId], r.value.id).value;
        && roomsService.rooms == old(roomsService.rooms)[roomId := room]
        && events == old(events) + [RoomUpdate(roomId, room)]
    {
      var got := roomsService.GetRoom(roomId);
      if got.Failure? {
        return Failure(got.error);
      }
      r := HostByNickname(got.value, nickname);
      if r.Failure? {
        return;
      }
      var i :| 0 <= i < |got.value.players| && got.value.players[i] == r.value;
      HandOver(got.value, i);
      var updated := roomsService.UpdateHostOf(roomId, r.value.id);
      events := events + [RoomUpdate(roomId, updated.value)];
    }
  }
}
