# Pair-Go backend: lobby, match and auto-play core in Dafny

This project models the in-memory core of the Pair-Go backend, a NestJS
server for four-player pair Go: two teams of two, whose members alternate
moves within their team.

- **The room registry (`RoomsService`).** Players join a waiting room. The
  registry balances them into a red and a blue team of at most two, keeps
  the host ready, and lets members leave, toggle readiness and change
  team. The host may change settings, kick members and hand the host role
  over.
- **The match registry (`GameService`) and the turn cycle
  (`TurnManagerImpl`).** These turn a room into a match: a time control
  parsed from the settings strings, two teams bound to the stone colours,
  and a fixed four-slot turn order. Moves are routed to the seated player
  and then to the Go engine.
- **The game gateway's auto-play cascade (`handleMove`, `handleAiTurns`).**
  After an accepted move it keeps asking an AI move provider for moves
  while an AI player is on move. Each accepted move is broadcast.
- **The development helpers (`DevRoomsService`).** These fill a room with
  virtual players and reassign the host.
- **The two connection helpers, each copied into both socket gateways.**
  These are the `Cookie` header lookup and the user-agent classifier. The
  classifier's mobile alternation is expanded into its twelve literal words,
  for example `iP(hone|od)` into "iPhone" and "iPod".

| file | module | models |
|---|---|---|
| common.dfy | `Common` | `Option`, `Result`, the services' errors, `find`/`filter` over sequences, ASCII `toLowerCase`/`toUpperCase` |
| lobby.dfy | `Lobby` | players and rooms as values. What each registry operation does to one room: join, leave, ready, settings, team, kick, host change. The room invariant and its preservation. |
| rooms_service.dfy | `RoomsRegistry` | class `RoomsService`, whose `rooms` map the methods update in place |
| turns.dfy | `Turns` | the four-slot cycle and class `TurnManager`, which has a mutable index |
| match.dfy | `Match` | `parseInt`, the time control, team construction, the seat lookup, class `GameInstance` and class `GameService` |
| cascade.dfy | `Cascade` | the cascade as a function `Cascade`. Class `GameGateway` runs it as a loop and keeps its broadcasts in a log. |
| dev_rooms.dfy | `DevRooms` | class `DevRoomsService` over a `RoomsService`, and the add-players loop as a function `Fill` |
| handshake.dfy | `Handshake` | `parseCookie` and both `getDeviceType` variants |

The parts the model cannot see become parameters:

- **The Go engine** is an `oracle: (Board, Coord) -> Option<Board>` over an opaque `Board`, plus a serialiser `toJson`.
- **The AI move provider** is a finite script `replies: seq<Option<Move>>`. Call `k` answers `replies[k]`, and any call past the end answers nothing.
- **`Math.random()` draws** are booleans: the team coin of a join and `isRedBlack`. The random host pick is a `pick: nat`, used as `pick % n`.
- **`nanoid` codes, `Date.now()` ids and creation times** are arguments. The virtual players arrive as `Joiner` values.
- **Socket broadcasts** are appended to a log field: `GameGateway.log` and `DevRoomsService.events`.
- **A thrown exception** is a `Failure(error)` result.

## Model

| member | source | states |
|---|---|---|
| Lobby.NewRoom | src/rooms/rooms.service.ts:11-24 | A new room is empty, carries the given id and host, and satisfies the room invariant. |
| Lobby.BalancedTeam | src/rooms/rooms.service.ts:50-60 | The joiner goes red only if red has fewer than two members, and blue likewise. A full red forces blue and a full blue forces red. Otherwise the coin decides. |
| Lobby.Join | src/rooms/rooms.service.ts:35-71 | A present id fails with AlreadyInRoom before the capacity check. A fifth player fails with RoomFull. Success happens exactly otherwise, and then appends one player. That player carries the joiner's id, nickname, socket and device, is ready iff they are the host, and joins a team that had fewer than two members. The existing players are unchanged. |
| Lobby.JoinKeepsTeamLimit | src/rooms/rooms.service.ts:50-68 | A join adds one member to the joiner's team and none to the other, so no team passes two. |
| Lobby.TeamsPartition | src/rooms/rooms.service.ts:50-51 | The red and blue counts add up to the number of players. |
| Lobby.JoinPreservesValid | src/rooms/rooms.service.ts:35-71 | A successful join keeps the room within four players, with distinct ids and a ready host. |
| Lobby.FindIdUnique | src/rooms/rooms.service.ts:171 | With distinct ids, `find` by id returns the one index that holds the id. |
| Lobby.Leave | src/rooms/rooms.service.ts:76-98 | An unknown socket leaves the room as it is. Otherwise every player on that socket is removed, in order. The result is `None` (delete the room) exactly when nobody remains. A departing host is replaced by the first remaining player, who is made ready. Any other departure changes only the player list. |
| Lobby.LeavePreservesValid | src/rooms/rooms.service.ts:76-98 | Leaving keeps the room invariant, including a ready host after succession. |
| Lobby.FilterKeepsDistinctIds | src/rooms/rooms.service.ts:83 | Filtering players keeps their ids distinct. |
| Lobby.SetReady | src/rooms/rooms.service.ts:100-114 | The first player on the socket gets the requested readiness, except that the host is always ready. An unknown socket leaves the room unchanged. Nothing else changes. |
| Lobby.SetReadyPreservesValid | src/rooms/rooms.service.ts:100-114 | Setting readiness keeps the host ready. |
| Lobby.UpdateSettings | src/rooms/rooms.service.ts:116-125 | It succeeds iff the user is the host, and anyone else gets NotHostForSettings. A success replaces the settings and keeps the players, host, id and creation time. |
| Lobby.ChangeTeam | src/rooms/rooms.service.ts:127-144 | A missing target is reported (TeamTargetNotFound) before the permission check (NoTeamPermission). The initiator must be the target or the host. Success is exactly those two conditions, and then only the target's team is toggled. |
| Lobby.ChangeTeamPreservesValid | src/rooms/rooms.service.ts:127-144 | A team toggle keeps the room invariant. |
| Lobby.Kick | src/rooms/rooms.service.ts:146-167 | The checks run in order: the requester is the host, then the requester is not the target, then the target is present. Each failure has its own error. A kick succeeds exactly when all three pass, and then it is the leave path for the target's socket. |
| Lobby.KickKeepsHost | src/rooms/rooms.service.ts:146-167 | A successful kick that leaves the room standing keeps the host. The target is gone and exactly one player fewer remains. |
| Lobby.RemoveOneSocket | src/rooms/rooms.service.ts:83 | With distinct sockets, removing one socket's players removes exactly one. |
| Lobby.UpdateHost | src/rooms/rooms.service.ts:169-181 | It succeeds iff the new host is a member. Then that member is host and ready, and everyone else is unchanged, as are the settings, id and creation time. An absent member fails with NewHostNotFound. |
| Lobby.UpdateHostPreservesValid | src/rooms/rooms.service.ts:169-181 | A host change keeps the room invariant. |
| RoomsRegistry.RoomsService.CreateRoom | src/rooms/rooms.service.ts:11-24 | Stores `NewRoom` under its code, and the registry stays valid. |
| RoomsRegistry.RoomsService.GetRoom | src/rooms/rooms.service.ts:26-32 | Returns the stored room, or a NotFound failure exactly when the code is absent. |
| RoomsRegistry.RoomsService.AddPlayerToRoom | src/rooms/rooms.service.ts:35-71 | An unknown room fails. Otherwise the result is `Join`, stored back only on success, so a failure changes no room. |
| RoomsRegistry.RoomsService.RemovePlayerFromRoom | src/rooms/rooms.service.ts:76-98 | An unknown room gives `None` and no change. Otherwise the result is `Leave`: an emptied room is deleted from the registry and any other room is stored back. |
| RoomsRegistry.RoomsService.UpdatePlayerStatus | src/rooms/rooms.service.ts:100-114 | An unknown room fails. Otherwise `SetReady` is stored back. |
| RoomsRegistry.RoomsService.UpdateRoomSettings | src/rooms/rooms.service.ts:116-125 | The result is `UpdateSettings`, stored back only on success. |
| RoomsRegistry.RoomsService.ChangePlayerTeam | src/rooms/rooms.service.ts:127-144 | The result is `ChangeTeam`, stored back only on success. |
| RoomsRegistry.RoomsService.KickPlayer | src/rooms/rooms.service.ts:146-167 | The result is `Kick`. A failure changes nothing. A success deletes or stores back the room as the leave path decides. |
| RoomsRegistry.RoomsService.UpdateHostOf | src/rooms/rooms.service.ts:169-181 | The result is `UpdateHost`, stored back only on success. |
| Turns.Cycle | src/game/turnManager.ts:21-38 | Four pairwise distinct slots. The first is (white, 0) for handicap games and (black, 0) otherwise. Colours alternate, cyclically. Each colour plays seat 0 before seat 1. |
| Turns.IndexAfter | src/game/turnManager.ts:46-50 | Any number of steps keeps the index in [0, 4). |
| Turns.IndexAfterIsModular | src/game/turnManager.ts:47 | `n` calls of `nextTurn` from `i` land on `(i + n) mod 4`. |
| Turns.IndexAfterOne | src/game/turnManager.ts:47 | One call of `nextTurn` moves the index to the next slot modulo four. |
| Turns.IndexAfterShift | src/game/turnManager.ts:47 | One step and then `n` steps is `n + 1` steps. |
| Turns.FourStepsReturn | src/game/turnManager.ts:47 | Four steps return to the start, and four consecutive positions are pairwise distinct. |
| Turns.TurnManager.constructor | src/game/turnManager.ts:21-41 | The cycle is chosen by the handicap flag, the index is 0, and the published slot is the cycle's first. |
| Turns.TurnManager.NextTurn | src/game/turnManager.ts:46-50 | Advances the index by one modulo four. The published slot stays `cycle[index]`, and the method returns it. |
| Turns.TurnManager.UpdateCurrentTurn | src/game/turnManager.ts:52-55 | Re-establishes `currentTurn == cycle[index]`. |
| Match.TrimStart | src/game/game.service.ts:17-19 | `parseInt` skips leading white space, the full ECMAScript set: tab, vertical tab, form feed, space, U+00A0, U+1680, U+2000 to U+200A, U+202F, U+205F, U+3000, the byte order mark and the four line terminators. The result is a suffix of the input that does not start with any of these, and an input that does not start with one is kept whole. |
| Match.ParseInt | src/game/game.service.ts:17-19 | A number is read only if the input holds a digit, and a negative number only if it holds a '-'. NaN is `None`. |
| Match.ParseSigned | src/game/game.service.ts:17-19 | A leading '-' or '+' is read with the numeral: "-5" gives -5 (so a basic time of "-5" gives -300000 ms, and a handicap of "-2" is no handicap game), and "+2" gives 2. |
| Match.ParseSkipsSpace | src/game/game.service.ts:17-19 | Any one leading white-space character, U+3000 among them, does not change what `parseInt` reads. |
| Match.DigitPrefix | src/game/game.service.ts:17-19 | The longest all-digit prefix. |
| Match.ParseNumeral | src/game/game.service.ts:17-19 | `parseInt` reads back a decimal numeral followed by a non-digit. |
| Match.ParseNoDigits | src/game/game.service.ts:17-19 | A string without digits parses to NaN (`None`). |
| Match.TimeControlOf | src/game/game.service.ts:17-25 | NaN propagates: the basic and countdown times are NaN exactly when their settings parse to NaN. Otherwise they are the parsed minutes × 60000 ms and seconds × 1000 ms. The count is the parsed count as it stands. |
| Match.IsHandicapGame | src/game/game.service.ts:33-34 | A game is a handicap game iff its handicap parses to a positive number. NaN is never a handicap game. |
| Match.TimeControlOfNumerals | src/game/game.service.ts:17-25 | Numeral settings give basic time × 60000 ms, countdown × 1000 ms and the count as read. |
| Match.HandicapOfNumeral | src/game/game.service.ts:33-34 | The match is a handicap game iff the handicap numeral is positive. |
| Match.BuildTeams | src/game/game.service.ts:27-61 | Exactly one team is BLACK and one WHITE, and one is red and one blue. Red takes black iff the coin says so. Both teams get the same time control. Seats 0 and 1 hold the first and second room members of the team's colour, or nothing when the team is short. |
| Match.SeatsFollowJoinOrder | src/game/game.service.ts:27-28 | Seat 0 is the first member of the colour in join order, and seat 1 the next one after it. |
| Match.BuildTeamsAsWritten | src/game/game.service.ts:42-61 | The teams as written. There are two, one BLACK and one WHITE, one red and one blue, and team 0 is red iff `isRedBlack`. Both carry the parsed time control. Each team's seats 0 and 1 hold the first and second members of its team colour, or nothing. |
| Match.RedAlwaysBlackAsWritten | src/game/game.service.ts:44-45 | As written, the red team is black whatever the coin says. |
| Match.TeamsFor | src/game/game.service.ts:42-61 | Under either reading there are two teams whose stone colours are exactly the uppercase BLACK and WHITE. |
| Match.FindTeam | src/game/game.service.ts:84 | `find` by stone colour returns a team of that colour, and `None` iff no team has it. |
| Match.StrictLookupFindsNoTeam | src/game/game.service.ts:83-88 | With strict comparison, a slot named in lowercase finds no team in any match whose teams carry the uppercase names. Every slot of both cycles is lowercase, and every match this service builds has uppercase teams. |
| Match.CyclesAreLower | src/game/turnManager.ts:21-38 | Every slot of either cycle names its colour in lowercase. |
| Match.SeatOnMoveAsWritten | src/game/game.service.ts:83-84 | The strict lookup finds no team iff no team's stone colour equals the slot's colour as written. A seat it finds is the slot's seat in a team of exactly that colour. |
| Match.SeatOnMove | src/game/game.service.ts:83-90 | The case-insensitive lookup finds no team iff no team's colour equals the upper-cased slot colour. A seat it finds is the slot's seat in a team of that colour. |
| Match.SeatOnMoveFindsSlotOwner | src/game/game.service.ts:83-90 | With the colours compared in one case, each slot resolves to the team holding that colour, at the slot's seat. That seat holds the team's first or second member, or is empty. |
| Match.CycleSlotsAreSeats | src/game/turnManager.ts:21-38 | Every slot of either cycle is black or white, at seat 0 or 1. |
| Match.MoveVerdict | src/game/game.service.ts:83-100 | A move is accepted iff the slot on move resolves to a seated player, the socket is that player's, and the engine accepts the move. The new board is then the engine's. An empty seat is a fault. Both readings of the lookup are covered. |
| Match.AsWrittenMoveRejected | src/game/game.service.ts:83-88 | As written, every move at every slot of every match this service builds returns null, whoever sends it. |
| Match.GameInstance.SnapshotWith | src/game/game.service.ts:129-137 | A snapshot carries the game's id, players, settings, teams and start time unchanged, with the given JSON and slot. |
| Match.SerializeGame | src/game/game.service.ts:129-137 | The snapshot carries every field of the game but the turn manager: id, players, settings, teams and start time as they are, `gameData` as the engine's JSON, and `currentTurn` as the turn manager publishes it. |
| Match.GameService.CreateGame | src/game/game.service.ts:12-78 | An existing match id fails and changes nothing. Otherwise exactly that key is added. It maps to a fresh game with the room's id, players and settings, and the teams of the parsed time control: as written or corrected, by the service's variant. The cycle is chosen by the handicap, the index is 0, and the board is the engine's initial board. The registry keeps uppercase team colours and a lowercase cycle. |
| Match.GameService.GetGame | src/game/game.service.ts:117-123 | Returns the stored match, or GameNotFound exactly when it is absent. |
| Match.GameService.SwitchTurn | src/game/game.service.ts:111-115 | Advances that match's turn exactly once. |
| Match.GameService.ProcessMove | src/game/game.service.ts:80-106 | An unknown match fails. A rejected move returns null and changes nothing. An empty seat throws. An accepted move replaces the board with the engine's and advances the turn exactly once. Under the as-written variant, every move of every match returns null and changes nothing. |
| Match.GameService.EndGame | src/game/game.service.ts:140-142 | Removes the key. It is a no-op for an absent id. |
| Cascade.SlotSeats | src/game/game.gateway.ts:45-52 | One lookup per slot of the cycle, in cycle order. |
| Cascade.SlotSeatsAt | src/game/game.gateway.ts:45-52 | Entry `i` of `SlotSeats` is what the lookup gives for slot `i` of the cycle, under either reading. |
| Cascade.Cascade | src/game/game.gateway.ts:40-84 | No contract of its own. The loop of `handleAiTurns` as a function; `CascadeStops`, `CascadeGoesOn`, `CascadeShape` and `CascadeStep` state what it does. |
| Cascade.CascadeStops | src/game/game.gateway.ts:46-77 | Without an AI on move, an answer, and the engine's acceptance, the cascade makes no step and stays where it is. It asks the provider once iff an AI is on move, and it throws iff the seat is empty. |
| Cascade.CascadeGoesOn | src/game/game.gateway.ts:61-82 | An accepted answer is the first step, and the cascade continues from the next slot and the new board. |
| Cascade.CascadeShape | src/game/game.gateway.ts:40-84 | There are at most as many steps as answers, and one provider call per step plus one for a stop after asking. The turn advances once per step and the last step's board is kept. Each stop reason holds exactly of the seat the cascade stops on. |
| Cascade.HumanOnMoveAsksNothing | src/game/game.gateway.ts:55-57 | With a human on move, the provider is never called and nothing is played. |
| Cascade.CascadeStep | src/game/game.gateway.ts:61-79 | Step `k` is the provider's `k`-th answer, played at the `k`-th slot after the start by the AI player seated there, and accepted by the engine on the previous step's board. |
| Cascade.CascadeStepIsAccepted | src/game/game.gateway.ts:68-77 | Every step, submitted under the AI player's own socket with the provider's (y, x), is a move `processMove` accepts. |
| Cascade.AsWrittenCascadeIdle | src/game/game.gateway.ts:45-50 | As written, the lookup finds no team, so the cascade of any match this service builds stops at once. Nothing is played, the provider is not called, and the board and turn stay. |
| Cascade.HumanSeatBoundsCascade | src/game/game.gateway.ts:52-57 | If any seat of the cycle holds a human, the cascade plays at most three AI moves in a row, however long the provider answers. |
| Cascade.StepUpdatesSnoc | src/game/game.gateway.ts:82 | One more step adds exactly one broadcast, at the end. |
| Cascade.StepUpdatesAt | src/game/game.gateway.ts:82 | There is one broadcast per step, in order. Broadcast `k` shows step `k`'s board and the slot after step `k`'s slot. |
| Cascade.SerializedStep | src/game/game.gateway.ts:79-82 | Once a step is played, the serialized match is that step's update: its board and the following slot. |
| Cascade.AfterAfter | src/game/game.gateway.ts:42-83 | Prefixing steps twice is prefixing them once, joined. |
| Cascade.GameGateway.SubmitAiMove | src/game/game.gateway.ts:68-77 | Submitting the seated AI's move under its own socket is decided by the engine alone. An accepted move replaces the board and advances the turn once. A rejected move changes nothing. |
| Cascade.GameGateway.SeatToPlay | src/game/game.gateway.ts:45-52 | The loop reads the seat from the current turn of the latest state. |
| Cascade.GameGateway.AiTurn | src/game/game.gateway.ts:43-82 | One pass of the loop either plays the cascade's first step and broadcasts it once, or stops in the state the cascade stops in, with no broadcast. |
| Cascade.GameGateway.HandleAiTurns | src/game/game.gateway.ts:40-84 | The loop ends with `Cascade`'s board, index and provider call count, for the service's reading of the lookup. It throws exactly when the cascade stops on an empty seat. It broadcasts exactly one update per accepted AI move, in order. With `AsWrittenCascadeIdle`, the as-written loop ends at once. |
| Cascade.GameGateway.HandleMove | src/game/game.gateway.ts:26-38 | An unknown match throws. A rejected move or an empty seat broadcasts nothing, calls no provider and changes no state. An accepted move is broadcast once with the engine's board and the next slot. The cascade then runs from that state, and its updates follow in order. Under the as-written variant, no move of an existing match is broadcast, calls the provider, throws or changes state. |
| Cascade.GameGateway.Announce | src/game/game.gateway.ts:33-37 | The accepted branch: one broadcast of the updated match, then the cascade's updates, with the cascade's board, index, call count and throw. |
| DevRooms.JoinReady | src/dev/rooms/dev-rooms.service.ts:36-39 | One pass succeeds iff the join does, and then adds exactly one member to the same room under the same host. |
| DevRooms.Fill | src/dev/rooms/dev-rooms.service.ts:23-45 | The bots the loop adds are a leading run of the bots supplied. |
| DevRooms.FillStops | src/dev/rooms/dev-rooms.service.ts:23-45 | The loop ends when the bots run out or a join is refused. |
| DevRooms.FillGoesOn | src/dev/rooms/dev-rooms.service.ts:36-39 | Otherwise it adds the bot and goes on from the room the bot joined. |
| DevRooms.FillBounds | src/dev/rooms/dev-rooms.service.ts:23-45 | The loop adds at most the places left in the room. The room grows by exactly that many and keeps its id and host. |
| DevRooms.JoinReadyFresh | src/dev/rooms/dev-rooms.service.ts:36-39 | A fresh bot with a free place is appended, marked ready, with the existing members untouched. |
| DevRooms.FreshAfterPass | src/dev/rooms/dev-rooms.service.ts:23-45 | Once the first bot has joined, the remaining bots stay fresh. |
| DevRooms.ExtendsChain | src/dev/rooms/dev-rooms.service.ts:23-45 | Appending in two runs is appending the joined run. |
| DevRooms.FillFresh | src/dev/rooms/dev-rooms.service.ts:23-45 | With fresh ids and sockets, the loop adds min(count, places left) bots. They are appended after the existing members, in order, each with its id, nickname, socket and device, and marked ready. |
| DevRooms.FillHalts | src/dev/rooms/dev-rooms.service.ts:41-43 | A refused join or the end of the bots fixes the outcome at the bots added so far. |
| DevRooms.FillAdvances | src/dev/rooms/dev-rooms.service.ts:36-39 | A successful pass moves the loop invariant one bot on. |
| DevRooms.RandomHostChoice | src/dev/rooms/dev-rooms.service.ts:64-71 | It fails with NoOtherPlayer iff every member is the host. Otherwise it picks a member who is not the current host. |
| DevRooms.HostByNickname | src/dev/rooms/dev-rooms.service.ts:89-92 | It fails iff no member has the nickname. Otherwise it picks the first member with it. |
| DevRooms.HandOver | src/rooms/rooms.service.ts:169-181 | Handing the host role to a member of a valid room succeeds: that member becomes host and ready, and no one else changes. |
| DevRooms.RandomHostTakesOver | src/dev/rooms/dev-rooms.service.ts:71-72 | The random choice makes another member host, and that member is ready. |
| DevRooms.NamedHostTakesOver | src/dev/rooms/dev-rooms.service.ts:89-94 | The first member with the nickname becomes host and is ready. |
| DevRooms.DevRoomsService.AddVirtualPlayers | src/dev/rooms/dev-rooms.service.ts:15-57 | An unknown room fails and changes nothing. Otherwise the room becomes `Fill`'s room and the result lists `Fill`'s added bots. `roomUpdate` is emitted once iff at least one bot was added. |
| DevRooms.DevRoomsService.AddAll | src/dev/rooms/dev-rooms.service.ts:23-45 | The `for` loop with `break` leaves the registry as `Fill` says, and lists the bots `Fill` adds. |
| DevRooms.DevRoomsService.AddOne | src/dev/rooms/dev-rooms.service.ts:36-39 | One pass through the registry joins and readies the bot, or changes nothing when the join is refused. |
| DevRooms.DevRoomsService.ChangeHostRandom | src/dev/rooms/dev-rooms.service.ts:58-81 | The result is `RandomHostChoice`. On success that member is made host in the registry and the room is emitted once. On failure nothing changes. |
| DevRooms.DevRoomsService.ChangeHostByNickname | src/dev/rooms/dev-rooms.service.ts:83-103 | The result is `HostByNickname`. On success that member is made host and the room is emitted once. On failure nothing changes. |
| Handshake.UpToSemicolon | src/rooms/rooms.gateway.ts:190 | `([^;]+)` takes the longest prefix without ';'. |
| Handshake.SearchCookie | src/rooms/rooms.gateway.ts:190-192 | The leftmost-match search finds nothing iff no place from the start on matches. |
| Handshake.SearchCookieSome | src/rooms/rooms.gateway.ts:190-191 | What the search finds is the value at the first matching place. |
| Handshake.ParseCookie | src/rooms/rooms.gateway.ts:189-193 | `null` iff no `key=` opens the header or follows a space with a non-';' after it. Otherwise the result is the non-empty, ';'-free value at the first such place. |
| Handshake.CookieNamed | src/socket/socket.gateway.ts:79-83 | The reference lookup: the value of the first pair with the name, and `None` iff no pair has it. |
| Handshake.CookieRoundTrip | src/socket/socket.gateway.ts:79-83 | For plain names and values, `parseCookie` of the header a browser sends equals the reference lookup. |
| Handshake.KeyAtPairStart | src/rooms/rooms.gateway.ts:190 | At the start of a plain pair, `key=` matches iff the pair's name is the key. |
| Handshake.CookieAtShift | src/rooms/rooms.gateway.ts:190 | Past a prefix that ends in a space, the pattern matches where it matches in the remainder, with the same value. |
| Handshake.SearchSkips | src/rooms/rooms.gateway.ts:190 | The leftmost-match search passes over places where nothing matches. |
| Handshake.ParseFirstPair | src/socket/socket.gateway.ts:79-83 | A header opening with the key's pair yields that pair's value. |
| Handshake.ParseSkipsPrefix | src/socket/socket.gateway.ts:79-83 | A non-matching prefix ending in a space is skipped. |
| Handshake.OtherCookieOnly | src/rooms/rooms.gateway.ts:189-193 | `parseCookie("other=cookie", "accessToken")` is `null`. |
| Handshake.DeviceTypeOf | src/socket/socket.gateway.ts:85-96 | Tablet iff the lowercased agent passes the tablet test. Mobile iff it fails that test and passes the mobile test. Otherwise desktop. |
| Handshake.RoomsDeviceType | src/rooms/rooms.gateway.ts:195-206 | The rooms gateway's classifier: tablet iff the lowercased agent passes the tablet test, and mobile iff it fails that test and passes the case-sensitive mobile test. |
| Handshake.SocketDeviceType | src/socket/socket.gateway.ts:85-96 | The socket gateway's classifier: the same, with the mobile test ignoring case. |
| Handshake.LowerHoldsNoUpper | src/rooms/rooms.gateway.ts:196-201 | A lowercased agent contains no word that holds an uppercase letter. |
| Handshake.RoomsNeverMobile | src/rooms/rooms.gateway.ts:195-206 | The rooms gateway never answers mobile: every mobile word holds an uppercase letter and the agent is lowercased. |
| Handshake.MobileWordSplitsGateways | src/socket/socket.gateway.ts:90-94 | A non-tablet agent containing a mobile word, in any case, is mobile for the socket gateway and desktop for the rooms gateway. |
| Handshake.IPhoneAgent | src/rooms/rooms.gateway.ts:200-204 | "iPhone" is mobile for the socket gateway and desktop for the rooms gateway. |
| Handshake.AgentWithoutMarkersIsDesktop | src/socket/socket.gateway.ts:85-96 | An agent without b, d, k, p or w in either case, a Macintosh agent for example, is desktop for both gateways. |
| Handshake.SilkAcceleratedIsTablet | src/socket/socket.gateway.ts:87-91 | The tablet test runs first, so "silk-accelerated" is tablet for both gateways. |
| Handshake.AndroidPhoneIsMobile | src/socket/socket.gateway.ts:87-91 | An Android agent with "mobi" later on the same line skips the tablet branch and is mobile for the socket gateway. |

## Findings

| source | as written | input that shows it | evidently intended | confidence | as-written member | corrected member |
|---|---|---|---|---|---|---|
| src/game/game.service.ts:83-84 | The slot's colour ('black'/'white', from src/game/turnManager.ts:25-36) is compared with `===` against the teams' 'BLACK'/'WHITE'. The same comparison appears in src/game/game.gateway.ts:46. | any match this service creates and any slot, e.g. slot ('black', 0): the move returns null | The lookup finds the team holding the slot's colour, so the seated player can move. | high, not executed | Match.AsWrittenMoveRejected | Match.SeatOnMoveFindsSlotOwner |
| src/game/game.service.ts:44-45 | Both colour fields follow `isRedBlack`, so the coin only swaps the order of the teams. Red is black either way. | `isRedBlack == false`: team 0 is blue/WHITE and team 1 is red/BLACK | The coin decides which team colour takes black. | medium, not executed | Match.RedAlwaysBlackAsWritten | Match.BuildTeams |
| src/rooms/rooms.gateway.ts:200-204 | The mobile pattern has no `i` flag, but every alternative holds an uppercase letter and the agent has been lowercased. | user agent "iPhone" | "iPhone" is classified mobile, as the socket gateway's copy (with `i`) classifies it. | high, not executed | Handshake.RoomsNeverMobile | Handshake.MobileWordSplitsGateways |

How the corrections are used:

- **Variant.** A `GameService` carries a `variant`: `AsWritten` or `Intended`. Team building (`Match.TeamsFor`) and the seat lookup (`Match.SeatFor`) follow it. So do `ProcessMove`, `CreateGame` and every `GameGateway` method, through the service they hold.
- **Seat lookup.** Under `AsWritten` the lookup is `Match.SeatOnMoveAsWritten`, the strict comparison. `Match.AsWrittenMoveRejected` and `Match.GameService.ProcessMove` show that every move then returns null. `Cascade.AsWrittenCascadeIdle` and `Cascade.GameGateway.HandleMove` show that nothing is broadcast and the provider is never asked. Under `Intended` the lookup is `Match.SeatOnMove`, which upper-cases the slot's colour before comparing.
- **Team colours.** Under `AsWritten` the teams are `Match.BuildTeamsAsWritten`, where red is always black. Under `Intended` they are `Match.BuildTeams`, where red takes black iff the coin says so.
- **Device type.** `Handshake.SocketDeviceType` is the corrected classifier and `Handshake.RoomsDeviceType` the as-written one. `Handshake.IPhoneAgent` exhibits the difference on a concrete agent.

## Left out

- Aliasing of live objects. The registry hands out a room object that callers then mutate. Here rooms are values, stored back under their id after every operation.
- The `async`/`await` of the cascade: it runs sequentially, and nothing else interleaves.
- JavaScript number precision. Ids, times and the parsed settings are unbounded integers: `parseInt` past 2^53 and `* 60 * 1000` overflow into floating point are not modelled.
- Unicode case mapping. `toLowerCase`/`toUpperCase` are modelled on ASCII letters only, and other characters are left as they are. The `i` flag is modelled the same way.
- `Handshake.ParseCookie`: the cookie key is taken literally. A key holding regular-expression metacharacters would change the pattern the source builds. The callers pass only 'accessToken'.
- The concrete user-agent strings of the gateway tests. Only "iPhone" is stated as a concrete agent. The other cases are stated for every agent of their kind, for example any agent without the letters b, d, k, p or w.
- The room `status` field and a deletion grace period. The code deletes an emptied room at once (src/rooms/rooms.service.ts:85-88), and the model does the same.
- The settings names of the create-room DTO (`byoyomiTime`/`byoyomiPeriods`). The match reads `countdownTime`/`countdownCount`, so the model's `Settings` uses those names.
- Player fields missing from the declared room interface (`isReady`, `team`, `deviceType`, `isAi`). They are modelled as the services use them.
- Authentication, persistence, controllers, DTO validation and socket plumbing: joining and leaving channels, and connect/disconnect handlers. Broadcasts appear only as log entries.
- The Go engine's rules, its board and its JSON form. They are an oracle, an opaque `Board` and an opaque `Json`. The engine's handicap stones are part of the initial board handed to `CreateGame`.
- The AI provider's search. Its answers are a script of optional moves.
- `Math.random()`, `nanoid`, `Date.now()` and `new Date()`. They are parameters. `Math.floor(Math.random() * n)` is a `pick` reduced modulo `n`, and the virtual players' ids, nicknames, sockets and devices are given.
- `addVirtualPlayers`' returned `message` and `currentRoomState`. The model returns the list of added players.
- `count` is a natural number equal to the number of bots supplied. The DTO's `@Min(1)` is not imposed, because the loop does nothing for 0.
- `Cascade.SlotSeats` precomputes the seat lookup for the four slots. This is sound because a match's teams and cycle never change.
- Match.GameService.ProcessMove: under the `Intended` variant it runs the corrected lookup, not the source's. The source's own behaviour is the `AsWritten` variant.
- Match.GameService.CreateGame: under the `Intended` variant it builds the corrected teams. The source's teams are the `AsWritten` variant.
- Cascade.GameGateway.SubmitAiMove: under the `Intended` variant its seat check is the corrected lookup. Under `AsWritten` no seat is ever found, so the call is never reached.
- Cascade.GameGateway.SeatToPlay: under the `Intended` variant it is the corrected lookup. Under `AsWritten` it is the source's strict comparison.
- Cascade.GameGateway.AiTurn: under the `Intended` variant a pass can play an AI move. Under `AsWritten` the first pass stops on a missing team.
- Cascade.GameGateway.HandleAiTurns: the as-written outcome (the loop ends at once) is not in its own contract. It follows from that contract and `Cascade.AsWrittenCascadeIdle`.
- Cascade.GameGateway.HandleMove: under the `Intended` variant the cascade runs after an accepted move. Under `AsWritten` no move is accepted.
- Cascade.Cascade: when all four seats hold AI players, only the length of the provider's script bounds the loop. The source's provider answers `Move.PASS`, which is truthy, so there such a loop ends only when the engine refuses a move. `Cascade.HumanSeatBoundsCascade` bounds it by three moves whenever a human is seated.
- Lobby.KickKeepsHost: it assumes distinct sockets, which the room invariant does not include. When the host shares the target's socket, the kick removes the host too, and the host role passes to the first remaining player.
