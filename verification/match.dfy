/** `GameService` (src/game/game.service.ts): the registry of running
    matches keyed by room id. A match is built from a room snapshot (time
    control parsed from the settings strings, the two teams bound to stone
    colours by a coin, the turn cycle chosen by the handicap), and moves are
    routed through the Go engine, which is an oracle here: a function from a
    board and a coordinate to the next board, or to nothing for an illegal
    move. */
module Match {
  import opened Common
  import opened Lobby
  import opened Turns

  /** The engine's game state and its JSON form; the model never looks inside. */
  type Board
  type Json

  datatype Coord = Coord(y: int, x: int)

  // ------------------------------------------------------------- parseInt(s, 10)

  predicate IsDigit(c: char) { '0' <= c <= '9' }

  /** The white space `parseInt` skips before the number: the ECMAScript
      white space (tab, vertical tab, form feed, the byte order mark and
      every space separator of Unicode category Zs) and the line
      terminators. */
  predicate IsJsSpace(c: char) {
    || c in {'\t', '\U{000B}', '\U{000C}', '\U{FEFF}', '\n', '\r', '\U{2028}', '\U{2029}'}
    || c in {' ', '\U{00A0}', '\U{1680}', '\U{202F}', '\U{205F}', '\U{3000}'}
    || '\U{2000}' <= c <= '\U{200A}'
  }

  function TrimStart(s: string): (r: string)
    ensures |r| <= |s| && r == s[|s| - |r|..]
    ensures r == [] || !IsJsSpace(r[0])
    ensures s != [] && !IsJsSpace(s[0]) ==> r == s
  {
    if s != [] && IsJsSpace(s[0]) then TrimStart(s[1..]) else s
  }

  /** The longest prefix made of decimal digits. */
  function DigitPrefix(s: string): (r: string)
    ensures |r| <= |s| && r == s[..|r|]
    ensures forall i :: 0 <= i < |r| ==> IsDigit(r[i])
    ensures |r| < |s| ==> !IsDigit(s[|r|])
  {
    if s != [] && IsDigit(s[0]) then [s[0]] + DigitPrefix(s[1..]) else []
  }

  function DigitValue(c: char): (v: nat)
    requires IsDigit(c)
    ensures v < 10
  {
    c as int - '0' as int
  }

  function DigitsValue(d: string): nat
    requires forall i :: 0 <= i < |d| ==> IsDigit(d[i])
  {
    if d == [] then 0 else DigitsValue(d[..|d| - 1]) * 10 + DigitValue(d[|d| - 1])
  }

  /** JavaScript's `parseInt(s, 10)`: skip leading white space, read an
      optional sign and then as many decimal digits as follow. `None` is
      `NaN`, returned when no digit follows. */
  function ParseInt(s: string): (r: Option<int>)
    ensures r.Some? ==> exists i :: 0 <= i < |s| && IsDigit(s[i])
    ensures r.Some? && r.value < 0 ==> exists i :: 0 <= i < |s| && s[i] == '-'
  {
    var t := TrimStart(s);
    assert forall i :: 0 <= i < |t| ==> t[i] == s[|s| - |t| + i];
    ParseTrimmed(t)
  }

  /** What `parseInt` reads once the white space is skipped: the sign, then
      the digits. */
  function ParseTrimmed(t: string): (r: Option<int>)
    ensures r.Some? ==> exists i :: 0 <= i < |t| && IsDigit(t[i])
    ensures r.Some? && r.value < 0 ==> t != [] && t[0] == '-'
  {
    var signed := t != [] && (t[0] == '-' || t[0] == '+');
    var u := if signed then t[1..] else t;
    var d := DigitPrefix(u);
    var v: int := DigitsValue(d);
    if d == [] then None
    else
      assert IsDigit(t[|t| - |u|]) by { assert d[0] == u[0] == t[|t| - |u|]; }
      if signed && t[0] == '-' then Some(-v) else Some(v)
  }

  function DigitChar(n: nat): (c: char)
    requires n < 10
    ensures IsDigit(c)
  {
    ('0' as int + n) as char
  }

  /** The decimal numeral of `n`, the form a settings string takes. */
  function Decimal(n: nat): (s: string)
    ensures s != [] && forall i :: 0 <= i < |s| ==> IsDigit(s[i])
  {
    if n < 10 then [DigitChar(n)] else Decimal(n / 10) + [DigitChar(n % 10)]
  }

  lemma {:induction false} DigitPrefixOfNumeral(d: string, suffix: string)
    requires forall i :: 0 <= i < |d| ==> IsDigit(d[i])
    requires suffix == [] || !IsDigit(suffix[0])
    ensures DigitPrefix(d + suffix) == d
  {
    if d != [] {
      assert (d + suffix)[1..] == d[1..] + suffix;
      DigitPrefixOfNumeral(d[1..], suffix);
    } else {
      assert d + suffix == suffix;
    }
  }

  lemma {:induction false} DecimalValue(n: nat)
    ensures DigitsValue(Decimal(n)) == n
  {
    if n >= 10 {
      DecimalValue(n / 10);
      var s := Decimal(n);
      assert s[..|s| - 1] == Decimal(n / 10);
    }
  }

  /** `parseInt` reads back a numeral followed by anything that does not
      start with a digit, such as the unit letters in "10m" or "30s". */
  lemma ParseNumeral(n: nat, suffix: string)
    requires suffix == [] || !IsDigit(suffix[0])
    ensures ParseInt(Decimal(n) + suffix) == Some(n)
  {
    var s := Decimal(n) + suffix;
    assert s[0] == Decimal(n)[0] && IsDigit(s[0]);
    DigitIsNotSpaceOrSign(s[0]);
    assert TrimStart(s) == s;
    DigitPrefixOfNumeral(Decimal(n), suffix);
    DecimalValue(n);
  }

  /** A sign before the numeral is read with it: `parseInt("-5", 10)` is -5
      and `parseInt("+2", 10)` is 2. */
  lemma ParseSigned(n: nat, suffix: string)
    requires suffix == [] || !IsDigit(suffix[0])
    ensures ParseInt(['-'] + Decimal(n) + suffix) == Some(-(n as int))
    ensures ParseInt(['+'] + Decimal(n) + suffix) == Some(n)
  {
    DigitPrefixOfNumeral(Decimal(n), suffix);
    DecimalValue(n);
    SignedNumeral('-', n, suffix);
    SignedNumeral('+', n, suffix);
  }

  /** A sign is not white space, so the parse starts at the sign. */
  lemma SignedNumeral(sign: char, n: nat, suffix: string)
    requires sign == '-' || sign == '+'
    ensures var s := [sign] + Decimal(n) + suffix;
      TrimStart(s) == s && s[1..] == Decimal(n) + suffix
  {
    var s := [sign] + Decimal(n) + suffix;
    assert s[0] == sign;
    assert s[1..] == Decimal(n) + suffix;
  }

  /** Leading white space, the ideographic space U+3000 among it, is
      skipped: `parseInt("\u300010", 10)` is 10. */
  lemma ParseSkipsSpace(c: char, s: string)
    requires IsJsSpace(c)
    ensures ParseInt([c] + s) == ParseInt(s)
  {
    assert ([c] + s)[1..] == s;
    assert TrimStart([c] + s) == TrimStart(s);
  }

  lemma DigitIsNotSpaceOrSign(c: char)
    requires IsDigit(c)
    ensures !IsJsSpace(c) && c != '-' && c != '+'
  {
  }

  /** A string with no digit after its white space and sign parses to NaN,
      as "none" does. */
  lemma ParseNoDigits(s: string)
    requires forall i :: 0 <= i < |s| ==> !IsDigit(s[i])
    ensures ParseInt(s) == None
  {
    var t := TrimStart(s);
    var u := if t != [] && (t[0] == '-' || t[0] == '+') then t[1..] else t;
    assert u == s[|s| - |u|..];
    if u != [] {
      assert u[0] == s[|s| - |u|];
      assert !IsDigit(u[0]);
    }
    assert DigitPrefix(u) == [];
  }

  // ---------------------------------------------------------------- time control

  /** Per-team clock values in milliseconds and periods; `None` is `NaN`. */
  datatype TimeControl = TimeControl(
    remainingBasicTimeMs: Option<int>,
    remainingCountdownTimeMs: Option<int>,
    remainingCountdownCount: Option<int>)

  function Scaled(v: Option<int>, k: int): Option<int> {
    match v
    case None => None
    case Some(x) => Some(x * k)
  }

  /** Basic time is given in minutes, the countdown in seconds, the number
      of countdowns as a count. */
  function TimeControlOf(s: Settings): (t: TimeControl)
    ensures t.remainingBasicTimeMs.None? <==> ParseInt(s.basicTime).None?
    ensures t.remainingCountdownTimeMs.None? <==> ParseInt(s.countdownTime).None?
    ensures t.remainingCountdownCount == ParseInt(s.countdownCount)
    ensures ParseInt(s.basicTime).Some? ==> t.remainingBasicTimeMs.value == ParseInt(s.basicTime).value * 60000
    ensures ParseInt(s.countdownTime).Some? ==> t.remainingCountdownTimeMs.value == ParseInt(s.countdownTime).value * 1000
  {
    TimeControl(Scaled(ParseInt(s.basicTime), 60 * 1000), Scaled(ParseInt(s.countdownTime), 1000), ParseInt(s.countdownCount))
  }

  lemma TimeControlOfNumerals(s: Settings, basic: nat, countdown: nat, count: nat, u1: string, u2: string, u3: string)
    requires u1 == [] || !IsDigit(u1[0])
    requires u2 == [] || !IsDigit(u2[0])
    requires u3 == [] || !IsDigit(u3[0])
    requires s.basicTime == Decimal(basic) + u1
    requires s.countdownTime == Decimal(countdown) + u2
    requires s.countdownCount == Decimal(count) + u3
    ensures TimeControlOf(s) == TimeControl(Some(basic * 60000), Some(countdown * 1000), Some(count))
  {
    ParseNumeral(basic, u1);
    ParseNumeral(countdown, u2);
    ParseNumeral(count, u3);
  }

  /** `!isNaN(handicap) && handicap > 0`. */
  function IsHandicapGame(handicap: string): (b: bool)
    ensures b <==> ParseInt(handicap).Some? && ParseInt(handicap).value > 0
    ensures ParseInt(handicap).None? ==> !b
  {
    match ParseInt(handicap)
    case None => false
    case Some(h) => h > 0
  }

  lemma HandicapOfNumeral(n: nat, suffix: string)
    requires suffix == [] || !IsDigit(suffix[0])
    ensures IsHandicapGame(Decimal(n) + suffix) <==> n > 0
  {
    ParseNumeral(n, suffix);
  }

  // ----------------------------------------------------------------------- teams

  /** One of a team's two seats. `data` is `None` when the team has fewer
      members than the seat index needs (the source stores `undefined`). */
  datatype Seat = Seat(data: Option<Player>, index: nat)

  datatype MatchTeam = MatchTeam(teamColor: TeamColor, stoneColor: string, players: seq<Seat>, timeControl: TimeControl)

  const BlackStone: string := "BLACK"
  const WhiteStone: string := "WHITE"

  /** The room's players of one team colour, in join order. */
  function Members(ps: seq<Player>, c: TeamColor): (r: seq<Player>)
    ensures forall q :: q in r <==> q in ps && q.team == c
  {
    Filter(ps, (q: Player) => q.team == c)
  }

  function SeatOf(members: seq<Player>, i: nat): (s: Seat)
    ensures s.index == i && (s.data.Some? <==> i < |members|)
    ensures s.data.Some? ==> s.data.value == members[i]
  {
    Seat(if i < |members| then Some(members[i]) else None, i)
  }

  function TeamOf(ps: seq<Player>, c: TeamColor, stone: string, tc: TimeControl): MatchTeam {
    var m := Members(ps, c);
    MatchTeam(c, stone, [SeatOf(m, 0), SeatOf(m, 1)], tc)
  }

  /** The two teams as written: the coin `isRedBlack` picks which team is
      listed first, but the first team is red exactly when it is black, so
      the red team holds black whatever the coin says. */
  function BuildTeamsAsWritten(ps: seq<Player>, isRedBlack: bool, tc: TimeControl): (teams: seq<MatchTeam>)
    ensures |teams| == 2
    ensures {teams[0].stoneColor, teams[1].stoneColor} == {BlackStone, WhiteStone}
    ensures {teams[0].teamColor, teams[1].teamColor} == {Red, Blue}
    ensures teams[0].teamColor == Red <==> isRedBlack
    ensures forall t :: t in teams ==>
      && t.timeControl == tc
      && |t.players| == 2
      && t.players[0] == SeatOf(Members(ps, t.teamColor), 0)
      && t.players[1] == SeatOf(Members(ps, t.teamColor), 1)
  {
    assert BlackStone != WhiteStone by { assert BlackStone[0] != WhiteStone[0]; }
    [ TeamOf(ps, if isRedBlack then Red else Blue, if isRedBlack then BlackStone else WhiteStone, tc),
      TeamOf(ps, if isRedBlack then Blue else Red, if isRedBlack then WhiteStone else BlackStone, tc) ]
  }

  lemma RedAlwaysBlackAsWritten(ps: seq<Player>, isRedBlack: bool, tc: TimeControl)
    ensures forall t :: t in BuildTeamsAsWritten(ps, isRedBlack, tc) ==> (t.stoneColor == BlackStone <==> t.teamColor == Red)
  {
    assert BlackStone != WhiteStone by { assert BlackStone[0] != WhiteStone[0]; }
  }

  /** The two teams of a new match, with the coin `isRedBlack` (the draw of
      `Math.random() < 0.5`) deciding whether the red team takes black. */
  function BuildTeams(ps: seq<Player>, isRedBlack: bool, tc: TimeControl): (teams: seq<MatchTeam>)
    ensures |teams| == 2
    ensures {teams[0].stoneColor, teams[1].stoneColor} == {BlackStone, WhiteStone}
    ensures {teams[0].teamColor, teams[1].teamColor} == {Red, Blue}
    ensures forall t :: t in teams ==> (t.stoneColor == BlackStone <==> (t.teamColor == Red <==> isRedBlack))
    ensures forall t :: t in teams ==>
      && t.timeControl == tc
      && |t.players| == 2
      && t.players[0] == SeatOf(Members(ps, t.teamColor), 0)
      && t.players[1] == SeatOf(Members(ps, t.teamColor), 1)
  {
    assert BlackStone != WhiteStone by { assert BlackStone[0] != WhiteStone[0]; }
    [ TeamOf(ps, Red, if isRedBlack then BlackStone else WhiteStone, tc),
      TeamOf(ps, Blue, if isRedBlack then WhiteStone else BlackStone, tc) ]
  }

  /** Which reading of the colour handling a service runs: the code as
      written (the turn's lowercase colour compared with `===` against the
      teams' uppercase ones, and red always black), or the evidently
      intended one (colours compared in one case, and the coin deciding
      which team takes black). */
  datatype Variant = AsWritten | Intended

  /** Both colour strings of every team are the uppercase stone names. */
  predicate UpperStones(teams: seq<MatchTeam>) {
    forall t :: t in teams ==> t.stoneColor == BlackStone || t.stoneColor == WhiteStone
  }

  /** The teams `createGame` builds under either reading. */
  function TeamsFor(v: Variant, ps: seq<Player>, isRedBlack: bool, tc: TimeControl): (teams: seq<MatchTeam>)
    ensures |teams| == 2 && UpperStones(teams)
    ensures {teams[0].stoneColor, teams[1].stoneColor} == {BlackStone, WhiteStone}
  {
    if v == AsWritten then BuildTeamsAsWritten(ps, isRedBlack, tc) else BuildTeams(ps, isRedBlack, tc)
  }

  /** Seat 0 of a team holds the first room member of its colour and seat 1
      the next one after it. */
  lemma SeatsFollowJoinOrder(ps: seq<Player>, c: TeamColor)
    ensures var m := Members(ps, c); var p := (q: Player) => q.team == c;
      && (m != [] ==> FindFirst(ps, p).Some? && m[0] == ps[FindFirst(ps, p).value])
      && (|m| >= 2 ==>
            var i := FindFirst(ps, p).value;
            FindFirst(ps[i + 1..], p).Some? && m[1] == ps[i + 1 + FindFirst(ps[i + 1..], p).value])
  {
    var p := (q: Player) => q.team == c;
    var m := Members(ps, c);
    match FindFirst(ps, p)
    case None =>
      FilterNone(ps, p);
    case Some(i) =>
      FilterSkipsTo(ps, p, i);
      var rest := ps[i + 1..];
      match FindFirst(rest, p)
      case None =>
        FilterNone(rest, p);
      case Some(j) =>
        FilterSkipsTo(rest, p, j);
  }

  lemma {:induction false} FilterNone<T(!new)>(s: seq<T>, p: T -> bool)
    requires forall k :: 0 <= k < |s| ==> !p(s[k])
    ensures Filter(s, p) == []
  {
    if s != [] {
      FilterNone(s[1..], p);
    }
  }

  /** Filtering skips everything before the first hit, keeps the hit, and
      carries on after it. */
  lemma {:induction false} FilterSkipsTo<T(!new)>(s: seq<T>, p: T -> bool, i: nat)
    requires i < |s| && p(s[i]) && forall k :: 0 <= k < i ==> !p(s[k])
    ensures Filter(s, p) == [s[i]] + Filter(s[i + 1..], p)
  {
    if i > 0 {
      FilterSkipsTo(s[1..], p, i - 1);
      assert s[1..][i..] == s[i + 1..];
    }
  }

  // ---------------------------------------------------------- who is on move

  /** The outcome of resolving the slot on move to a seated player. */
  datatype Lookup = NoTeam | EmptySeat | Seated(player: Player)

  /** `teams.find(t => t.stoneColor === color)`. */
  function FindTeam(teams: seq<MatchTeam>, color: string): (r: Option<MatchTeam>)
    ensures r.Some? ==> r.value in teams && r.value.stoneColor == color
    ensures r.None? <==> forall t :: t in teams ==> t.stoneColor != color
  {
    match FindFirst(teams, (t: MatchTeam) => t.stoneColor == color)
    case None => None
    case Some(i) => Some(teams[i])
  }

  function SeatIn(team: MatchTeam, playerIndex: nat): (r: Lookup)
    ensures r != NoTeam
  {
    if playerIndex < |team.players| && team.players[playerIndex].data.Some?
    then Seated(team.players[playerIndex].data.value)
    else EmptySeat
  }

  /** The lookup as written: the slot's colour compared with `===` against
      the teams' colours. */
  function SeatOnMoveAsWritten(teams: seq<MatchTeam>, turn: Slot): (r: Lookup)
    ensures r == NoTeam <==> forall t :: t in teams ==> t.stoneColor != turn.stoneColor
    ensures r.Seated? ==> exists t :: t in teams && t.stoneColor == turn.stoneColor
                                      && SeatIn(t, turn.playerIndex) == r
  {
    match FindTeam(teams, turn.stoneColor)
    case None => NoTeam
    case Some(t) => SeatIn(t, turn.playerIndex)
  }

  /** The lookup the code evidently intends: the slot's colour is compared
      after upper-casing, so 'black' finds the 'BLACK' team. */
  function SeatOnMove(teams: seq<MatchTeam>, turn: Slot): (r: Lookup)
    ensures r == NoTeam <==> forall t :: t in teams ==> t.stoneColor != Upper(turn.stoneColor)
    ensures r.Seated? ==> exists t :: t in teams && t.stoneColor == Upper(turn.stoneColor)
                                      && SeatIn(t, turn.playerIndex) == r
  {
    match FindTeam(teams, Upper(turn.stoneColor))
    case None => NoTeam
    case Some(t) => SeatIn(t, turn.playerIndex)
  }

  /** The lookup `processMove` and the gateway make under either reading. */
  function SeatFor(v: Variant, teams: seq<MatchTeam>, turn: Slot): Lookup {
    if v == AsWritten then SeatOnMoveAsWritten(teams, turn) else SeatOnMove(teams, turn)
  }

  lemma UpperColours()
    ensures Upper(Black) == BlackStone && Upper(White) == WhiteStone
  {
    assert Upper(Black) == ['B', 'L', 'A', 'C', 'K'];
    assert Upper(White) == ['W', 'H', 'I', 'T', 'E'];
  }

  /** Every slot of the cycle names its colour in lowercase, as both turn
      cycles do. */
  ghost predicate LowerSlots(cycle: seq<Slot>) {
    forall k :: 0 <= k < |cycle| ==> cycle[k].stoneColor == Black || cycle[k].stoneColor == White
  }

  lemma CyclesAreLower(isHandicap: bool)
    ensures LowerSlots(Cycle(isHandicap))
  {
    var c := Cycle(isHandicap);
    forall k | 0 <= k < |c|
      ensures c[k].stoneColor == Black || c[k].stoneColor == White
    {
      assert c[k] in c;
    }
  }

  /** The strict comparison finds no team for a slot named in lowercase
      (as every slot of both turn cycles is) in any match whose teams carry
      the uppercase stone names, as every match this service builds does. */
  lemma StrictLookupFindsNoTeam(teams: seq<MatchTeam>, turn: Slot)
    requires UpperStones(teams) && (turn.stoneColor == Black || turn.stoneColor == White)
    ensures SeatOnMoveAsWritten(teams, turn) == NoTeam
  {
    assert Black != BlackStone && Black != WhiteStone by { assert Black[0] != BlackStone[0] && Black[0] != WhiteStone[0]; }
    assert White != BlackStone && White != WhiteStone by { assert White[0] != BlackStone[0] && White[0] != WhiteStone[0]; }
  }

  /** With the colours compared case-insensitively, every slot of the cycle
      resolves to the team holding that stone colour, at the slot's seat:
      the team's first member of that colour for seat 0, the second for
      seat 1, and an undefined seat when the team is short. */
  lemma SeatOnMoveFindsSlotOwner(ps: seq<Player>, isRedBlack: bool, tc: TimeControl, slot: Slot)
    requires slot.stoneColor == Black || slot.stoneColor == White
    requires slot.playerIndex < 2
    ensures var c := if (slot.stoneColor == Black) == isRedBlack then Red else Blue;
      var m := Members(ps, c);
      SeatOnMove(BuildTeams(ps, isRedBlack, tc), slot) == (if slot.playerIndex < |m| then Seated(m[slot.playerIndex]) else EmptySeat)
  {
    UpperColours();
    var teams := BuildTeams(ps, isRedBlack, tc);
    var up := Upper(slot.stoneColor);
    assert up == (if slot.stoneColor == Black then BlackStone else WhiteStone);
    var c := if (slot.stoneColor == Black) == isRedBlack then Red else Blue;
    var i := if c == Red then 0 else 1;
    assert teams[i].teamColor == c;
    assert teams[i].stoneColor == up && teams[1 - i].stoneColor != up;
    FindTeamAt(teams, up, i);
    assert SeatOnMove(teams, slot) == SeatIn(teams[i], slot.playerIndex);
    var m := Members(ps, c);
    var seat := SeatOf(m, slot.playerIndex);
    assert teams[i].players[slot.playerIndex] == seat;
    assert SeatIn(teams[i], slot.playerIndex) == if seat.data.Some? then Seated(seat.data.value) else EmptySeat;
  }

  /** Every slot of either turn cycle is one the lemma above applies to. */
  lemma CycleSlotsAreSeats(isHandicap: bool, k: nat)
    requires k < 4
    ensures var slot := Cycle(isHandicap)[k];
      (slot.stoneColor == Black || slot.stoneColor == White) && slot.playerIndex < 2
  {
    var c := Cycle(isHandicap);
    assert c[k] in c;
  }

  lemma FindTeamAt(teams: seq<MatchTeam>, color: string, i: nat)
    requires |teams| == 2 && i < 2
    requires teams[i].stoneColor == color && teams[1 - i].stoneColor != color
    ensures FindTeam(teams, color) == Some(teams[i])
  {
  }

  // ------------------------------------------------------------ move verdict

  /** What `processMove` decides for a game with these teams, slot on move
      and board, before touching any state. */
  datatype Verdict = Rejected | SeatFault | Accepted(board: Board)

  function MoveVerdict(v: Variant, teams: seq<MatchTeam>, turn: Slot, board: Board, socketId: string,
                       coord: Coord, oracle: (Board, Coord) -> Option<Board>): (r: Verdict)
    // accepted exactly when the slot on move resolves to a seated player,
    // the move comes from that player's socket and the engine takes it
    ensures var seat := SeatFor(v, teams, turn);
      r.Accepted? <==> seat.Seated? && seat.player.socketId == socketId && oracle(board, coord).Some?
    ensures r.Accepted? ==> r.board == oracle(board, coord).value
    // an empty seat is a fault whatever the socket and the move
    ensures r == SeatFault <==> SeatFor(v, teams, turn) == EmptySeat
  {
    match SeatFor(v, teams, turn)
    case NoTeam => Rejected
    case EmptySeat => SeatFault
    case Seated(p) =>
      if p.socketId != socketId then Rejected
      else match oracle(board, coord)
        case None => Rejected
        case Some(b) => Accepted(b)
  }

  /** As written, `processMove` refuses every move of every match this
      service builds, at every slot of the cycle, whoever sends it. */
  lemma AsWrittenMoveRejected(teams: seq<MatchTeam>, turn: Slot, board: Board, socketId: string,
                              coord: Coord, oracle: (Board, Coord) -> Option<Board>)
    requires UpperStones(teams) && (turn.stoneColor == Black || turn.stoneColor == White)
    ensures MoveVerdict(AsWritten, teams, turn, board, socketId, coord, oracle) == Rejected
  {
    StrictLookupFindsNoTeam(teams, turn);
  }

  // --------------------------------------------------------------- instances

  /** The snapshot sent to clients: the game without its turn manager, with
      the engine state in JSON form and the current slot. */
  datatype SerializedGame = SerializedGame(
    id: string, players: seq<Player>, settings: Settings, teams: seq<MatchTeam>,
    startedAt: int, gameData: Json, currentTurn: Slot)

  class GameInstance {
    const id: string
    const players: seq<Player>
    const settings: Settings
    const teams: seq<MatchTeam>
    const turnManager: TurnManager
    const startedAt: int
    var gameData: Board

    constructor (id: string, players: seq<Player>, settings: Settings, teams: seq<MatchTeam>,
                 turnManager: TurnManager, startedAt: int, gameData: Board)
      ensures this.id == id && this.players == players && this.settings == settings
      ensures this.teams == teams && this.turnManager == turnManager
      ensures this.startedAt == startedAt && this.gameData == gameData
    {
      this.id := id;
      this.players := players;
      this.settings := settings;
      this.teams := teams;
      this.turnManager := turnManager;
      this.startedAt := startedAt;
      this.gameData := gameData;
    }

    /** The `currentTurn` getter. */
    function CurrentTurn(): Slot
      reads this, turnManager
    {
      turnManager.currentTurn
    }

    /** The snapshot this game would give with the engine state `json` and
        the slot `turn` on move. */
    function SnapshotWith(json: Json, turn: Slot): (s: SerializedGame)
      ensures s.id == id && s.players == players && s.settings == settings && s.teams == teams
      ensures s.startedAt == startedAt && s.gameData == json && s.currentTurn == turn
    {
      SerializedGame(id, players, settings, teams, startedAt, json, turn)
    }
  }

  /** `serializeGame`: every field of the game except the turn manager,
      the engine state as JSON, and the slot the turn manager publishes. */
  function SerializeGame(g: GameInstance, toJson: Board -> Json): (s: SerializedGame)
    reads g, g.turnManager
    ensures s.id == g.id && s.players == g.players && s.settings == g.settings && s.teams == g.teams
    ensures s.startedAt == g.startedAt && s.gameData == toJson(g.gameData)
    ensures s.currentTurn == g.turnManager.currentTurn
  {
    g.SnapshotWith(toJson(g.gameData), g.CurrentTurn())
  }

  /** `g` is what `createGame` builds from `room`. */
  ghost predicate BuiltFrom(g: GameInstance, v: Variant, room: Room, isRedBlack: bool, startedAt: int, initial: Board)
    reads g, g.turnManager
  {
    && g.id == room.id && g.players == room.players && g.settings == room.settings
    && g.teams == TeamsFor(v, room.players, isRedBlack, TimeControlOf(room.settings))
    && g.turnManager.cycle == Cycle(IsHandicapGame(room.settings.handicap))
    && g.turnManager.index == 0 && g.turnManager.Valid()
    && g.startedAt == startedAt && g.gameData == initial
  }

  class GameService {
    /** Which reading of the colour handling this service runs. */
    const variant: Variant
    var games: map<string, GameInstance>
    ghost var Repr: set<object>

    ghost predicate Valid()
      reads this, Repr
    {
      forall id :: id in games ==>
        && games[id] in Repr && games[id].turnManager in Repr
        && games[id].id == id && games[id].turnManager.Valid()
        // the colour strings as `createGame` leaves them: uppercase on the
        // teams, lowercase on the turn cycle
        && UpperStones(games[id].teams) && LowerSlots(games[id].turnManager.cycle)
    }

    constructor (variant: Variant)
      ensures Valid() && this.variant == variant && games == map[] && Repr == {}
    {
      this.variant := variant;
      games := map[];
      Repr := {};
    }

    /** `createGame`. The colour coin, the start time and the engine's
        initial position (built by the engine from the handicap) are
        parameters. */
    method CreateGame(room: Room, isRedBlack: bool, startedAt: int, initial: Board) returns (r: Result<GameInstance>)
      requires Valid()
      modifies this
      ensures Valid()
      ensures room.id in old(games) ==> r == Failure(GameAlreadyExists) && games == old(games)
      ensures room.id !in old(games) ==>
        && r.Success? && fresh(r.value) && fresh(r.value.turnManager)
        && games == old(games)[room.id := r.value]
        && BuiltFrom(r.value, variant, room, isRedBlack, startedAt, initial)
    {
      if room.id in games {
        return Failure(GameAlreadyExists);
      }
      var tc := TimeControlOf(room.settings);
      var teams := TeamsFor(variant, room.players, isRedBlack, tc);
      var turnManager := new TurnManager(IsHandicapGame(room.settings.handicap));
      CyclesAreLower(IsHandicapGame(room.settings.handicap));
      var g := new GameInstance(room.id, room.players, room.settings, teams, turnManager, startedAt, initial);
      assert UpperStones(g.teams) && LowerSlots(g.turnManager.cycle);
      games := games[room.id := g];
      Repr := Repr + {g, turnManager};
      r := Success(g);
      forall id | id in games
        ensures games[id] in Repr && games[id].turnManager in Repr && games[id].id == id
        ensures games[id].turnManager.Valid()
        ensures UpperStones(games[id].teams) && LowerSlots(games[id].turnManager.cycle)
      {
        if id != room.id {
          assert games[id] == old(games)[id];
        }
      }
    }

    /** `getGame`. */
    method GetGame(roomId: string) returns (r: Result<GameInstance>)
      ensures r.Success? <==> roomId in games
      ensures r.Success? ==> r.value == games[roomId]
      ensures r.Failure? ==> r.error == GameNotFound
    {
      if roomId in games {
        r := Success(games[roomId]);
      } else {
        r := Failure(GameNotFound);
      }
    }

    /** `switchTurn`. */
    method SwitchTurn(gameId: string) returns (r: Result<GameInstance>)
      requires Valid()
      modifies if gameId in games then {games[gameId].turnManager} else {}
      ensures Valid()
      ensures gameId !in games ==> r == Failure(GameNotFound)
      ensures gameId in games ==>
        r == Success(games[gameId]) && games[gameId].turnManager.index == IndexAfter(old(games[gameId].turnManager.index), 1)
    {
      r := GetGame(gameId);
      if r.Success? {
        var t := r.value.turnManager.NextTurn();
      }
    }

    /** `processMove`: the move is accepted only from the socket seated at
        the slot on move and only if the engine accepts it; then the board is
        replaced and the turn advances once. Otherwise nothing changes. */
    method ProcessMove(gameId: string, socketId: string, y: int, x: int,
                       oracle: (Board, Coord) -> Option<Board>) returns (r: Result<Option<GameInstance>>)
      requires Valid()
      modifies if gameId in games then {games[gameId], games[gameId].turnManager} else {}
      ensures Valid()
      ensures gameId !in games ==> r == Failure(GameNotFound)
      ensures gameId in games ==>
        var g := games[gameId];
        match MoveVerdict(variant, g.teams, old(g.turnManager.currentTurn), old(g.gameData), socketId, Coord(y, x), oracle)
        case Rejected =>
          r == Success(None) && g.gameData == old(g.gameData) && g.turnManager.index == old(g.turnManager.index)
        case SeatFault =>
          r == Failure(SeatUndefined) && g.gameData == old(g.gameData) && g.turnManager.index == old(g.turnManager.index)
        case Accepted(b) =>
          r == Success(Some(g)) && g.gameData == b && g.turnManager.index == IndexAfter(old(g.turnManager.index), 1)
      ensures variant == AsWritten && gameId in games ==>
        var g := games[gameId];
        r == Success(None) && g.gameData == old(g.gameData) && g.turnManager.index == old(g.turnManager.index)
    {
      var found := GetGame(gameId);
      if found.Failure? {
        return Failure(found.error);
      }
      var g := found.value;
      var turn := g.CurrentTurn();
      if variant == AsWritten {
        AsWrittenMoveRejected(g.teams, turn, g.gameData, socketId, Coord(y, x), oracle);
      }
      var seat := SeatFor(variant, g.teams, turn);
      if seat.NoTeam? {
        return Success(None);
      }
      if seat.EmptySeat? {
        return Failure(SeatUndefined);
      }
      if seat.player.socketId != socketId {
        return Success(None);
      }
      var next := oracle(g.gameData, Coord(y, x));
      if next.None? {
        return Success(None);
      }
      g.gameData := next.value;
      var switched := SwitchTurn(gameId);
      r := Success(Some(g));
    }

    /** `endGame`: forget the match; an unknown id is a no-op, so ending twice
        is the same as ending once. */
    method EndGame(roomId: string)
      requires Valid()
      modifies this
      ensures Valid()
      ensures games == old(games) - {roomId}
      ensures roomId !in old(games) ==> games == old(games)
    {
      games := games - {roomId};
    }
  }
}
