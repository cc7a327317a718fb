/** `TurnManagerImpl` (src/game/turnManager.ts): a fixed cycle of four
    (stone colour, seat) slots chosen once by the handicap flag, and an index
    that moves forward modulo four. Colours are the lowercase strings the
    source writes. */
module Turns {

  datatype Slot = Slot(stoneColor: string, playerIndex: nat)

  const Black: string := "black"
  const White: string := "white"

  /** The order of play. Even (non-handicap) games start with black's first
      seat; handicap games start with white's. */
  function Cycle(isHandicap: bool): (c: seq<Slot>)
    ensures |c| == 4
    ensures c[0] == (if isHandicap then Slot(White, 0) else Slot(Black, 0))
    // the four slots are pairwise distinct
    ensures c[0] != c[1] && c[0] != c[2] && c[0] != c[3]
    ensures c[1] != c[2] && c[1] != c[3] && c[2] != c[3]
    // consecutive slots, wrapping around, alternate colour
    ensures c[0].stoneColor != c[1].stoneColor && c[1].stoneColor != c[2].stoneColor
    ensures c[2].stoneColor != c[3].stoneColor && c[3].stoneColor != c[0].stoneColor
    // each colour plays its seat 0, then its seat 1
    ensures c[0].playerIndex == 0 && c[1].playerIndex == 0
    ensures c[2].playerIndex == 1 && c[3].playerIndex == 1
    ensures c[0].stoneColor == c[2].stoneColor && c[1].stoneColor == c[3].stoneColor
    ensures forall s :: s in c ==> s.stoneColor in {Black, White}
  {
    if isHandicap then
      [Slot(White, 0), Slot(Black, 0), Slot(White, 1), Slot(Black, 1)]
    else
      [Slot(Black, 0), Slot(White, 0), Slot(Black, 1), Slot(White, 1)]
  }

  /** Where the index stands after `n` calls of `nextTurn` from `i`. */
  function IndexAfter(i: nat, n: nat): (j: nat)
    requires i < 4
    ensures j < 4
  {
    if n == 0 then i else (IndexAfter(i, n - 1) + 1) % 4
  }

  /** `n` steps from `i` land on `(i + n) mod 4`; in particular four steps
      come back to the start and the four slots met on the way are the four
      slots of the cycle. */
  lemma {:induction false} IndexAfterIsModular(i: nat, n: nat)
    requires i < 4
    ensures IndexAfter(i, n) == (i + n) % 4
  {
    if n > 0 {
      IndexAfterIsModular(i, n - 1);
    }
  }

  /** One call of `nextTurn` moves to the following slot. */
  lemma IndexAfterOne(i: nat)
    requires i < 4
    ensures IndexAfter(i, 1) == (i + 1) % 4
  {
  }

  /** One step and then `n` more is `n + 1` steps. */
  lemma {:induction false} IndexAfterShift(i: nat, n: nat)
    requires i < 4
    ensures IndexAfter(IndexAfter(i, 1), n) == IndexAfter(i, n + 1)
  {
    if n > 0 {
      IndexAfterShift(i, n - 1);
    }
  }

  lemma FourStepsReturn(i: nat, n: nat)
    requires i < 4
    ensures IndexAfter(i, n + 4) == IndexAfter(i, n)
    ensures var a, b, c, d := IndexAfter(i, n), IndexAfter(i, n + 1), IndexAfter(i, n + 2), IndexAfter(i, n + 3);
      a != b && a != c && a != d && b != c && b != d && c != d
  {
    IndexAfterIsModular(i, n);
    IndexAfterIsModular(i, n + 1);
    IndexAfterIsModular(i, n + 2);
    IndexAfterIsModular(i, n + 3);
    IndexAfterIsModular(i, n + 4);
  }

  class TurnManager {
    const cycle: seq<Slot>
    var index: nat
    var currentTurn: Slot

    ghost predicate Valid()
      reads this
    {
      |cycle| == 4 && index < 4 && currentTurn == cycle[index]
    }

    constructor (isHandicap: bool)
      ensures Valid()
      ensures cycle == Cycle(isHandicap) && index == 0
      ensures currentTurn == (if isHandicap then Slot(White, 0) else Slot(Black, 0))
    {
      cycle := Cycle(isHandicap);
      index := 0;
      new;
      UpdateCurrentTurn();
    }

    /** `nextTurn`: one step forward, wrapping after the fourth slot. */
    method NextTurn() returns (t: Slot)
      requires Valid()
      modifies this
      ensures Valid()
      ensures index == IndexAfter(old(index), 1)
      ensures t == currentTurn
    {
      index := (index + 1) % |cycle|;
      UpdateCurrentTurn();
      t := currentTurn;
    }

    /** `updateCurrentTurn`: the published slot is a copy of the cycle entry. */
    method UpdateCurrentTurn()
      requires |cycle| == 4 && index < 4
      modifies this`currentTurn
      ensures Valid()
    {
      currentTurn := cycle[index];
    }
  }
}
