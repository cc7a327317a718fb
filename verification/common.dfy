/** Shared vocabulary: optional values, the failures the services raise,
    a first-match search and an order-preserving filter over sequences,
    and ASCII case mapping over strings. */
module Common {

  datatype Option<+T> = None | Some(value: T)

  /** Every failure the modelled services raise. The ones thrown as
      `NotFoundException` are told apart by `IsNotFound`; the rest are plain
      `Error`s, except `SeatUndefined`, the `TypeError` raised when code reads
      a field of a seat that holds no player. */
  datatype Error =
    | RoomNotFound
    | AlreadyInRoom
    | RoomFull
    | NotHostForSettings
    | TeamTargetNotFound
    | NoTeamPermission
    | NotHostForKick
    | KickSelf
    | KickTargetNotFound
    | NewHostNotFound
    | GameAlreadyExists
    | GameNotFound
    | SeatUndefined
    | NoOtherPlayer
    | NicknameNotFound
  {
    predicate IsNotFound() {
      || RoomNotFound? || TeamTargetNotFound? || KickTargetNotFound?
      || NewHostNotFound? || GameNotFound?
    }
  }

  datatype Result<+T> = Success(value: T) | Failure(error: Error)

  /** Index of the first element satisfying `p` (JavaScript's `findIndex`,
      and `find` when the element is then read). */
  function FindFirst<T>(s: seq<T>, p: T -> bool): (r: Option<nat>)
    ensures r.Some? ==> r.value < |s| && p(s[r.value])
    ensures r.Some? ==> forall k :: 0 <= k < r.value ==> !p(s[k])
    ensures r.None? <==> forall k :: 0 <= k < |s| ==> !p(s[k])
  {
    if s == [] then None
    else if p(s[0]) then Some(0)
    else match FindFirst(s[1..], p)
      case None =>
        assert forall k :: 1 <= k < |s| ==> s[k] == s[1..][k - 1];
        None
      case Some(i) =>
        assert forall k :: 1 <= k < i + 1 ==> s[k] == s[1..][k - 1];
        Some(i + 1)
  }

  /** The elements of `s` satisfying `p`, in their original order
      (JavaScript's `filter`). */
  function Filter<T(!new)>(s: seq<T>, p: T -> bool): (r: seq<T>)
    ensures |r| <= |s|
    ensures forall x :: x in r <==> x in s && p(x)
  {
    if s == [] then []
    else (if p(s[0]) then [s[0]] else []) + Filter(s[1..], p)
  }

  /** Filtering a sequence in which `p` holds everywhere leaves it as it is. */
  lemma {:induction false} FilterAll<T(!new)>(s: seq<T>, p: T -> bool)
    requires forall x :: x in s ==> p(x)
    ensures Filter(s, p) == s
  {
    if s != [] {
      assert forall x :: x in s[1..] ==> x in s;
      FilterAll(s[1..], p);
    }
  }

  predicate IsUpper(c: char) { 'A' <= c <= 'Z' }

  function LowerChar(c: char): (d: char)
    ensures !IsUpper(d)
    ensures !IsUpper(c) ==> d == c
  {
    if IsUpper(c) then (c as int + 32) as char else c
  }

  function UpperChar(c: char): (d: char)
    ensures 'a' <= c <= 'z' ==> IsUpper(d)
    ensures !('a' <= c <= 'z') ==> d == c
  {
    if 'a' <= c <= 'z' then (c as int - 32) as char else c
  }

  /** `toLowerCase` restricted to ASCII letters. */
  function Lower(s: string): (r: string)
    ensures |r| == |s|
    ensures forall i :: 0 <= i < |s| ==> r[i] == LowerChar(s[i])
  {
    seq(|s|, i requires 0 <= i < |s| => LowerChar(s[i]))
  }

  /** `toUpperCase` restricted to ASCII letters. */
  function Upper(s: string): (r: string)
    ensures |r| == |s|
    ensures forall i :: 0 <= i < |s| ==> r[i] == UpperChar(s[i])
  {
    seq(|s|, i requires 0 <= i < |s| => UpperChar(s[i]))
  }

  /** `s` has `pat` as a contiguous piece starting at `i`. */
  predicate OccursAt(s: string, pat: string, i: nat) {
    i + |pat| <= |s| && s[i..i + |pat|] == pat
  }

  /** `s.includes(pat)`, equivalently a regular expression made of the
      literal `pat` alone finding a match in `s`. */
  predicate Contains(s: string, pat: string) {
    exists i: nat :: i + |pat| <= |s| && OccursAt(s, pat, i)
  }
}
