/**
 The dice of the Yatzy game board: the game constants, the die values and
 the occurrence count that every scoring rule is built on.

 A die is a face 1..6, or 0 before the first throw of a game. The number of
 dice and the number of throws per turn come from constants/Game, which is
 not part of this model; the game is played with five dice and three throws.
 */
module Dice {

  /** NBR_OF_DICES */
  const DiceCount := 5

  /** NBR_OF_THROWS */
  const ThrowCount := 3

  /** The value of a die that has not been thrown yet in this game. */
  const Unrolled := 0

  predicate IsFace(v: int) {
    1 <= v <= 6
  }

  predicate IsDie(v: int) {
    v == Unrolled || IsFace(v)
  }

  /** Every die is unrolled or shows a face, however many dice there are. */
  ghost predicate AllDice(dice: seq<int>) {
    forall i :: 0 <= i < |dice| ==> IsDie(dice[i])
  }

  /** Five dice, each unrolled or showing a face. */
  ghost predicate ValidDice(dice: seq<int>) {
    |dice| == DiceCount && AllDice(dice)
  }

  /** Five dice that have all been thrown. */
  predicate Rolled(dice: seq<int>) {
    |dice| == DiceCount && forall i :: 0 <= i < |dice| ==> IsFace(dice[i])
  }

  /** Five dice none of which has been thrown: the state at game start. */
  predicate Unthrown(dice: seq<int>) {
    |dice| == DiceCount && forall i :: 0 <= i < |dice| ==> dice[i] == Unrolled
  }

  /** The dice at game start (Gameboard.js:47). */
  function NoDice(): (dice: seq<int>)
    ensures Unthrown(dice) && ValidDice(dice)
  {
    [Unrolled, Unrolled, Unrolled, Unrolled, Unrolled]
  }

  /** The number of dice equal to `v`. */
  function Count(dice: seq<int>, v: int): (n: nat)
    ensures n <= |dice|
    ensures v !in dice ==> n == 0
  {
    if |dice| == 0 then 0
    else (if dice[0] == v then 1 else 0) + Count(dice[1..], v)
  }

  /** Counting distributes over concatenation. */
  lemma {:induction false} CountConcat(a: seq<int>, b: seq<int>, v: int)
    ensures Count(a + b, v) == Count(a, v) + Count(b, v)
  {
    if |a| > 0 {
      CountConcat(a[1..], b, v);
      assert (a + b)[0] == a[0];
      assert (a + b)[1..] == a[1..] + b;
    } else {
      assert a + b == b;
    }
  }

  /** The count is the multiplicity of `v` in the multiset of the dice, so
      it does not depend on the order of the dice. */
  lemma {:induction false} CountIsMultiplicity(dice: seq<int>, v: int)
    ensures Count(dice, v) == multiset(dice)[v]
  {
    if |dice| > 0 {
      CountIsMultiplicity(dice[1..], v);
      assert dice == [dice[0]] + dice[1..];
    }
  }

  /** Counting from the other end, the way a left-to-right `reduce` sees the dice. */
  lemma {:induction false} CountLast(dice: seq<int>, v: int)
    requires |dice| > 0
    ensures Count(dice, v) == Count(dice[..|dice| - 1], v) + (if dice[|dice| - 1] == v then 1 else 0)
  {
    var n := |dice| - 1;
    assert dice == dice[..n] + [dice[n]];
    CountConcat(dice[..n], [dice[n]], v);
  }

  /** Two different values share the dice between them. */
  lemma {:induction false} CountPair(dice: seq<int>, v: int, w: int)
    requires v != w
    ensures Count(dice, v) + Count(dice, w) <= |dice|
  {
    if |dice| > 0 {
      CountPair(dice[1..], v, w);
    }
  }

  /** A value occurs on every die exactly when every die shows it. */
  lemma {:induction false} CountEverywhere(dice: seq<int>, v: int)
    ensures Count(dice, v) == |dice| <==> forall i :: 0 <= i < |dice| ==> dice[i] == v
  {
    if |dice| > 0 {
      CountEverywhere(dice[1..], v);
      assert forall i :: 0 < i < |dice| ==> dice[i] == dice[1..][i - 1];
    }
  }
}
