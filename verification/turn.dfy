/**
 The turn controller of the Yatzy game board: the throws left in the turn,
 the mask of held dice and the dice themselves (Gameboard.js, throwDices,
 selectDice and the turn reset of the Set points button).

 `Math.random` is not modelled: a throw is given the faces the random
 source produced, one per die, each in 1..6. Only the unheld dice take
 theirs.
 */
module Turn {
  import opened Dice

  /** The status line of the board. */
  datatype Status =
    | ThrowTheDices   // 'Throw the dices', the initial status
    | NoThrowsLeft    // 'No throws left'
    | GameNotStarted  // 'Game has not started'

  datatype Turn = Turn(throwsLeft: int, held: seq<bool>, dice: seq<int>, status: Status)

  predicate WellFormed(t: Turn) {
    |t.held| == DiceCount && |t.dice| == DiceCount
  }

  predicate NoneHeld(held: seq<bool>) {
    forall i :: 0 <= i < |held| ==> !held[i]
  }

  function NoneHeldMask(): (held: seq<bool>)
    ensures |held| == DiceCount && NoneHeld(held)
  {
    [false, false, false, false, false]
  }

  /** What holds between the actions of a game: the counter stays within
      0..3, and the dice are either all thrown or, before the first throw of
      the game, all unrolled with nothing held and no throw used. */
  ghost predicate Valid(t: Turn) {
    && WellFormed(t)
    && 0 <= t.throwsLeft <= ThrowCount
    && (Rolled(t.dice) || (Unthrown(t.dice) && t.throwsLeft == ThrowCount && NoneHeld(t.held)))
  }

  /** The turn state when the board opens (Gameboard.js:32-47). */
  function NewTurn(): (t: Turn)
    ensures Valid(t)
    ensures t.throwsLeft == ThrowCount && NoneHeld(t.held) && Unthrown(t.dice)
  {
    Turn(ThrowCount, NoneHeldMask(), NoDice(), ThrowTheDices)
  }

  /** Faces the random source may produce for the five dice. */
  predicate Draw(drawn: seq<int>) {
    |drawn| == DiceCount && forall i :: 0 <= i < |drawn| ==> IsFace(drawn[i])
  }

  /** throwDices: with throws left, every unheld die takes its drawn face and
      one throw is used up. With none left nothing is thrown, the status says
      so, and the counter goes back to three. */
  function Throw(t: Turn, drawn: seq<int>): (r: Turn)
    requires WellFormed(t) && Draw(drawn)
    ensures WellFormed(r) && r.held == t.held
    ensures t.throwsLeft > 0 ==>
      && r.throwsLeft == t.throwsLeft - 1
      && r.status == t.status
      && (forall i :: 0 <= i < DiceCount && t.held[i] ==> r.dice[i] == t.dice[i])
      && (forall i :: 0 <= i < DiceCount && !t.held[i] ==> r.dice[i] == drawn[i] && IsFace(r.dice[i]))
    ensures t.throwsLeft <= 0 ==>
      && r.dice == t.dice
      && r.status == NoThrowsLeft
      && r.throwsLeft == ThrowCount
    ensures Valid(t) ==> Valid(r)
  {
    if t.throwsLeft > 0 then
      var dice := seq(DiceCount, i requires 0 <= i < DiceCount => if t.held[i] then t.dice[i] else drawn[i]);
      assert Unthrown(t.dice) && NoneHeld(t.held) ==> Rolled(dice);
      assert Rolled(t.dice) ==> Rolled(dice);
      t.(dice := dice, throwsLeft := t.throwsLeft - 1)
    else
      t.(status := NoThrowsLeft, throwsLeft := ThrowCount)
  }

  /** selectDice: once a throw has been made in the turn, pressing die `i`
      toggles whether it is held; before that only the status changes. */
  function SelectDie(t: Turn, i: int): (r: Turn)
    requires WellFormed(t) && 0 <= i < DiceCount
    ensures WellFormed(r)
    ensures r.dice == t.dice && r.throwsLeft == t.throwsLeft
    ensures t.throwsLeft < ThrowCount ==>
      && r.held[i] == !t.held[i]
      && (forall j :: 0 <= j < DiceCount && j != i ==> r.held[j] == t.held[j])
      && r.status == t.status
    ensures t.throwsLeft >= ThrowCount ==> r.held == t.held && r.status == GameNotStarted
    ensures Valid(t) ==> Valid(r)
  {
    if t.throwsLeft < ThrowCount then
      t.(held := t.held[i := !t.held[i]])
    else
      t.(status := GameNotStarted)
  }

  /** Pressing a die twice after the first throw changes nothing. */
  lemma SelectDieTwice(t: Turn, i: int)
    requires WellFormed(t) && 0 <= i < DiceCount && t.throwsLeft < ThrowCount
    ensures SelectDie(SelectDie(t, i), i) == t
  {
    assert SelectDie(SelectDie(t, i), i).held == t.held;
  }

  /** The turn reset of the Set points button (Gameboard.js:700-701): all
      throws back and no die held; the dice stay as they are. */
  function StartTurn(t: Turn): (r: Turn)
    ensures r.throwsLeft == ThrowCount && NoneHeld(r.held) && |r.held| == DiceCount
    ensures r.dice == t.dice && r.status == t.status
    ensures Valid(t) ==> Valid(r)
  {
    t.(throwsLeft := ThrowCount, held := NoneHeldMask())
  }

  /** Three throws use up the turn; a fourth throws nothing, reports that no
      throws are left and restores all three throws. */
  lemma FourthThrowRestoresThrows(t: Turn, a: seq<int>, b: seq<int>, c: seq<int>, d: seq<int>)
    requires WellFormed(t) && t.throwsLeft == ThrowCount
    requires Draw(a) && Draw(b) && Draw(c) && Draw(d)
    ensures var t1 := Throw(t, a);
      var t2 := Throw(t1, b);
      var t3 := Throw(t2, c);
      var t4 := Throw(t3, d);
      && t1.throwsLeft == 2 && t2.throwsLeft == 1 && t3.throwsLeft == 0
      && t4.throwsLeft == ThrowCount && t4.dice == t3.dice && t4.status == NoThrowsLeft
  {
  }

  /** With every die held, a throw keeps the dice and only uses up a throw. */
  lemma ThrowAllHeld(t: Turn, drawn: seq<int>)
    requires WellFormed(t) && Draw(drawn) && t.throwsLeft > 0
    requires forall i :: 0 <= i < DiceCount ==> t.held[i]
    ensures Throw(t, drawn).dice == t.dice
  {
  }
}
