/**
 The game board as a whole: the scorecard and the turn, driven by the four
 user actions of the board (throw, press a die, press a category field,
 Set points). Rendering is left to the caller; this module only says how
 each action changes the state and what holds in every state a game can
 reach.
 */
module Game {
  import opened Dice
  import Scoring
  import Ledger
  import Turn

  datatype Board = Board(card: Ledger.Scorecard, turn: Turn.Turn)

  /** The user actions of the board. A throw carries the faces the random
      source produced for it. */
  datatype Action =
    | ThrowDice(drawn: seq<int>)
    | PressDie(die: int)
    | PressField(category: Ledger.Category)
    | PressSetPoints

  /** The actions the board can receive: faces drawn from 1..6, and a die
      index among the five rendered dice. */
  predicate Possible(a: Action) {
    match a
    case ThrowDice(drawn) => Turn.Draw(drawn)
    case PressDie(i) => 0 <= i < DiceCount
    case _ => true
  }

  /** What every reachable board satisfies. */
  ghost predicate Valid(b: Board) {
    && Ledger.Complete(b.card)
    && Ledger.Consistent(b.card)
    && Ledger.Settled(b.card)
    && Turn.Valid(b.turn)
  }

  function NewBoard(): (b: Board)
    ensures Valid(b)
    ensures b.card.total == 0 && b.turn.throwsLeft == ThrowCount
  {
    Board(Ledger.NewScorecard(), Turn.NewTurn())
  }

  /** The Set points button (Gameboard.js:698-702): commit the selected
      category on the current dice, then start a new turn. */
  function SetPoints(b: Board): (r: Board)
    ensures r.turn.throwsLeft == ThrowCount && Turn.NoneHeld(r.turn.held)
    ensures r.turn.dice == b.turn.dice
    ensures Valid(b) ==> Valid(r) && r.card.selected == Ledger.None
    ensures Valid(b) && b.card.selected.Some? ==>
      var c := b.card.selected.value;
      && r.card.slots[c].locked
      && (!b.card.slots[c].locked ==> r.card.slots[c].points == Ledger.Score(c, b.turn.dice))
  {
    var card := Ledger.SetPoints(b.card, b.turn.dice);
    Board(card, Turn.StartTurn(b.turn))
  }

  /** One action applied to the board. */
  function Step(b: Board, a: Action): (r: Board)
    requires Turn.WellFormed(b.turn) && Possible(a)
    ensures Turn.WellFormed(r.turn)
    ensures Valid(b) ==> Valid(r)
    ensures !a.PressSetPoints? ==> r.card.slots == b.card.slots && r.card.total == b.card.total
    ensures !a.PressField? && !a.PressSetPoints? ==> r.card == b.card
  {
    match a
    case ThrowDice(drawn) => b.(turn := Turn.Throw(b.turn, drawn))
    case PressDie(i) => b.(turn := Turn.SelectDie(b.turn, i))
    case PressField(c) => b.(card := Ledger.PressField(b.card, c))
    case PressSetPoints => SetPoints(b)
  }

  /** A sequence of actions applied in order. */
  function Run(b: Board, actions: seq<Action>): (r: Board)
    requires Turn.WellFormed(b.turn)
    requires forall k :: 0 <= k < |actions| ==> Possible(actions[k])
    ensures Turn.WellFormed(r.turn)
    ensures Valid(b) ==> Valid(r)
    decreases |actions|
  {
    if |actions| == 0 then b
    else Run(Step(b, actions[0]), actions[1..])
  }

  /** In every board a game reaches, the total is the sum of the locked
      categories' points and is not negative, an open category holds 0
      points, at most three throws are left, and the dice are either all
      thrown or all unrolled before the first throw. */
  lemma Reachable(actions: seq<Action>)
    requires forall k :: 0 <= k < |actions| ==> Possible(actions[k])
    ensures var b := Run(NewBoard(), actions);
      && b.card.total == Ledger.LockedPoints(b.card.slots)
      && b.card.total >= 0
      && (forall c :: !b.card.slots[c].locked ==> b.card.slots[c].points == 0)
      && 0 <= b.turn.throwsLeft <= ThrowCount
      && (Rolled(b.turn.dice) || Unthrown(b.turn.dice))
      && ValidDice(b.turn.dice)
  {
    var b := Run(NewBoard(), actions);
    Ledger.SumLockedNonNegative(Ledger.Categories, b.card.slots);
  }

  /** On a reachable board every category is worth a non-negative score, and
      nothing before the first throw. */
  lemma ReachableScores(b: Board, c: Ledger.Category)
    requires Valid(b)
    ensures Ledger.Score(c, b.turn.dice) >= 0
    ensures Unthrown(b.turn.dice) ==> Ledger.Score(c, b.turn.dice) == 0
  {
    if Unthrown(b.turn.dice) {
      Ledger.ScoreUnthrown(c, b.turn.dice);
    }
  }

  /** On a reachable board a full house is always made of thrown dice, so the
      unrolled value being tallied like a face never decides the rule. */
  lemma FullHouseOfThrownDice(b: Board)
    requires Valid(b) && Scoring.IsFullHouse(b.turn.dice)
    ensures Rolled(b.turn.dice)
  {
    if Unthrown(b.turn.dice) {
      Ledger.ScoreUnthrown(Ledger.FullHouse, b.turn.dice);
      assert false;
    }
  }

  /** Throwing five fours and holding all five of them. */
  function HoldFours(): seq<Action> {
    [ThrowDice([4, 4, 4, 4, 4]), PressDie(0), PressDie(1), PressDie(2), PressDie(3), PressDie(4)]
  }

  /** The rest of the turn: two more throws, then the yatzy is committed. */
  function CommitYatzy(x: seq<int>, y: seq<int>): seq<Action> {
    [ThrowDice(x), ThrowDice(y), PressField(Ledger.Yatzy), PressSetPoints]
  }

  lemma {:induction false} RunConcat(b: Board, xs: seq<Action>, ys: seq<Action>)
    requires Turn.WellFormed(b.turn)
    requires forall k :: 0 <= k < |xs| ==> Possible(xs[k])
    requires forall k :: 0 <= k < |ys| ==> Possible(ys[k])
    ensures forall k :: 0 <= k < |xs + ys| ==> Possible((xs + ys)[k])
    ensures Run(b, xs + ys) == Run(Run(b, xs), ys)
    decreases |xs|
  {
    if |xs| > 0 {
      assert (xs + ys)[1..] == xs[1..] + ys;
      RunConcat(Step(b, xs[0]), xs[1..], ys);
    } else {
      assert xs + ys == ys;
    }
  }

  /** Pressing each of the five dice once, after a throw, holds all of them
      and changes nothing else. */
  lemma PressAllDice(b: Board)
    requires Valid(b) && b.turn.throwsLeft < ThrowCount && Turn.NoneHeld(b.turn.held)
    ensures var r := Run(b, [PressDie(0), PressDie(1), PressDie(2), PressDie(3), PressDie(4)]);
      && Valid(r)
      && (forall i :: 0 <= i < DiceCount ==> r.turn.held[i])
      && r.turn.dice == b.turn.dice && r.turn.throwsLeft == b.turn.throwsLeft
      && r.card == b.card
  {
    assert PressesFrom(0) == [PressDie(0), PressDie(1), PressDie(2), PressDie(3), PressDie(4)];
    PressFrom(b, 0);
  }

  /** A press of each die from die `k` on, in order. */
  function PressesFrom(k: nat): (acts: seq<Action>)
    requires k <= DiceCount
    ensures |acts| == DiceCount - k
    ensures forall j :: 0 <= j < |acts| ==> acts[j] == PressDie(k + j) && Possible(acts[j])
  {
    seq(DiceCount - k, j requires 0 <= j < DiceCount - k => PressDie(k + j))
  }

  /** After a throw, pressing each unheld die from die `k` on holds it and
      changes nothing else. */
  lemma {:induction false} PressFrom(b: Board, k: nat)
    requires Valid(b) && b.turn.throwsLeft < ThrowCount && k <= DiceCount
    requires forall i :: k <= i < DiceCount ==> !b.turn.held[i]
    ensures var r := Run(b, PressesFrom(k));
      && Valid(r)
      && (forall i :: k <= i < DiceCount ==> r.turn.held[i])
      && (forall i :: 0 <= i < k ==> r.turn.held[i] == b.turn.held[i])
      && r.turn.dice == b.turn.dice && r.turn.throwsLeft == b.turn.throwsLeft
      && r.card == b.card
    decreases DiceCount - k
  {
    if k < DiceCount {
      var acts := PressesFrom(k);
      assert acts[1..] == PressesFrom(k + 1);
      var b1 := Step(b, acts[0]);
      PressFrom(b1, k + 1);
    }
  }

  /** At the start of a turn, throwing five fours and pressing every die
      leaves five held fours with two throws to go. */
  lemma FoursHeld(b: Board)
    requires Valid(b) && b.turn.throwsLeft == ThrowCount && Turn.NoneHeld(b.turn.held)
    ensures var r := Run(b, HoldFours());
      && Valid(r)
      && r.turn.dice == [4, 4, 4, 4, 4]
      && (forall i :: 0 <= i < DiceCount ==> r.turn.held[i])
      && r.turn.throwsLeft == 2
      && r.card == b.card
  {
    var throw, press := [ThrowDice([4, 4, 4, 4, 4])], [PressDie(0), PressDie(1), PressDie(2), PressDie(3), PressDie(4)];
    assert HoldFours() == throw + press;
    RunConcat(b, throw, press);
    ThrowFours(b);
    PressAllDice(Run(b, throw));
  }

  /** With nothing held, a throw of five fours gives five fours. */
  lemma ThrowFours(b: Board)
    requires Valid(b) && b.turn.throwsLeft == ThrowCount && Turn.NoneHeld(b.turn.held)
    ensures var r := Run(b, [ThrowDice([4, 4, 4, 4, 4])]);
      && Valid(r) && r.card == b.card
      && r.turn.dice == [4, 4, 4, 4, 4] && r.turn.throwsLeft == 2 && Turn.NoneHeld(r.turn.held)
  {
    var r := Step(b, ThrowDice([4, 4, 4, 4, 4]));
    assert r.turn.dice == [4, 4, 4, 4, 4];
    assert Run(b, [ThrowDice([4, 4, 4, 4, 4])]) == Run(r, []);
  }

  /** With every die held, two throws leave the dice and the scorecard as
      they are and use up two throws. */
  lemma HeldThrows(b: Board, x: seq<int>, y: seq<int>)
    requires Valid(b) && Turn.Draw(x) && Turn.Draw(y) && b.turn.throwsLeft == 2
    requires forall i :: 0 <= i < DiceCount ==> b.turn.held[i]
    ensures var r := Run(b, [ThrowDice(x), ThrowDice(y)]);
      && Valid(r) && r.card == b.card && r.turn.dice == b.turn.dice && r.turn.throwsLeft == 0
  {
    var b1 := Step(b, ThrowDice(x));
    Turn.ThrowAllHeld(b.turn, x);
    var b2 := Step(b1, ThrowDice(y));
    Turn.ThrowAllHeld(b1.turn, y);
    assert Run(b1, [ThrowDice(y)]) == Run(b2, []);
  }

  /** Selecting the open yatzy field and setting points on five fours locks
      the yatzy with 50 points, adds 50 to the total and starts a new turn. */
  lemma YatzySet(b: Board)
    requires Valid(b) && b.turn.dice == [4, 4, 4, 4, 4]
    requires !b.card.slots[Ledger.Yatzy].locked && b.card.selected == Ledger.None
    ensures var r := Run(b, [PressField(Ledger.Yatzy), PressSetPoints]);
      && r.card.slots[Ledger.Yatzy] == Ledger.Slot(true, Scoring.YatzyPoints)
      && r.card.total == b.card.total + Scoring.YatzyPoints
      && r.turn.throwsLeft == ThrowCount
      && r.turn.dice == [4, 4, 4, 4, 4]
  {
    var b1 := Step(b, PressField(Ledger.Yatzy));
    assert b1.card.selected == Ledger.Some(Ledger.Yatzy);
    Scoring.YatzyScores(b1.turn.dice);
    assert Ledger.Score(Ledger.Yatzy, b1.turn.dice) == Scoring.YatzyPoints;
    var b2 := Step(b1, PressSetPoints);
    assert Run(b1, [PressSetPoints]) == Run(b2, []);
  }

  /** With five held fours, two more throws change nothing, and committing
      the open yatzy category locks it with 50 points and adds 50 to the
      total. */
  lemma YatzyCommitted(b: Board, x: seq<int>, y: seq<int>)
    requires Valid(b) && Turn.Draw(x) && Turn.Draw(y)
    requires b.turn.dice == [4, 4, 4, 4, 4] && b.turn.throwsLeft == 2
    requires forall i :: 0 <= i < DiceCount ==> b.turn.held[i]
    requires !b.card.slots[Ledger.Yatzy].locked && b.card.selected == Ledger.None
    ensures var r := Run(b, CommitYatzy(x, y));
      && r.card.slots[Ledger.Yatzy] == Ledger.Slot(true, Scoring.YatzyPoints)
      && r.card.total == b.card.total + Scoring.YatzyPoints
      && r.turn.throwsLeft == ThrowCount
      && r.turn.dice == [4, 4, 4, 4, 4]
  {
    var throws, commit := [ThrowDice(x), ThrowDice(y)], [PressField(Ledger.Yatzy), PressSetPoints];
    assert CommitYatzy(x, y) == throws + commit;
    RunConcat(b, throws, commit);
    HeldThrows(b, x, y);
    YatzySet(Run(b, throws));
  }

  /** A board as it stands when a game begins. */
  ghost predicate Fresh(b: Board) {
    && Valid(b)
    && b.card.total == 0
    && b.card.selected == Ledger.None
    && (forall c: Ledger.Category :: !b.card.slots[c].locked)
    && b.turn.throwsLeft == ThrowCount
    && Turn.NoneHeld(b.turn.held)
    && Unthrown(b.turn.dice)
  }

  lemma NewBoardIsFresh()
    ensures Fresh(NewBoard())
  {
  }

  /** A first turn played to a yatzy: throw five fours, hold all five, use up
      the remaining two throws, select the yatzy field and set points. The
      yatzy is locked with 50 points, the total is 50, and a new turn begins. */
  lemma YatzyTurn(b: Board, x: seq<int>, y: seq<int>)
    requires Fresh(b)
    requires Turn.Draw(x) && Turn.Draw(y)
    ensures var r := Run(b, HoldFours() + CommitYatzy(x, y));
      && r.card.slots[Ledger.Yatzy] == Ledger.Slot(true, Scoring.YatzyPoints)
      && r.card.total == Scoring.YatzyPoints
      && r.turn.throwsLeft == ThrowCount
      && r.turn.dice == [4, 4, 4, 4, 4]
  {
    RunConcat(b, HoldFours(), CommitYatzy(x, y));
    FoursHeld(b);
    YatzyCommitted(Run(b, HoldFours()), x, y);
  }
}
