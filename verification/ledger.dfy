/**
 The category ledger of the Yatzy game board: the thirteen scoring
 categories, the points locked into each, the running total and the
 category currently selected on the grid (Gameboard.js, the
 `scoringCategories` state, handlePressField and handleSetPoints).

 The source keeps the categories in one list mixed with four pseudo
 categories (sectionMinor, sectionMajor, sectionBonus, total) and finds a
 category by its grid index. Here a category is a constructor of
 `Category`, the leaf states are a map from category to `Slot`, and the
 only pseudo category that ever changes, `total`, is a field of its own.
 */
module Ledger {
  import opened Dice
  import Scoring

  datatype Option<T> = None | Some(value: T)

  /** The thirteen leaf categories, in the order of the source's list. */
  datatype Category =
    | Ones | Twos | Threes | Fours | Fives | Sixes
    | ThreeOfAKind | FourOfAKind | Yatzy | FullHouse
    | SmallStraight | LargeStraight | Chance

  const Categories: seq<Category> :=
    [Ones, Twos, Threes, Fours, Fives, Sixes,
     ThreeOfAKind, FourOfAKind, Yatzy, FullHouse,
     SmallStraight, LargeStraight, Chance]

  ghost predicate Distinct(cs: seq<Category>) {
    forall i, j :: 0 <= i < j < |cs| ==> cs[i] != cs[j]
  }

  /** Every category is listed, and listed once. */
  lemma CategoriesListed(c: Category)
    ensures c in Categories
    ensures Distinct(Categories)
  {
  }

  /** The `calculateScore` entry of each category: the points the category
      is worth on the given dice. */
  function Score(c: Category, dice: seq<int>): (r: int)
    ensures AllDice(dice) ==> r >= 0
  {
    match c
    case Ones => Scoring.DiceSum(dice, 1)
    case Twos => Scoring.DiceSum(dice, 2)
    case Threes => Scoring.DiceSum(dice, 3)
    case Fours => Scoring.DiceSum(dice, 4)
    case Fives => Scoring.DiceSum(dice, 5)
    case Sixes => Scoring.DiceSum(dice, 6)
    case ThreeOfAKind => Scoring.ThreeOfAKind(dice)
    case FourOfAKind => Scoring.FourOfAKind(dice)
    case Yatzy => Scoring.Yatzy(dice)
    case FullHouse => Scoring.FullHouse(dice)
    case SmallStraight => Scoring.SmallStraight(dice)
    case LargeStraight => Scoring.LargeStraight(dice)
    case Chance => Scoring.Chance(dice)
  }

  /** Before the first throw every category is worth 0. */
  lemma ScoreUnthrown(c: Category, dice: seq<int>)
    requires Unthrown(dice)
    ensures Score(c, dice) == 0
  {
    assert forall v :: v != Unrolled ==> v !in dice;
    match c
    case ThreeOfAKind => Scoring.KindFoldAbsent(dice, dice, 3);
    case FourOfAKind => Scoring.KindFoldAbsent(dice, dice, 4);
    case FullHouse =>
      Scoring.FullHouseCounts(dice);
      CountEverywhere(dice, Unrolled);
    case SmallStraight => Scoring.SmallStraightScores(dice);
    case LargeStraight => Scoring.LargeStraightScores(dice);
    case Chance => Scoring.ChanceIsUpperTotal(dice);
    case _ =>
  }

  /** One row of the score sheet: whether the category has been committed
      and the points it was committed with. */
  datatype Slot = Slot(locked: bool, points: int)

  datatype Scorecard = Scorecard(slots: map<Category, Slot>, total: int, selected: Option<Category>)

  /** Every category has a slot. */
  predicate Complete(card: Scorecard) {
    forall c: Category :: c in card.slots
  }

  /** The points of the locked categories among `cs`. */
  function SumLocked(cs: seq<Category>, slots: map<Category, Slot>): int {
    if |cs| == 0 then 0
    else
      (if cs[0] in slots && slots[cs[0]].locked then slots[cs[0]].points else 0)
        + SumLocked(cs[1..], slots)
  }

  function LockedPoints(slots: map<Category, Slot>): int {
    SumLocked(Categories, slots)
  }

  /** The running total agrees with the points locked so far. */
  ghost predicate Consistent(card: Scorecard) {
    card.total == LockedPoints(card.slots)
  }

  /** Points only ever come from a score at the moment of locking: an open
      category holds 0 points, and no category holds negative points. */
  ghost predicate Settled(card: Scorecard) {
    forall c :: c in card.slots ==> card.slots[c].points >= 0 && (!card.slots[c].locked ==> card.slots[c].points == 0)
  }

  /** With no negative points the locked points are not negative either. */
  lemma {:induction false} SumLockedNonNegative(cs: seq<Category>, slots: map<Category, Slot>)
    requires forall c :: c in slots ==> slots[c].points >= 0
    ensures SumLocked(cs, slots) >= 0
  {
    if |cs| > 0 {
      SumLockedNonNegative(cs[1..], slots);
    }
  }

  /** The initial `scoringCategories` (Gameboard.js:89-199): every category
      open with 0 points, a total of 0 and no selection. */
  function NewScorecard(): (card: Scorecard)
    ensures Complete(card)
    ensures forall c: Category :: !card.slots[c].locked && card.slots[c].points == 0
    ensures card.selected == None
    ensures Consistent(card) && Settled(card) && card.total == 0
  {
    var card := Scorecard(map c: Category | c in Categories :: Slot(false, 0), 0, None);
    assert forall c: Category :: c in card.slots by {
      forall c: Category ensures c in card.slots {
        CategoriesListed(c);
      }
    }
    NothingLocked(Categories, card.slots);
    card
  }

  lemma {:induction false} NothingLocked(cs: seq<Category>, slots: map<Category, Slot>)
    requires forall c :: c in slots ==> !slots[c].locked
    ensures SumLocked(cs, slots) == 0
  {
    if |cs| > 0 {
      NothingLocked(cs[1..], slots);
    }
  }

  /** Locking an open category with `p` points raises the locked points of a
      list without repeats by `p` if the category is listed, and leaves them
      alone otherwise. */
  lemma {:induction false} SumLockedLock(cs: seq<Category>, slots: map<Category, Slot>, c: Category, p: int)
    requires c in slots && !slots[c].locked
    requires Distinct(cs)
    ensures SumLocked(cs, slots[c := Slot(true, p)]) == SumLocked(cs, slots) + (if c in cs then p else 0)
  {
    if |cs| > 0 {
      assert forall i :: 0 < i < |cs| ==> cs[i] == cs[1..][i - 1];
      SumLockedLock(cs[1..], slots, c, p);
      assert c in cs <==> c == cs[0] || c in cs[1..];
    }
  }

  /** handlePressField: pressing a field selects its category, and pressing
      the selected field again clears the selection. */
  function PressField(card: Scorecard, c: Category): (r: Scorecard)
    ensures r.slots == card.slots && r.total == card.total
    ensures r.selected == Some(c) <==> card.selected != Some(c)
    ensures r.selected.Some? ==> r.selected == Some(c)
  {
    card.(selected := if card.selected == Some(c) then None else Some(c))
  }

  /** Pressing the same field twice restores the selection, unless another
      field was selected to begin with. */
  lemma PressFieldTwice(card: Scorecard, c: Category)
    requires card.selected == None || card.selected == Some(c)
    ensures PressField(PressField(card, c), c) == card
  {
  }

  /** handleSetPoints: commits the selected category. An open category is
      locked with its score on the current dice and the score is added to the
      total; a locked one is left as it is. Either way the selection is
      cleared. Without a selection nothing happens. */
  function SetPoints(card: Scorecard, dice: seq<int>): (r: Scorecard)
    ensures card.selected == None ==> r == card
    ensures r.slots.Keys == card.slots.Keys
    ensures forall k :: k in card.slots && card.slots[k].locked ==> r.slots[k] == card.slots[k]
    ensures forall k :: k in card.slots && card.selected != Some(k) ==> r.slots[k] == card.slots[k]
    ensures forall k :: k in card.slots && r.slots[k] != card.slots[k] ==> r.slots[k] == Slot(true, Score(k, dice))
    ensures forall k :: k in card.slots && !card.slots[k].locked && r.slots[k].locked ==> r.total == card.total + Score(k, dice)
    ensures forall k :: k in card.slots && card.selected == Some(k) ==> r.slots[k].locked && r.selected == None
    ensures r.total - card.total == LockedPoints(r.slots) - LockedPoints(card.slots)
    ensures Consistent(card) ==> Consistent(r)
    ensures Settled(card) && AllDice(dice) ==> Settled(r)
  {
    match card.selected
    case None => card
    case Some(c) =>
      if c !in card.slots then card
      else if card.slots[c].locked then card.(selected := None)
      else
        var points := Score(c, dice);
        CategoriesListed(c);
        SumLockedLock(Categories, card.slots, c, points);
        card.(slots := card.slots[c := Slot(true, points)], total := card.total + points, selected := None)
  }

  /** Committing the ones with [1, 1, 3, 4, 5] locks them with 2 points, and
      a second attempt on the ones leaves them at 2 points. */
  lemma CommitOnesExample()
    ensures var card := SetPoints(PressField(NewScorecard(), Ones), [1, 1, 3, 4, 5]);
      && card.slots[Ones] == Slot(true, 2)
      && card.total == 2
      && var again := SetPoints(PressField(card, Ones), [6, 6, 1, 1, 1]);
      && again.slots[Ones] == Slot(true, 2)
      && again.total == 2
  {
    var start := NewScorecard();
    CommitOnes(start);
  }

  /** On any scorecard with the ones open and nothing selected, committing
      the ones with [1, 1, 3, 4, 5] adds 2 points, and a second attempt on
      the ones changes nothing but the selection. */
  lemma CommitOnes(start: Scorecard)
    requires Ones in start.slots && !start.slots[Ones].locked && start.selected == None
    ensures var card := SetPoints(PressField(start, Ones), [1, 1, 3, 4, 5]);
      && card.slots[Ones] == Slot(true, 2)
      && card.total == start.total + 2
      && var again := SetPoints(PressField(card, Ones), [6, 6, 1, 1, 1]);
      && again.slots[Ones] == Slot(true, 2)
      && again.total == start.total + 2
  {
    assert Count([1, 1, 3, 4, 5], 1) == 2;
    var card := SetPoints(PressField(start, Ones), [1, 1, 3, 4, 5]);
    assert card.slots[Ones] == Slot(true, 2);
  }
}
