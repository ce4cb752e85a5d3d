/**
 The scoring engine of the Yatzy game board (Gameboard.js, calculateDiceSum
 to calculateChange). Each rule maps the current dice to the points the
 category would award; none of them changes the dice.

 The source computes most rules with a left-to-right `reduce` over the dice.
 Each such fold is modelled by a function that recurses on the prefix
 `s[..|s| - 1]` and then handles the last die, which is the order in which
 `reduce` visits the dice. Where the step consults all the dice (the
 `filter` inside the n-of-a-kind and yatzy reducers), the whole dice are
 passed alongside the prefix that is being folded.

 Every rule is paired with a definition that does not fold: a count
 (`Dice.Count`, i.e. the multiset of the dice) or set containment. Lemmas
 connect each rule to its definition.
 */
module Scoring {
  import opened Dice

  const YatzyPoints := 50
  const FullHousePoints := 25
  const SmallStraightPoints := 30
  const LargeStraightPoints := 40

  // ---------------------------------------------------------------------------
  // Upper section: ones .. sixes
  // ---------------------------------------------------------------------------

  /** calculateDiceSum: the sum of the dice that show `face`. */
  function DiceSum(dice: seq<int>, face: int): (r: int)
    ensures r == face * Count(dice, face)
    ensures 0 <= face ==> 0 <= r <= face * |dice|
  {
    if |dice| == 0 then 0
    else
      var n := |dice| - 1;
      var sum := DiceSum(dice[..n], face);
      var d := dice[n];
      CountLast(dice, face);
      MulSucc(face, n);
      if d == face then
        MulSucc(face, Count(dice[..n], face));
        sum + d
      else sum
  }

  lemma MulSucc(a: int, c: int)
    ensures a * (c + 1) == a * c + a
  {
  }

  lemma MulPositive(a: int, b: int)
    requires a > 0 && b > 0
    ensures a * b > 0
  {
  }

  /** A face that no die shows scores nothing in the upper section. */
  lemma DiceSumAbsent(dice: seq<int>, face: int)
    requires face !in dice
    ensures DiceSum(dice, face) == 0
  {
  }

  /** One more die adds its face to the upper-section score of that face only. */
  lemma DiceSumLast(dice: seq<int>, face: int)
    requires |dice| > 0
    ensures DiceSum(dice, face) == DiceSum(dice[..|dice| - 1], face) + (if dice[|dice| - 1] == face then face else 0)
  {
  }

  /** The six upper-section scores of a throw, added up. */
  function UpperTotal(dice: seq<int>): int {
    DiceSum(dice, 1) + DiceSum(dice, 2) + DiceSum(dice, 3)
      + DiceSum(dice, 4) + DiceSum(dice, 5) + DiceSum(dice, 6)
  }

  // ---------------------------------------------------------------------------
  // Three of a kind and four of a kind
  // ---------------------------------------------------------------------------

  /** The reducer shared by calculateThreeOfAKind and calculateFourOfAKind,
      folded over `prefix`: a non-zero die is added when its face occurs at
      least `k` times among `all` the dice. */
  function KindFold(all: seq<int>, prefix: seq<int>, k: int): (r: int)
    ensures (forall i :: 0 <= i < |prefix| ==> prefix[i] >= 0) ==> r >= 0
  {
    if |prefix| == 0 then 0
    else
      var sum := KindFold(all, prefix[..|prefix| - 1], k);
      var d := prefix[|prefix| - 1];
      if d == 0 then sum
      else if Count(all, d) >= k then sum + d
      else sum
  }

  function NOfAKind(dice: seq<int>, k: int): int {
    KindFold(dice, dice, k)
  }

  /** calculateThreeOfAKind */
  function ThreeOfAKind(dice: seq<int>): int {
    NOfAKind(dice, 3)
  }

  /** calculateFourOfAKind */
  function FourOfAKind(dice: seq<int>): int {
    NOfAKind(dice, 4)
  }

  /** When `v` is the only non-zero face of the prefix that could reach the
      threshold, the fold adds up exactly the prefix's dice showing `v`. */
  lemma {:induction false} KindFoldSingle(all: seq<int>, prefix: seq<int>, k: int, v: int)
    requires v != 0
    requires forall i :: 0 <= i < |prefix| && prefix[i] != 0 && prefix[i] != v ==> Count(all, prefix[i]) < k
    ensures KindFold(all, prefix, k) == (if Count(all, v) >= k then DiceSum(prefix, v) else 0)
  {
    if |prefix| > 0 {
      var n := |prefix| - 1;
      var p, d := prefix[..n], prefix[n];
      forall i | 0 <= i < |p| && p[i] != 0 && p[i] != v
        ensures Count(all, p[i]) < k
      {
        assert p[i] == prefix[i];
      }
      KindFoldSingle(all, p, k, v);
      DiceSumLast(prefix, v);
      if d != 0 && d != v {
        assert Count(all, d) < k;
      }
    }
  }

  /** With five dice, at most one face can be shown by three or more of them. */
  lemma OnlyOneKind(dice: seq<int>, k: int, v: int, w: int)
    requires |dice| == DiceCount && k >= 3
    requires Count(dice, v) >= k && v != w
    ensures Count(dice, w) < k
  {
    CountPair(dice, v, w);
  }

  /** A face shown by at least `k >= 3` of the five dice scores the sum of
      all dice showing it, i.e. the same as its upper-section score. */
  lemma NOfAKindPresent(dice: seq<int>, k: int, v: int)
    requires |dice| == DiceCount && k >= 3
    requires v != 0 && Count(dice, v) >= k
    ensures NOfAKind(dice, k) == v * Count(dice, v) == DiceSum(dice, v)
  {
    forall i | 0 <= i < |dice| && dice[i] != 0 && dice[i] != v
      ensures Count(dice, dice[i]) < k
    {
      OnlyOneKind(dice, k, v, dice[i]);
    }
    KindFoldSingle(dice, dice, k, v);
  }

  /** When no non-zero face reaches the threshold, the fold adds nothing. */
  lemma {:induction false} KindFoldAbsent(all: seq<int>, prefix: seq<int>, k: int)
    requires forall i :: 0 <= i < |prefix| && prefix[i] != 0 ==> Count(all, prefix[i]) < k
    ensures KindFold(all, prefix, k) == 0
  {
    if |prefix| > 0 {
      var n := |prefix| - 1;
      assert forall i :: 0 <= i < n ==> prefix[..n][i] == prefix[i];
      KindFoldAbsent(all, prefix[..n], k);
    }
  }

  /** Both directions of the n-of-a-kind rule on valid dice: the score is
      positive exactly when some thrown face occurs at least `k` times. */
  lemma NOfAKindScores(dice: seq<int>, k: int)
    requires ValidDice(dice) && k >= 3
    ensures NOfAKind(dice, k) > 0 <==> exists i :: 0 <= i < |dice| && dice[i] != 0 && Count(dice, dice[i]) >= k
  {
    if exists i :: 0 <= i < |dice| && dice[i] != 0 && Count(dice, dice[i]) >= k {
      var i :| 0 <= i < |dice| && dice[i] != 0 && Count(dice, dice[i]) >= k;
      NOfAKindPresent(dice, k, dice[i]);
      MulPositive(dice[i], Count(dice, dice[i]));
    } else {
      KindFoldAbsent(dice, dice, k);
    }
  }

  /** Raising the threshold never raises the score: in particular three of a
      kind scores at least as much as four of a kind. */
  lemma {:induction false} KindFoldAntitone(all: seq<int>, prefix: seq<int>, k: int, k': int)
    requires k <= k'
    requires forall i :: 0 <= i < |prefix| ==> prefix[i] >= 0
    ensures KindFold(all, prefix, k) >= KindFold(all, prefix, k')
  {
    if |prefix| > 0 {
      var n := |prefix| - 1;
      assert forall i :: 0 <= i < n ==> prefix[..n][i] == prefix[i];
      KindFoldAntitone(all, prefix[..n], k, k');
    }
  }

  lemma ThreeOfAKindCoversFour(dice: seq<int>)
    requires AllDice(dice)
    ensures ThreeOfAKind(dice) >= FourOfAKind(dice) >= 0
  {
    KindFoldAntitone(dice, dice, 3, 4);
  }

  // ---------------------------------------------------------------------------
  // Yatzy
  // ---------------------------------------------------------------------------

  /** The reducer of calculateYatzy folded over `prefix`: a non-zero die
      whose face is on exactly five of `all` the dice sets the result to 50. */
  function YatzyFold(all: seq<int>, prefix: seq<int>): (r: int)
    ensures r == 0 || r == YatzyPoints
    ensures r == YatzyPoints <==> exists i :: 0 <= i < |prefix| && prefix[i] != 0 && Count(all, prefix[i]) == 5
  {
    if |prefix| == 0 then 0
    else
      var n := |prefix| - 1;
      var sum := YatzyFold(all, prefix[..n]);
      var d := prefix[n];
      assert forall i :: 0 <= i < n ==> prefix[..n][i] == prefix[i];
      if d == 0 then sum
      else if Count(all, d) == 5 then YatzyPoints
      else sum
  }

  /** calculateYatzy */
  function Yatzy(dice: seq<int>): int {
    YatzyFold(dice, dice)
  }

  /** All five dice show one and the same thrown face. */
  ghost predicate AllSameFace(dice: seq<int>) {
    |dice| == DiceCount && dice[0] != Unrolled && forall i :: 0 <= i < |dice| ==> dice[i] == dice[0]
  }

  /** Yatzy scores 50 exactly when all five dice show the same non-zero face,
      and 0 otherwise; unthrown dice score 0. */
  lemma YatzyScores(dice: seq<int>)
    requires |dice| == DiceCount
    ensures Yatzy(dice) == (if AllSameFace(dice) then YatzyPoints else 0)
  {
    if Yatzy(dice) == YatzyPoints {
      var i :| 0 <= i < |dice| && dice[i] != 0 && Count(dice, dice[i]) == 5;
      CountEverywhere(dice, dice[i]);
    }
    if AllSameFace(dice) {
      CountEverywhere(dice, dice[0]);
      assert dice[0] != 0 && Count(dice, dice[0]) == 5;
    }
  }

  // ---------------------------------------------------------------------------
  // Full house
  // ---------------------------------------------------------------------------

  /** The `counts` object of calculateFullHouse, built die by die: every
      value on the dice (the unrolled 0 included) is a key, mapped to the
      number of dice showing it. */
  function Tally(dice: seq<int>): (counts: map<int, nat>)
    ensures forall v :: v in counts <==> v in dice
    ensures forall v :: v in counts ==> counts[v] == Count(dice, v)
  {
    if |dice| == 0 then map[]
    else
      var n := |dice| - 1;
      var counts := Tally(dice[..n]);
      var d := dice[n];
      assert dice == dice[..n] + [d];
      assert forall v :: v in dice <==> v in dice[..n] || v == d;
      assert forall v :: Count(dice, v) == Count(dice[..n], v) + (if d == v then 1 else 0) by {
        forall v ensures Count(dice, v) == Count(dice[..n], v) + (if d == v then 1 else 0) {
          CountLast(dice, v);
        }
      }
      counts[d := (if d in counts then counts[d] else 0) + 1]
  }

  /** calculateFullHouse: some value is on exactly three dice and some value
      on exactly two. */
  function IsFullHouse(dice: seq<int>): bool {
    var values := Tally(dice).Values;
    3 in values && 2 in values
  }

  /** The full-house category (Gameboard.js:156): 25 for a full house, else 0. */
  function FullHouse(dice: seq<int>): int {
    if IsFullHouse(dice) then FullHousePoints else 0
  }

  /** Both directions of the full-house rule, in terms of how many dice show
      each die's value. */
  lemma FullHouseCounts(dice: seq<int>)
    ensures IsFullHouse(dice) <==>
      (exists i :: 0 <= i < |dice| && Count(dice, dice[i]) == 3)
      && (exists j :: 0 <= j < |dice| && Count(dice, dice[j]) == 2)
  {
    var counts := Tally(dice);
    if exists i :: 0 <= i < |dice| && Count(dice, dice[i]) == 3 {
      var i :| 0 <= i < |dice| && Count(dice, dice[i]) == 3;
      assert dice[i] in counts;
      assert 3 in counts.Values;
    }
    if exists j :: 0 <= j < |dice| && Count(dice, dice[j]) == 2 {
      var j :| 0 <= j < |dice| && Count(dice, dice[j]) == 2;
      assert dice[j] in counts;
      assert 2 in counts.Values;
    }
    if 3 in counts.Values {
      var v :| v in counts && counts[v] == 3;
      var i :| 0 <= i < |dice| && dice[i] == v;
    }
    if 2 in counts.Values {
      var v :| v in counts && counts[v] == 2;
      var j :| 0 <= j < |dice| && dice[j] == v;
    }
  }

  /** On five dice a full house is made of two different values. */
  lemma FullHouseTwoValues(dice: seq<int>, i: int, j: int)
    requires |dice| == DiceCount && 0 <= i < |dice| && 0 <= j < |dice|
    requires Count(dice, dice[i]) == 3 && Count(dice, dice[j]) == 2
    ensures dice[i] != dice[j]
    ensures forall k :: 0 <= k < |dice| ==> dice[k] == dice[i] || dice[k] == dice[j]
  {
    forall k | 0 <= k < |dice| ensures dice[k] == dice[i] || dice[k] == dice[j] {
      if dice[k] != dice[i] && dice[k] != dice[j] {
        CountPair(dice, dice[i], dice[j]);
        CountPair(dice[..k] + dice[k + 1..], dice[i], dice[j]);
        CountWithout(dice, k, dice[i]);
        CountWithout(dice, k, dice[j]);
        assert false;
      }
    }
  }

  /** Removing a die that does not show `v` keeps the count of `v`. */
  lemma CountWithout(dice: seq<int>, k: int, v: int)
    requires 0 <= k < |dice| && dice[k] != v
    ensures Count(dice[..k] + dice[k + 1..], v) == Count(dice, v)
  {
    assert dice == dice[..k] + ([dice[k]] + dice[k + 1..]);
    CountConcat(dice[..k], [dice[k]] + dice[k + 1..], v);
    CountConcat([dice[k]], dice[k + 1..], v);
    CountConcat(dice[..k], dice[k + 1..], v);
  }

  // ---------------------------------------------------------------------------
  // Small and large straight
  // ---------------------------------------------------------------------------

  const SmallStraights: seq<seq<int>> := [[1, 2, 3, 4], [2, 3, 4, 5], [3, 4, 5, 6]]
  const LargeStraights: seq<seq<int>> := [[1, 2, 3, 4, 5], [2, 3, 4, 5, 6]]

  predicate Ascending(s: seq<int>) {
    forall i, j :: 0 <= i < j < |s| ==> s[i] <= s[j]
  }

  function Insert(x: int, s: seq<int>): (r: seq<int>)
    requires Ascending(s)
    ensures |r| == |s| + 1
    ensures r[0] == x || (|s| > 0 && r[0] == s[0])
    ensures Ascending(r)
    ensures multiset(r) == multiset(s) + multiset{x}
  {
    if |s| == 0 then [x]
    else if x <= s[0] then [x] + s
    else
      assert s == [s[0]] + s[1..];
      [s[0]] + Insert(x, s[1..])
  }

  /** An ascending copy of the dice, sorted numerically. */
  function SortAscending(s: seq<int>): (r: seq<int>)
    ensures Ascending(r)
    ensures multiset(r) == multiset(s)
  {
    if |s| == 0 then []
    else
      assert s == [s[0]] + s[1..];
      Insert(s[0], SortAscending(s[1..]))
  }

  /** Every value of the straight is on some die. */
  predicate Covers(dice: seq<int>, straight: seq<int>) {
    forall j :: 0 <= j < |straight| ==> straight[j] in dice
  }

  /** The `for ... of` loop over the candidate straights: `points` for the
      first straight the dice cover, 0 when none is covered. */
  function FirstStraight(dice: seq<int>, straights: seq<seq<int>>, points: int): (r: int)
    ensures r == 0 || r == points
    ensures points != 0 ==> (r == points <==> exists k :: 0 <= k < |straights| && Covers(dice, straights[k]))
  {
    if |straights| == 0 then 0
    else if Covers(dice, straights[0]) then points
    else
      assert forall k :: 0 < k < |straights| ==> straights[k] == straights[1..][k - 1];
      FirstStraight(dice, straights[1..], points)
  }

  /** calculateSmallStraight */
  function SmallStraight(dice: seq<int>): int {
    FirstStraight(SortAscending(dice), SmallStraights, SmallStraightPoints)
  }

  /** calculateLargeStraight */
  function LargeStraight(dice: seq<int>): int {
    FirstStraight(SortAscending(dice), LargeStraights, LargeStraightPoints)
  }

  /** The set of values on the dice, duplicates ignored. */
  function Faces(dice: seq<int>): set<int> {
    set x | x in dice
  }

  ghost predicate HasSmallStraight(dice: seq<int>) {
    {1, 2, 3, 4} <= Faces(dice) || {2, 3, 4, 5} <= Faces(dice) || {3, 4, 5, 6} <= Faces(dice)
  }

  ghost predicate HasLargeStraight(dice: seq<int>) {
    {1, 2, 3, 4, 5} <= Faces(dice) || {2, 3, 4, 5, 6} <= Faces(dice)
  }

  /** Sorting a copy does not change which values the dice hold. */
  lemma SortedFaces(dice: seq<int>)
    ensures Faces(SortAscending(dice)) == Faces(dice)
  {
    var sorted := SortAscending(dice);
    assert forall x :: x in sorted <==> x in multiset(sorted);
    assert forall x :: x in dice <==> x in multiset(dice);
  }

  lemma Covers4(dice: seq<int>, a: int, b: int, c: int, d: int)
    ensures Covers(dice, [a, b, c, d]) <==> {a, b, c, d} <= Faces(dice)
  {
    var straight := [a, b, c, d];
    assert straight[0] == a && straight[1] == b && straight[2] == c && straight[3] == d;
  }

  lemma Covers5(dice: seq<int>, a: int, b: int, c: int, d: int, e: int)
    ensures Covers(dice, [a, b, c, d, e]) <==> {a, b, c, d, e} <= Faces(dice)
  {
    var straight := [a, b, c, d, e];
    assert straight[0] == a && straight[1] == b && straight[2] == c && straight[3] == d && straight[4] == e;
  }

  /** Small straight scores 30 exactly when the dice contain 1-4, 2-5 or 3-6,
      and 0 otherwise. */
  lemma SmallStraightScores(dice: seq<int>)
    ensures SmallStraight(dice) == (if HasSmallStraight(dice) then SmallStraightPoints else 0)
  {
    var sorted := SortAscending(dice);
    SortedFaces(dice);
    Covers4(sorted, 1, 2, 3, 4);
    Covers4(sorted, 2, 3, 4, 5);
    Covers4(sorted, 3, 4, 5, 6);
    assert SmallStraights[0] == [1, 2, 3, 4];
    assert SmallStraights[1] == [2, 3, 4, 5];
    assert SmallStraights[2] == [3, 4, 5, 6];
  }

  /** Large straight scores 40 exactly when the dice contain 1-5 or 2-6, and
      0 otherwise. */
  lemma LargeStraightScores(dice: seq<int>)
    ensures LargeStraight(dice) == (if HasLargeStraight(dice) then LargeStraightPoints else 0)
  {
    var sorted := SortAscending(dice);
    SortedFaces(dice);
    Covers5(sorted, 1, 2, 3, 4, 5);
    Covers5(sorted, 2, 3, 4, 5, 6);
    assert LargeStraights[0] == [1, 2, 3, 4, 5];
    assert LargeStraights[1] == [2, 3, 4, 5, 6];
  }

  /** The straights do not depend on the order of the dice. */
  lemma StraightsIgnoreOrder(dice: seq<int>, other: seq<int>)
    requires multiset(other) == multiset(dice)
    ensures SmallStraight(other) == SmallStraight(dice)
    ensures LargeStraight(other) == LargeStraight(dice)
  {
    assert forall x :: x in other <==> x in multiset(other);
    assert forall x :: x in dice <==> x in multiset(dice);
    assert Faces(other) == Faces(dice);
    SmallStraightScores(dice);
    SmallStraightScores(other);
    LargeStraightScores(dice);
    LargeStraightScores(other);
  }

  /** A large straight is also a small straight. */
  lemma LargeStraightIsSmall(dice: seq<int>)
    requires LargeStraight(dice) == LargeStraightPoints
    ensures SmallStraight(dice) == SmallStraightPoints
  {
    LargeStraightScores(dice);
    SmallStraightScores(dice);
  }

  // ---------------------------------------------------------------------------
  // Chance
  // ---------------------------------------------------------------------------

  /** calculateChange: the sum of the non-zero dice. */
  function Chance(dice: seq<int>): (r: int)
    ensures AllDice(dice) ==> 0 <= r <= 6 * |dice|
    ensures (forall i :: 0 <= i < |dice| ==> IsFace(dice[i])) ==> |dice| <= r
  {
    if |dice| == 0 then 0
    else
      var n := |dice| - 1;
      var sum := Chance(dice[..n]);
      var d := dice[n];
      assert forall i :: 0 <= i < n ==> dice[..n][i] == dice[i];
      if d == 0 then sum else sum + d
  }

  /** One more die adds its face, if thrown, to chance. */
  lemma ChanceLast(dice: seq<int>)
    requires |dice| > 0
    ensures Chance(dice) == Chance(dice[..|dice| - 1]) + dice[|dice| - 1]
  {
  }

  /** One more die in 0..6 adds its value to the upper-section total. */
  lemma UpperTotalLast(dice: seq<int>)
    requires |dice| > 0 && IsDie(dice[|dice| - 1])
    ensures UpperTotal(dice) == UpperTotal(dice[..|dice| - 1]) + dice[|dice| - 1]
  {
    var p := dice[..|dice| - 1];
    var d := dice[|dice| - 1];
    DiceSumLast(dice, 1);
    DiceSumLast(dice, 2);
    DiceSumLast(dice, 3);
    DiceSumLast(dice, 4);
    DiceSumLast(dice, 5);
    DiceSumLast(dice, 6);
    if d == 0 {
    } else if d == 1 {
    } else if d == 2 {
    } else if d == 3 {
    } else if d == 4 {
    } else if d == 5 {
    } else {
      assert d == 6;
    }
  }

  /** Chance equals the six upper-section scores added up. */
  lemma {:induction false} ChanceIsUpperTotal(dice: seq<int>)
    requires AllDice(dice)
    ensures Chance(dice) == UpperTotal(dice)
  {
    if |dice| > 0 {
      var p := dice[..|dice| - 1];
      forall i | 0 <= i < |p| ensures IsDie(p[i]) {
        assert p[i] == dice[i];
      }
      ChanceIsUpperTotal(p);
      ChanceUpperTotalStep(dice);
    }
  }

  /** The inductive step: both sides grow by the last die. */
  lemma ChanceUpperTotalStep(dice: seq<int>)
    requires |dice| > 0 && IsDie(dice[|dice| - 1])
    ensures Chance(dice) - UpperTotal(dice) == Chance(dice[..|dice| - 1]) - UpperTotal(dice[..|dice| - 1])
  {
    ChanceLast(dice);
    UpperTotalLast(dice);
  }

  /** Thrown dice score between 5 and 30 on chance. */
  lemma ChanceRange(dice: seq<int>)
    requires Rolled(dice)
    ensures DiceCount <= Chance(dice) <= 6 * DiceCount
  {
  }
}

/** The worked examples of the scoring rules. */
module ScoringExamples {
  import opened Dice
  import opened Scoring

  /** The value counts of the full-house examples. */
  lemma FullHouseExampleCounts()
    ensures Count([2, 2, 2, 5, 5], 2) == 3 && Count([2, 2, 2, 5, 5], 5) == 2
  {
  }

  lemma FourOfAKindExampleCounts()
    ensures forall i :: 0 <= i < 5 ==> Count([2, 2, 2, 2, 5], [2, 2, 2, 2, 5][i]) != 3
  {
    var four := [2, 2, 2, 2, 5];
    assert Count(four, 2) == 4 && Count(four, 5) == 1;
    forall i | 0 <= i < 5 ensures Count(four, four[i]) != 3 {
      assert four[i] == 2 || four[i] == 5;
    }
  }

  lemma TwoPairsExampleCounts()
    ensures forall i :: 0 <= i < 5 ==> Count([1, 1, 2, 2, 3], [1, 1, 2, 2, 3][i]) != 3
  {
    var pairs := [1, 1, 2, 2, 3];
    assert Count(pairs, 1) == 2 && Count(pairs, 2) == 2 && Count(pairs, 3) == 1;
    forall i | 0 <= i < 5 ensures Count(pairs, pairs[i]) != 3 {
      assert pairs[i] == 1 || pairs[i] == 2 || pairs[i] == 3;
    }
  }

  lemma FullHouseExample()
    ensures FullHouse([2, 2, 2, 5, 5]) == FullHousePoints
  {
    FullHouseExampleCounts();
    FullHouseCounts([2, 2, 2, 5, 5]);
    assert [2, 2, 2, 5, 5][0] == 2 && [2, 2, 2, 5, 5][3] == 5;
  }

  lemma FourOfAKindIsNoFullHouse()
    ensures FullHouse([2, 2, 2, 2, 5]) == 0
  {
    FourOfAKindExampleCounts();
    FullHouseCounts([2, 2, 2, 2, 5]);
  }

  lemma TwoPairsIsNoFullHouse()
    ensures FullHouse([1, 1, 2, 2, 3]) == 0
  {
    TwoPairsExampleCounts();
    FullHouseCounts([1, 1, 2, 2, 3]);
  }

  /** Which of the straight examples contain which runs of faces. */
  lemma StraightExampleFaces()
    ensures HasSmallStraight([1, 2, 3, 4, 6])
    ensures !HasSmallStraight([1, 1, 2, 3, 5])
    ensures HasLargeStraight([2, 3, 4, 5, 6])
    ensures !HasLargeStraight([1, 2, 3, 4, 4])
  {
    var a, b, c, d := [1, 2, 3, 4, 6], [1, 1, 2, 3, 5], [2, 3, 4, 5, 6], [1, 2, 3, 4, 4];
    assert a[0] == 1 && a[1] == 2 && a[2] == 3 && a[3] == 4;
    assert {1, 2, 3, 4} <= Faces(a);
    assert 4 !in Faces(b);
    assert c[0] == 2 && c[1] == 3 && c[2] == 4 && c[3] == 5 && c[4] == 6;
    assert {2, 3, 4, 5, 6} <= Faces(c);
    assert 5 !in Faces(d);
  }

  lemma SmallStraightExamples()
    ensures SmallStraight([1, 2, 3, 4, 6]) == SmallStraightPoints
    ensures SmallStraight([1, 1, 2, 3, 5]) == 0
  {
    StraightExampleFaces();
    SmallStraightScores([1, 2, 3, 4, 6]);
    SmallStraightScores([1, 1, 2, 3, 5]);
  }

  lemma LargeStraightExamples()
    ensures LargeStraight([2, 3, 4, 5, 6]) == LargeStraightPoints
    ensures LargeStraight([1, 2, 3, 4, 4]) == 0
  {
    StraightExampleFaces();
    LargeStraightScores([2, 3, 4, 5, 6]);
    LargeStraightScores([1, 2, 3, 4, 4]);
  }

  lemma YatzyExamples(n: int)
    requires IsFace(n)
    ensures Yatzy([n, n, n, n, n]) == YatzyPoints
    ensures Yatzy([n, n, n, n, 0]) == 0
    ensures Yatzy(NoDice()) == 0
  {
    YatzyScores([n, n, n, n, n]);
    YatzyScores([n, n, n, n, 0]);
    YatzyScores(NoDice());
  }

  /** calculateFullHouse counts the unrolled 0 like a face: three unrolled
      dice and a pair make a full house. Such dice never occur in a game
      (see Game.Reachable), so on a reachable board the rule only ever sees
      thrown faces. */
  lemma FullHouseCountsUnrolledDice()
    ensures IsFullHouse([0, 0, 0, 5, 5])
  {
    FullHouseCounts([0, 0, 0, 5, 5]);
    assert Count([0, 0, 0, 5, 5], 0) == 3 && Count([0, 0, 0, 5, 5], 5) == 2;
  }
}
