# Yatzy game board — a Dafny model

A model of the game logic of the Yatzy game board (`components/Gameboard.js`).
It has three parts:

- **Scoring engine.** Five die values (0 for a die not yet thrown, otherwise
  a face 1–6) are mapped to the points of each of the thirteen categories:
  - the sums for ones to sixes;
  - three and four of a kind;
  - yatzy;
  - full house;
  - small and large straight;
  - chance.
- **Category ledger.** This covers the grid selection (`handlePressField`)
  and the commit behind the Set points button (`handleSetPoints`). The
  selected open category is locked with its score on the current dice, the
  score is added to the running `total`, and the selection is cleared.
- **Turn controller.** This covers `throwDices`, `selectDice` and the turn
  reset done by the Set points button. It tracks the throws left in the
  turn, the mask of held dice, and the dice.

Modules, one per part, plus the composition:

| file | module | contents |
|---|---|---|
| dice.dfy | `Dice` | game constants, die predicates, `Count` (the `filter(...).length` of the source) |
| scoring.dfy | `Scoring`, `ScoringExamples` | the `calculate*` rules, their reference definitions and worked examples |
| ledger.dfy | `Ledger` | `Category`, `Score` dispatch, `Scorecard`, `PressField`, `SetPoints` |
| turn.dfy | `Turn` | `Throw`, `SelectDie`, `StartTurn` |
| game.dfy | `Game` | the board as a whole, its actions, the invariant of every reachable board |

Each JavaScript `reduce` becomes a function that recurses on the prefix of
the dice and then handles the last die, which is the order in which `reduce`
visits the dice. Each rule is tied by a lemma to a definition that does not
fold: the occurrence count (proved to be the multiplicity in the multiset of
the dice), a set of faces, or a sum over the six faces.

Behaviour of the code that the model keeps, where it differs from the
usual Yatzy rules:

- `total` is a running sum of committed scores. The minor subtotal, the
  major subtotal and the 63-point / +35 section bonus are never computed:
  the `+35` on the grid is only a label. `Ledger.Consistent` states the
  invariant that does hold: total = the sum of the locked categories'
  points.
- Pressing throw with no throws left rolls nothing, sets the status
  'No throws left' and restores the counter to three
  (`Turn.FourthThrowRestoresThrows`).
- `calculateFullHouse` tallies every die value, the unrolled 0 included, so
  `[0, 0, 0, 5, 5]` is a full house as written
  (`ScoringExamples.FullHouseCountsUnrolledDice`). Such dice cannot arise in
  a game: the dice are either all unrolled or all thrown
  (`Game.Reachable`), and a full house on a reachable board is always made
  of thrown dice (`Game.FullHouseOfThrownDice`).
- With no dice thrown yet, every category is worth 0
  (`Ledger.ScoreUnthrown`).

The board invariant (`Game.Valid`) is what every state of a game satisfies.
Every category has a slot. The total is the sum of the locked points. An
open category holds 0 points, and no category holds negative points. At
most three throws are left. The dice are all thrown, or all unrolled with
nothing held and no throw used.

## Model

| member | source | states |
|---|---|---|
| `Dice.NoDice` | components/Gameboard.js:47 | the dice at game start are five unrolled dice |
| `Dice.Count` | components/Gameboard.js:211 | the number of dice showing a value is at most the number of dice, and 0 when no die shows it |
| `Dice.CountIsMultiplicity` | components/Gameboard.js:211 | the filter-length count equals the multiplicity of the value in the multiset of the dice, so it does not depend on their order |
| `Scoring.DiceSum` | components/Gameboard.js:202-204 | the upper-section score for face v is v times the number of dice showing v; for v >= 0 it lies between 0 and v times the number of dice |
| `Scoring.DiceSumAbsent` | components/Gameboard.js:202-204 | a face no die shows scores 0 |
| `Scoring.KindFold` | components/Gameboard.js:206-228 | the n-of-a-kind reducer never goes negative on non-negative dice |
| `Scoring.KindFoldSingle` | components/Gameboard.js:206-228 | when only face v can reach the threshold, the reducer adds exactly the dice showing v if v reaches it, and nothing otherwise |
| `Scoring.KindFoldAbsent` | components/Gameboard.js:206-228 | when no non-zero face reaches the threshold the score is 0 |
| `Scoring.OnlyOneKind` | components/Gameboard.js:206-228 | among five dice at most one value occurs three or more times |
| `Scoring.NOfAKindPresent` | components/Gameboard.js:206-228 | a non-zero face on at least k >= 3 of the five dice scores the sum of all dice showing it, equal to that face's upper-section score |
| `Scoring.NOfAKindScores` | components/Gameboard.js:206-228 | on valid dice, three (four) of a kind scores more than 0 if and only if some thrown face occurs at least 3 (4) times |
| `Scoring.KindFoldAntitone` | components/Gameboard.js:206-228 | raising the threshold never raises the n-of-a-kind score |
| `Scoring.ThreeOfAKindCoversFour` | components/Gameboard.js:206-228 | three of a kind >= four of a kind >= 0 for any dice |
| `Scoring.YatzyFold` | components/Gameboard.js:230-240 | the yatzy reducer returns 0 or 50, and 50 if and only if some non-zero die's value is on exactly five dice |
| `Scoring.YatzyScores` | components/Gameboard.js:230-240 | on five dice yatzy scores 50 if and only if all five show the same non-zero face, else 0 |
| `Scoring.Tally` | components/Gameboard.js:243-246 | the counts object has a key for exactly the values on the dice, each mapped to the number of dice showing it |
| `Scoring.FullHouseCounts` | components/Gameboard.js:242-249 | full house holds if and only if some die's value is on exactly three dice and some die's value on exactly two |
| `Scoring.FullHouseTwoValues` | components/Gameboard.js:242-249 | on five dice a full house consists of two different values, and every die shows one of them |
| `Scoring.Insert` | components/Gameboard.js:252 | inserting into an ascending list keeps it ascending and adds exactly the one element |
| `Scoring.SortAscending` | components/Gameboard.js:252 | the sorted copy of the dice is ascending and a permutation of the dice |
| `Scoring.SortedFaces` | components/Gameboard.js:252 | the sorted copy holds the same set of values as the dice |
| `Scoring.FirstStraight` | components/Gameboard.js:259-264 | the straight loop returns the points or 0, and the points if and only if some candidate straight is covered by the dice |
| `Scoring.SmallStraightScores` | components/Gameboard.js:251-265 | small straight scores 30 if and only if the dice contain {1,2,3,4}, {2,3,4,5} or {3,4,5,6}, else 0 |
| `Scoring.LargeStraightScores` | components/Gameboard.js:267-280 | large straight scores 40 if and only if the dice contain {1,...,5} or {2,...,6}, else 0 |
| `Scoring.StraightsIgnoreOrder` | components/Gameboard.js:251-280 | both straights give the same score for any reordering of the dice |
| `Scoring.LargeStraightIsSmall` | components/Gameboard.js:251-280 | a large straight is also a small straight |
| `Scoring.Chance` | components/Gameboard.js:282-289 | chance on dice in 0..6 lies between 0 and 6 per die, and on thrown dice it is at least 1 per die |
| `Scoring.ChanceIsUpperTotal` | components/Gameboard.js:282-289 | chance equals the six upper-section scores added up |
| `Scoring.ChanceUpperTotalStep` | components/Gameboard.js:282-289 | one more die in 0..6 adds the same amount to chance and to the upper-section total |
| `Scoring.ChanceRange` | components/Gameboard.js:282-289 | five thrown dice score between 5 and 30 on chance |
| `ScoringExamples.FullHouseExampleCounts` | components/Gameboard.js:243-246 | [2,2,2,5,5] shows 2 three times and 5 twice |
| `ScoringExamples.FourOfAKindExampleCounts` | components/Gameboard.js:243-246 | no value of [2,2,2,2,5] is on exactly three dice |
| `ScoringExamples.TwoPairsExampleCounts` | components/Gameboard.js:243-246 | no value of [1,1,2,2,3] is on exactly three dice |
| `ScoringExamples.FullHouseExample` | components/Gameboard.js:242-249 | [2,2,2,5,5] scores 25 as a full house |
| `ScoringExamples.FourOfAKindIsNoFullHouse` | components/Gameboard.js:242-249 | [2,2,2,2,5] scores 0 as a full house |
| `ScoringExamples.TwoPairsIsNoFullHouse` | components/Gameboard.js:242-249 | [1,1,2,2,3] scores 0 as a full house |
| `ScoringExamples.FullHouseCountsUnrolledDice` | components/Gameboard.js:243-248 | the tally counts the unrolled 0 like a face, so [0,0,0,5,5] is a full house as written |
| `ScoringExamples.StraightExampleFaces` | components/Gameboard.js:251-280 | [1,2,3,4,6] holds a run of four, [1,1,2,3,5] none; [2,3,4,5,6] holds a run of five, [1,2,3,4,4] none |
| `ScoringExamples.SmallStraightExamples` | components/Gameboard.js:251-265 | [1,2,3,4,6] scores 30 as a small straight and [1,1,2,3,5] scores 0 |
| `ScoringExamples.LargeStraightExamples` | components/Gameboard.js:267-280 | [2,3,4,5,6] scores 40 as a large straight and [1,2,3,4,4] scores 0 |
| `ScoringExamples.YatzyExamples` | components/Gameboard.js:230-240 | five equal faces score 50; four equal faces and an unrolled die, or five unrolled dice, score 0 |
| `Ledger.CategoriesListed` | components/Gameboard.js:89-177 | the category list names every category exactly once |
| `Ledger.Score` | components/Gameboard.js:93-177 | every category's score is non-negative on dice that are unrolled or faces |
| `Ledger.ScoreUnthrown` | components/Gameboard.js:202-289 | before the first throw every category scores 0 |
| `Ledger.NewScorecard` | components/Gameboard.js:89-199 | the initial scorecard has every category open with 0 points, a total of 0, no selection, a total consistent with the locked points, and no negative or open-but-scored slot |
| `Ledger.SumLockedNonNegative` | components/Gameboard.js:60-75 | with no slot holding negative points the locked-points sum is not negative |
| `Ledger.NothingLocked` | components/Gameboard.js:89-199 | with nothing locked the locked points sum to 0 |
| `Ledger.SumLockedLock` | components/Gameboard.js:60-75 | locking an open category with p points raises the locked-points sum by exactly p |
| `Ledger.PressField` | components/Gameboard.js:315-317 | pressing a field leaves the slots and total alone; afterwards that field is selected if and only if it was not before, and no other field is selected |
| `Ledger.PressFieldTwice` | components/Gameboard.js:315-317 | pressing the same field twice restores the selection, unless another field was selected to begin with |
| `Ledger.SetPoints` | components/Gameboard.js:53-86 | no selection: nothing changes. Only the selected category may change. A locked category is never rewritten. The category that changes becomes locked with its score on the current dice, and the total grows by exactly that score. The selected category ends up locked and the selection cleared. The total moves in step with the locked points, so consistency is preserved. On dice in 0..6, open slots keep 0 points and no slot becomes negative |
| `Ledger.CommitOnes` | components/Gameboard.js:53-86 | on any scorecard with the ones open and nothing selected, committing ones on [1,1,3,4,5] adds 2 points; a second commit of ones on other dice changes neither the ones nor the total |
| `Ledger.CommitOnesExample` | components/Gameboard.js:53-86 | committing ones on [1,1,3,4,5] locks them with 2 points; a second commit of ones on other dice leaves them at 2 and the total at 2 |
| `Turn.NoneHeldMask` | components/Gameboard.js:39-44 | the reset selection mask holds five dice, none held |
| `Turn.NewTurn` | components/Gameboard.js:32-47 | the initial turn has three throws left, no die held and five unrolled dice, and satisfies the turn invariant |
| `Turn.Throw` | components/Gameboard.js:600-614 | with throws left, held dice keep their faces, every unheld die takes its drawn face in 1..6, one throw is used and the status is kept. With none left, the dice are unchanged, the status is 'No throws left' and the counter is back at three. The hold mask never changes, and the turn invariant is preserved |
| `Turn.SelectDie` | components/Gameboard.js:640-648 | after a throw in the turn, pressing die i flips only die i's hold; before that, the mask is unchanged and the status is 'Game has not started'. The dice and counter never change |
| `Turn.SelectDieTwice` | components/Gameboard.js:640-648 | pressing the same die twice after a throw restores the turn |
| `Turn.StartTurn` | components/Gameboard.js:698-701 | Set points restores three throws and clears the hold mask, keeping dice and status |
| `Turn.FourthThrowRestoresThrows` | components/Gameboard.js:600-614 | three throws take the counter 3 to 2 to 1 to 0; a fourth keeps the dice, reports 'No throws left' and resets the counter to 3 |
| `Turn.ThrowAllHeld` | components/Gameboard.js:600-614 | with every die held a throw leaves the dice unchanged |
| `Game.NewBoard` | components/Gameboard.js:32-47 | the board at game start satisfies the board invariant, with total 0 and three throws |
| `Game.SetPoints` | components/Gameboard.js:698-702 | the Set points button restores three throws and clears the holds, keeping the dice. On a valid board it clears the selection, locks the selected category (an open one with its score on the current dice), and preserves the invariant |
| `Game.Step` | components/Gameboard.js:600-702 | every action preserves the board invariant; only Set points changes slots or total, and throws and die presses leave the scorecard untouched |
| `Game.Run` | components/Gameboard.js:600-702 | any sequence of actions preserves the board invariant |
| `Game.Reachable` | components/Gameboard.js:53-86 | on every board reached from game start, total = the sum of locked points and is >= 0, every open category holds 0 points, 0 <= throws left <= 3, and the dice are all thrown or all unrolled |
| `Game.ReachableScores` | components/Gameboard.js:202-289 | on a reachable board every category is worth >= 0, and 0 before the first throw |
| `Game.FullHouseOfThrownDice` | components/Gameboard.js:242-249 | on a reachable board a full house is always made of thrown dice |
| `Game.NewBoardIsFresh` | components/Gameboard.js:89-199 | the board at game start has nothing locked, nothing selected and nothing thrown |
| `Game.ThrowFours` | components/Gameboard.js:600-614 | at the start of a turn with nothing held, a throw drawing five fours shows five fours with two throws left and the scorecard unchanged |
| `Game.PressAllDice` | components/Gameboard.js:640-648 | after a throw, pressing each die once holds all five and changes neither the dice, the counter nor the scorecard |
| `Game.PressFrom` | components/Gameboard.js:640-648 | after a throw, pressing each unheld die from die k on holds it, leaves dice below k as they were, and changes neither the dice, the counter nor the scorecard |
| `Game.FoursHeld` | components/Gameboard.js:600-648 | at the start of a turn, throwing five fours and pressing every die leaves five held fours with two throws left and the scorecard unchanged |
| `Game.HeldThrows` | components/Gameboard.js:600-614 | with every die held, two throws keep the dice and the scorecard and leave no throws |
| `Game.YatzySet` | components/Gameboard.js:53-86 | selecting the open yatzy field and setting points on five fours locks it at 50, adds 50 to the total and starts a new turn |
| `Game.YatzyCommitted` | components/Gameboard.js:53-86 | with five held fours, two more throws change nothing, and committing the open yatzy locks it at 50 and adds 50 to the total |
| `Game.YatzyTurn` | components/Gameboard.js:600-702 | a first turn of five fours, held and committed as yatzy, ends with yatzy locked at 50, a total of 50 and a fresh turn |

## Left out

- Rendering: `renderFirstRow`, `renderGrid`, `renderDices`, the icon names in `board`, `getDiceColor` and all styles. They only present the state.
- The enabled and visible states of the buttons are rendering too, and the model does not encode them. The Roll button is disabled at zero throws. The Set points button is hidden at three throws left and disabled with no selection. A field is disabled once its category is locked, except chance, whose check asks for a category named 'change'. `Game.Step` accepts every action in every state, so the invariants hold even without those guards.
- `components/Scoreboard.js`: the remote leaderboard store (subscription, sort by points, clear). It is backend glue with no game logic.
- `Math.random`: a throw takes the drawn faces as a parameter, each constrained to 1..6.
- `sectionMinor`, `sectionMajor` and `sectionBonus`: the code never changes their points (always 0), so they carry no behaviour.
- Navigation, route parameters, `useEffect`, `resetGame`, `console.log`, and the unused `fieldValues` and `selecetedValue` state.
- React's state batching: each action is modelled as one atomic transition. This matches how each handler runs to completion before the next user action.
- `NBR_OF_DICES` and `NBR_OF_THROWS`: constants/Game is not part of this model. They are fixed at 5 and 3.
- Category identification by grid index: a category is a constructor of `Ledger.Category`. A missing category keeps the source's "not found" branch: nothing changes, not even the selection.
- JavaScript numbers: every value here is a small integer, so there is no overflow or rounding to model.
