# Yahtzee turn engine, modelled in Dafny

This project models the turn engine of the PHP Yahtzee kata (`src/Game.php`,
class `Game`). A game holds a dice array and a count of rolls remaining.

- `roll(positions)` spends one of the round's three rolls. It writes a fresh
  face into each listed position in turn.
- `placeIn(category)` scores the dice present in one of the fifteen categories
  and starts a new round.
- A round with no dice cannot be placed.
- A fourth roll in a round is refused.

Files, one Dafny module each:

- `php_array.dfy` (`PhpArray`) covers the PHP array built-ins the engine uses:
  `array_sum`, `array_unique`, `array_count_values`, `array_filter`,
  `array_diff` and `rsort`. A PHP array is a list of key/value entries in key
  insertion order, so `array_count_values` keeps the order of first
  occurrence, as PHP does.
- `category.dfy` (`Categories`) has the fifteen categories as a datatype.
- `scoring.dfy` (`Scoring`) has the scoring branch of `placeIn` and the
  private helpers `sumXs`, `sumTopNPairs` and `sumNOfAKind`. Each is written
  the way the source composes the built-ins.
- `scoring_rules.dfy` (`ScoringRules`) states what each category means,
  independently of how it is computed, and proves it for every list of dice.
- `scoring_examples.dfy` (`ScoringExamples`) covers the test suite's table of
  35 scored rolls. Each row is derived from the category rule.
- `rolling.dfy` (`Rolling`) defines what one `roll` does to the dice array,
  with lemmas for rolled, held and repeated positions.
- `game.dfy` (`GameEngine`) has the class `Game`, with fields `roller`, `drawn`,
  `order`, `dice` and `rollsRemaining`, and methods `Roll` and `PlaceIn`. Each method is
  proved against the functions of `Rolling` and `Scoring`.
- `scenarios.dfy` (`Scenarios`) drives a `Game` through each scenario of the
  test suite.

The die roller is a collaborator whose code is not part of this model. It is
a function `roller: nat -> int` whose k-th value is the face of its k-th call.
`Game` counts the calls made so far in `drawn`. The constructor requires every
face to be between 1 and 6. Rolling a position writes `$this->dice[$i]`:

- a position already present keeps its place in the array and takes the new
  face;
- a new position is appended.

The dice array is therefore held as `order`, the positions in the order first
written, and `dice`, a map from position to face. `DiceArray(order, dice)` is
the PHP array `roll` returns, and its values are what `placeIn` scores.

Where the intuitive reading of the game and the code differ, the model
follows the code:

- Small Straight and Large Straight ask only that every face of 1–5
  (respectively 2–6) is present. With five dice this still means exactly those
  faces (`StraightsAreExact`).
- Full House asks that the face counts include both 2 and 3.
- Three and Four of a Kind score `n` times the face (not the sum of the
  dice). The face chosen is the first, in order of appearance, that shows at
  least `n` times. With at most five dice at most one face can qualify.
- A position listed twice in one roll takes two faces from the roller, and
  the later one stays.
- Positions are not range-checked. Listing none spends a roll and rolls
  nothing.
- Yahtzee asks for one distinct value among the dice present. After a
  partial first roll a single die scores 50.

## Model

| member | source | states |
|---|---|---|
| PhpArray.Sum | src/Game.php:49 | `array_sum` of the dice values, as Chance, `sumXs` (line 91) and `sumTopNPairs` (line 105) use it; computed by recursion on the list, with its meaning stated by `Scoring.SumXs`, `ScoringRules.ChanceIsUpperTotal` and `ScoringRules.FullHouseRule` |
| PhpArray.Unique | src/Game.php:51 | `array_unique`: no value twice, and exactly the values of the list |
| PhpArray.UniqueOfConstant | src/Game.php:51 | a non-empty list showing one value everywhere has that value as its only distinct value |
| PhpArray.CountValues | src/Game.php:100 | `array_count_values`: keys are the distinct values in first-occurrence order; each value is that key's number of occurrences |
| PhpArray.FilterValues | src/Game.php:91 | `array_filter` over values keeps each accepted value as many times as it occurs, and no other value |
| PhpArray.FilterEntries | src/Game.php:100 | `array_filter` over an array keeps exactly the entries whose value the callback accepts |
| PhpArray.FilterEntriesFirst | src/Game.php:114 | the first entry after filtering is the first entry of the array that passes |
| PhpArray.Diff | src/Game.php:69 | `array_diff`: exactly the elements of the first list missing from the second |
| PhpArray.RSort | src/Game.php:104 | `rsort`: a permutation (same multiset) in non-increasing order |
| PhpArray.RSortStrict | src/Game.php:104 | sorting distinct values gives a strictly decreasing list |
| PhpArray.CountPositive | src/Game.php:100 | a value has a positive count exactly when it occurs |
| PhpArray.DistinctValuesBounded | src/Game.php:100-102 | a list has at least as many elements as distinct values present in it |
| Categories.AllCategories | src/Category.php:9-23 | the enumeration's fifteen values, each exactly once, in declaration order; the datatype `Categories.Category` holds one constructor per value |
| Categories.Face | src/Game.php:52-63 | each upper category counts a face between 1 and 6 |
| Scoring.SumXs | src/Game.php:89-92 | `sumXs(x)` is `x` times the number of dice showing `x` |
| Scoring.PairFaces | src/Game.php:100 | the faces kept by `sumTopNPairs` are distinct and are exactly those shown by at least two dice |
| Scoring.SumTopNPairs | src/Game.php:98-106 | the `sumTopNPairs(n)` helper, computed as the cited lines chain `array_count_values`, `array_filter`, `array_keys`, `rsort` and `array_slice`; its meaning is stated by `ScoringRules.PairRule`, `ScoringRules.TwoPairsRule`, `ScoringRules.SinglePairFaceRule` and `ScoringRules.NoPairRule` |
| Scoring.SumNOfAKind | src/Game.php:112-115 | the `sumNOfAKind(n)` helper, computed as the line chains `array_count_values`, `array_filter` and `array_key_first`, with `?? 0` when no face qualifies; its meaning is stated by `ScoringRules.NOfAKindFirstRule`, `ScoringRules.NOfAKindNoneRule` and `ScoringRules.NOfAKindFiveDiceRule` |
| Scoring.Score | src/Game.php:47-78 | the score `placeIn` computes for each of the fifteen categories, one branch per category as the source dispatches; what each branch means is stated by the `ScoringRules` lemmas below, and `GameEngine.Game.PlaceIn` returns it |
| Scoring.FilterKeepsKeysDistinct | src/Game.php:100 | filtering a PHP array keeps its keys distinct |
| ScoringRules.UpperSectionRule | src/Game.php:52-63 | Ones to Sixes score the face times the number of dice showing it |
| ScoringRules.ChanceIsUpperTotal | src/Game.php:48-49 | with faces 1..6, Chance (`array_sum`) equals the total of the six upper-section scores |
| ScoringRules.YahtzeeRule | src/Game.php:50-51 | Yahtzee scores 50 exactly when dice are present and all show one face, otherwise 0 |
| ScoringRules.SortedPairFaces | src/Game.php:100-104 | after `rsort` the pair faces are strictly decreasing and still exactly the faces shown twice or more |
| ScoringRules.PairRule | src/Game.php:98-106 | Pair scores twice the highest face shown by at least two dice |
| ScoringRules.NoPairRule | src/Game.php:98-103 | Pair and Two Pairs score 0 when no face shows twice |
| ScoringRules.TwoPairsRule | src/Game.php:98-106 | Two Pairs scores twice the sum of the two highest distinct faces shown at least twice; a face on four dice counts once |
| ScoringRules.SinglePairFaceRule | src/Game.php:101-103 | Two Pairs scores 0 when at most one face shows twice |
| ScoringRules.NOfAKindFirstRule | src/Game.php:112-115 | N of a kind scores `n` times the first die, in order, whose face shows at least `n` times |
| ScoringRules.NOfAKindNoneRule | src/Game.php:114 | N of a kind scores 0 when no face shows `n` times |
| ScoringRules.AtMostOneOfAKind | src/Game.php:114 | with at most five dice and `n >= 3`, at most one face shows `n` times |
| ScoringRules.NOfAKindFiveDiceRule | src/Game.php:112-115 | so with five dice the score is `n` times the face that shows `n` times, whatever the order |
| ScoringRules.SmallStraightRule | src/Game.php:68-69 | Small Straight scores 15 exactly when each face 1..5 shows, otherwise 0 |
| ScoringRules.LargeStraightRule | src/Game.php:70-71 | Large Straight scores 20 exactly when each face 2..6 shows, otherwise 0 |
| ScoringRules.FiveFacesAreAll | src/Game.php:68-71 | five dice showing five given distinct faces show no other face |
| ScoringRules.StraightsAreExact | src/Game.php:68-71 | with five dice, a scoring small straight shows only faces 1..5 and a large one only 2..6 |
| ScoringRules.CountShown | src/Game.php:77 | a count appears among the values of `array_count_values` exactly when some face has it |
| ScoringRules.FullHouseRule | src/Game.php:76-77 | Full House scores the sum of the dice when one face shows twice and one three times |
| ScoringRules.NoFullHouseRule | src/Game.php:77 | Full House scores 0 when no face shows twice or no face shows three times |
| ScoringRules.FullHouseFiveDice | src/Game.php:77 | with five dice a full house shows only its pair face and its triple face |
| ScoringExamples.ChanceExamples | tests/GameTest.php:107 | Chance of 1,2,3,4,5 is 15 |
| ScoringExamples.YahtzeeExamples | tests/GameTest.php:108-109 | Yahtzee of 1,1,1,1,1 is 50 and of 1,1,1,1,2 is 0 |
| ScoringExamples.UpperExample | src/Game.php:52-63 | an upper category over five dice is its face times the dice showing it, die by die |
| ScoringExamples.OnesExamples | tests/GameTest.php:110-111 | the two Ones rows of the table |
| ScoringExamples.TwosExamples | tests/GameTest.php:112-113 | the two Twos rows |
| ScoringExamples.ThreesExamples | tests/GameTest.php:114-115 | the two Threes rows |
| ScoringExamples.FoursExamples | tests/GameTest.php:116-117 | the two Fours rows |
| ScoringExamples.FivesExamples | tests/GameTest.php:118-119 | the two Fives rows |
| ScoringExamples.SixesExamples | tests/GameTest.php:120-121 | the two Sixes rows (6,6,6,6,6 scores 30) |
| ScoringExamples.PairExample | src/Game.php:98-106 | over five dice, Pair is twice the face `m` shown twice when no higher die face shows twice |
| ScoringExamples.PairExamples | tests/GameTest.php:122-125 | the four Pair rows (3,3,3,3,1 scores 6; 1,1,6,2,6 scores 12) |
| ScoringExamples.TwoPairsExamples | tests/GameTest.php:126-128 | the three Two Pairs rows (1,1,2,2,2 scores 6) |
| ScoringExamples.ThreeOfAKindExample | tests/GameTest.php:129 | 3,3,3,4,5 scores 9 for Three of a Kind |
| ScoringExamples.NoThreeOfAKindExample | tests/GameTest.php:130 | 3,3,4,5,6 scores 0 for Three of a Kind |
| ScoringExamples.ThreeOfFourOfAKindExample | tests/GameTest.php:131 | 3,3,3,3,5 scores 9 for Three of a Kind, not the sum |
| ScoringExamples.FourOfAKindExample | tests/GameTest.php:132 | 3,3,3,3,5 scores 12 for Four of a Kind |
| ScoringExamples.NoFourOfAKindExample | tests/GameTest.php:133 | 3,3,3,5,5 scores 0 for Four of a Kind |
| ScoringExamples.FourOfFiveOfAKindExample | tests/GameTest.php:134 | 3,3,3,3,3 scores 12 for Four of a Kind |
| ScoringExamples.FullHouseExamples | tests/GameTest.php:135-137 | the three Full House rows (2,2,2,2,2 scores 0) |
| ScoringExamples.SmallStraightExamples | tests/GameTest.php:138-139 | the two Small Straight rows |
| ScoringExamples.LargeStraightExamples | tests/GameTest.php:140-141 | the two Large Straight rows |
| Rolling.RolledOrder | src/Game.php:33-35 | the key order the `foreach` leaves: each listed position in turn, appended when new; computed by recursion over the listed positions, with its meaning stated by `Rolling.RolledOrderFirstListing` and `Rolling.RolledValid` |
| Rolling.RolledFaces | src/Game.php:33-35 | the faces the `foreach` leaves: each listed position in turn takes the roller's next face; computed by recursion over the listed positions, with its meaning stated by `Rolling.RolledHeld`, `Rolling.RolledDrawn` and `Rolling.RolledValid` |
| Rolling.DiceArray | src/Game.php:38 | the returned array lists each position of `order` with its face, in that order |
| Rolling.DiceArrayKeys | src/Game.php:14 | the array's keys are `order`, so distinct positions make a well-formed PHP array |
| Rolling.RolledHeld | src/Game.php:33-35 | a position not listed keeps its face, or stays absent |
| Rolling.RolledDrawn | src/Game.php:33-35 | a listed position shows the face drawn at its last listing |
| Rolling.LastIndexIsLast | src/Game.php:33-35 | no later listing of a position exists after the one whose face it keeps |
| Rolling.RolledOrderFirstListing | src/Game.php:33-35 | new positions join the array after the old ones, in order of first listing |
| Rolling.RolledValid | src/Game.php:33-35 | rolling keeps the dice array well formed and every face in 1..6 |
| GameEngine.Game.constructor | src/Game.php:13-25 | a new game has no dice, three rolls and the given roller |
| GameEngine.Game.Roll | src/Game.php:27-39 | refused with nothing changed when no roll remains; otherwise rolls the listed positions, spends exactly one roll and returns the new array |
| GameEngine.Game.PlaceIn | src/Game.php:41-83 | refused with nothing changed when no dice are present; otherwise returns the category's score and resets the round to no dice and three rolls |
| Scenarios.RollAllFromEmpty | src/Game.php:27-35 | rolling every position of an empty array writes positions 0..4 in order with the next five faces |
| Scenarios.FreshRollArray | src/Game.php:27-38 | the array returned by that roll, its keys and its values |
| Scenarios.FirstRoll | src/Game.php:27-39 | the first roll of a round shows five dice at positions 0..4 with the next five faces and leaves two rolls |
| Scenarios.CanRoll | tests/GameTest.php:14-25 | the first roll of a game shows five dice, each between 1 and 6 |
| Scenarios.RerollKeepsOrder | src/Game.php:33-35 | rerolling positions already present keeps the array's key order |
| Scenarios.SecondRollFaces | src/Game.php:33-35 | rolling positions 0, 1, 4 overwrites exactly those three with the next three faces |
| Scenarios.HoldingFaces | tests/GameTest.php:30-42 | the faces after the holding test's second roll |
| Scenarios.HoldingArray | tests/GameTest.php:42 | the array those faces make reads 5,1,5,5,3 |
| Scenarios.HoldRoll | tests/GameTest.php:39-42 | the holding test's second roll returns keys 0..4 holding 5,1,5,5,3 |
| Scenarios.CanHoldSomeDiceOnTheSecondRoll | tests/GameTest.php:27-43 | held dice keep their faces and places: the second roll returns keys 0..4 holding 5,1,5,5,3 |
| Scenarios.CannotRollMoreThanThreeTimesInOneRound | tests/GameTest.php:45-56 | the fourth roll of a round is refused |
| Scenarios.CannotPlaceInCategoryBeforeRolling | tests/GameTest.php:58-66 | placing in any category before rolling is refused |
| Scenarios.CanPlaceDiceInCategory | tests/GameTest.php:76-86 | after one roll, placing returns the category's score of exactly the five faces drawn |
| Scenarios.PlayRound | tests/GameTest.php:91-95 | three rolls and a placement leave no dice, three rolls, and fifteen faces drawn |
| Scenarios.ShouldResetRoundAfterPlaceInCategory | tests/GameTest.php:88-102 | after a placement the next roll shows five fresh dice and leaves two rolls |
| Scenarios.RollTwiceFromEmpty | src/Game.php:33-35 | listing position 2 twice leaves one entry holding the second face |
| Scenarios.RollOnePositionTwice | src/Game.php:33-51 | a position listed twice draws two faces and keeps the second; one die present scores 50 for Yahtzee |
| Scenarios.RollNoPositions | src/Game.php:27-45 | rolling no positions spends a roll and returns an empty array, after which placing is refused |

## Left out

- The `Roller` class: its code is not part of this model. It is a function
  from call number to face. The constructor requires faces 1..6, which stands
  for `testCanRoll`'s check of a real random roller.
- The `Spatie\Enum\Enum` base class behind `Category`: a foreign library. The
  category is a plain datatype compared structurally, which is what `equals`
  does for these fifteen values.
- The two exception classes: a refused call returns `Err(NoRollsRemaining)` or
  `Err(NoDiceToPlaceInCategory)` instead of throwing, and changes nothing, as
  the throw does.
- The `$score = 0` default of `placeIn`: the fifteen branches cover every
  category, so it is never returned and `Score` has no such case.
- PHP's loose typing: positions are modelled as integers. A caller passing
  non-integer positions to `roll` (a string key, or a float key truncated to
  an integer) is not modelled. Faces are the roller's integers 1..6.
- The stubbed rollers of the tests: a scenario takes any roller. It requires
  only the faces that decide the outcome, so a stub that runs out of answers
  is not modelled.
- Scenarios.CanPlaceDiceInCategory: states the score for an arbitrary roller
  rather than for each row of the data table. The table's rows are the
  `ScoringExamples` lemmas.
