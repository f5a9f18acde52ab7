/**
  The turn engine's documented behaviour, each scenario a method that drives
  a `Game` the way the repository's test suite does. Where a test stubs the
  die roller with fixed faces, the scenario takes any roller and requires
  only the faces that decide the outcome.
*/
module Scenarios {
  import opened PhpArray
  import opened Categories
  import opened Scoring
  import opened Rolling
  import opened GameEngine

  /** Rolling all five positions of an empty array writes them in order with the next five faces. */
  lemma RollAllFromEmpty(roller: nat -> int, from: nat)
    ensures RolledOrder([], AllDice) == AllDice
    ensures RolledFaces(map[], AllDice, roller, from) == FiveFaces(roller, from)
  {
    var f0 := RolledFaces(map[], [0], roller, from);
    var f1 := RolledFaces(map[], [0, 1], roller, from);
    var f2 := RolledFaces(map[], [0, 1, 2], roller, from);
    var f3 := RolledFaces(map[], [0, 1, 2, 3], roller, from);
    assert [0][..0] == [] && [0, 1][..1] == [0] && [0, 1, 2][..2] == [0, 1];
    assert [0, 1, 2, 3][..3] == [0, 1, 2] && AllDice[..4] == [0, 1, 2, 3];
    assert RolledFaces(map[], [], roller, from) == map[];
    assert f0 == RolledFaces(map[], [], roller, from)[0 := roller(from + 0)];
    assert f0 == map[0 := roller(from)];
    assert f1 == f0[1 := roller(from + 1)];
    assert f2 == f1[2 := roller(from + 2)];
    assert f3 == f2[3 := roller(from + 3)];
    assert RolledFaces(map[], AllDice, roller, from) == f3[4 := roller(from + 4)];
  }

  /** The five dice of a roll of every position from an empty array, as `roll()` returns them. */
  lemma FreshRollArray(roller: nat -> int, from: nat)
    ensures RolledOrder([], AllDice) == AllDice
    ensures RolledFaces(map[], AllDice, roller, from) == FiveFaces(roller, from)
    ensures DiceArray(AllDice, FiveFaces(roller, from)) == FiveDice(roller, from)
    ensures Keys(FiveDice(roller, from)) == AllDice
    ensures Values(FiveDice(roller, from)) ==
      [roller(from), roller(from + 1), roller(from + 2), roller(from + 3), roller(from + 4)]
  {
    RollAllFromEmpty(roller, from);
    var a := FiveDice(roller, from);
    var vs := [roller(from), roller(from + 1), roller(from + 2), roller(from + 3), roller(from + 4)];
    assert forall i :: 0 <= i < 5 ==> Values(a)[i] == vs[i];
    assert forall i :: 0 <= i < 5 ==> Keys(a)[i] == AllDice[i];
  }

  function FiveFaces(roller: nat -> int, from: nat): map<int, int>
  {
    map[0 := roller(from), 1 := roller(from + 1), 2 := roller(from + 2), 3 := roller(from + 3), 4 := roller(from + 4)]
  }

  function FiveDice(roller: nat -> int, from: nat): seq<Entry>
  {
    [Entry(0, roller(from)), Entry(1, roller(from + 1)), Entry(2, roller(from + 2)),
     Entry(3, roller(from + 3)), Entry(4, roller(from + 4))]
  }

  /** The first roll of a round rolls every die into an empty array: five fresh dice in position order. */
  method FirstRoll(game: Game) returns (dice: seq<Entry>)
    requires game.Valid() && game.order == [] && game.dice == map[] && game.rollsRemaining == RollsPerRound
    modifies game
    ensures game.Valid() && game.rollsRemaining == RollsPerRound - 1
    ensures game.order == AllDice && game.dice == FiveFaces(game.roller, old(game.drawn))
    ensures game.drawn == old(game.drawn) + 5 && dice == FiveDice(game.roller, old(game.drawn))
    ensures dice == DiceArray(game.order, game.dice)
    ensures Keys(dice) == AllDice
    ensures Values(dice) == [game.roller(old(game.drawn)), game.roller(old(game.drawn) + 1),
      game.roller(old(game.drawn) + 2), game.roller(old(game.drawn) + 3), game.roller(old(game.drawn) + 4)]
  {
    var from := game.drawn;
    var r := game.Roll();
    FreshRollArray(game.roller, from);
    assert game.order == AllDice && game.dice == FiveFaces(game.roller, from);
    dice := r.value;
    assert dice == FiveDice(game.roller, from);
  }

  /** `testCanRoll`: the first roll of a game shows five dice, each from 1 to 6. */
  method CanRoll(roller: nat -> int) returns (dice: seq<Entry>)
    requires RollerFaces(roller)
    ensures Keys(dice) == AllDice
    ensures Values(dice) == [roller(0), roller(1), roller(2), roller(3), roller(4)]
    ensures forall i :: 0 <= i < |dice| ==> 1 <= dice[i].value <= 6
  {
    var game := new Game(roller);
    dice := FirstRoll(game);
    assert forall i :: 0 <= i < |dice| ==> dice[i].value == Values(dice)[i];
  }

  /** Rolling only positions already in the array keeps its key order. */
  lemma {:induction false} RerollKeepsOrder(order: seq<int>, positions: seq<int>)
    requires forall i :: 0 <= i < |positions| ==> positions[i] in order
    ensures RolledOrder(order, positions) == order
  {
    RolledOrderFirstListing(order, positions);
    var d := Diff(Unique(positions), order);
    EmptyIfNothingIn(d);
    assert order + [] == order;
  }

  /** The faces after holding positions 2 and 3 and rolling 0, 1 and 4. */
  lemma SecondRollFaces(faces: map<int, int>, roller: nat -> int, from: nat)
    ensures RolledFaces(faces, [0, 1, 4], roller, from) ==
      faces[0 := roller(from)][1 := roller(from + 1)][4 := roller(from + 2)]
  {
    assert [0, 1, 4][..2] == [0, 1] && [0, 1][..1] == [0] && [0][..0] == [];
    var f0 := RolledFaces(faces, [0], roller, from);
    var f1 := RolledFaces(faces, [0, 1], roller, from);
    assert RolledFaces(faces, [], roller, from) == faces;
    assert f0 == faces[0 := roller(from + 0)];
    assert f1 == f0[1 := roller(from + 1)];
  }

  /**
    The roller of the holding scenario: its first roll shows 5 on positions 2
    and 3, and the next three faces, for positions 0, 1 and 4, are 5, 1 and 3.
  */
  predicate HoldingRoller(roller: nat -> int)
  {
    roller(2) == 5 && roller(3) == 5 && roller(5) == 5 && roller(6) == 1 && roller(7) == 3
  }

  /** The faces of the holding scenario after its second roll. */
  function HeldFaces(): map<int, int>
  {
    map[0 := 5, 1 := 1, 2 := 5, 3 := 5, 4 := 3]
  }

  /** The faces after the holding scenario's second roll. */
  lemma HoldingFaces(roller: nat -> int)
    requires HoldingRoller(roller)
    ensures RolledFaces(FiveFaces(roller, 0), [0, 1, 4], roller, 5) == HeldFaces()
  {
    SecondRollFaces(FiveFaces(roller, 0), roller, 5);
  }

  /** The array of the holding scenario after its second roll: the held dice keep their places. */
  lemma HoldingArray()
    ensures Values(DiceArray(AllDice, HeldFaces())) == [5, 1, 5, 5, 3]
  {
    var e := [Entry(0, 5), Entry(1, 1), Entry(2, 5), Entry(3, 5), Entry(4, 3)];
    assert forall i :: 0 <= i < 5 ==> DiceArray(AllDice, HeldFaces())[i] == e[i];
    assert DiceArray(AllDice, HeldFaces()) == e;
    assert forall i :: 0 <= i < 5 ==> Values(e)[i] == [5, 1, 5, 5, 3][i];
  }

  /**
    `testCanHoldSomeDiceOnTheSecondRoll`: the held dice keep their faces and
    their places. The stub there answers 3, 4, 5, 5, 2, 5, 1, 3; only the faces
    `HoldingRoller` names decide the outcome.
  */
  method CanHoldSomeDiceOnTheSecondRoll(roller: nat -> int) returns (dice: seq<Entry>)
    requires RollerFaces(roller) && HoldingRoller(roller)
    ensures Keys(dice) == AllDice
    ensures Values(dice) == [5, 1, 5, 5, 3]
  {
    var game := new Game(roller);
    var first := FirstRoll(game);
    dice := HoldRoll(game);
  }

  /** The second roll of the holding scenario: positions 0, 1 and 4 only. */
  method HoldRoll(game: Game) returns (dice: seq<Entry>)
    requires game.Valid() && HoldingRoller(game.roller)
    requires game.order == AllDice && game.dice == FiveFaces(game.roller, 0)
    requires game.drawn == 5 && game.rollsRemaining == RollsPerRound - 1
    modifies game
    ensures Keys(dice) == AllDice
    ensures Values(dice) == [5, 1, 5, 5, 3]
  {
    var r := game.Roll([0, 1, 4]);
    DiceArrayKeys(game.order, game.dice);
    RerollKeepsOrder(AllDice, [0, 1, 4]);
    HoldingFaces(game.roller);
    HoldingArray();
    dice := r.value;
  }

  /** `testCannotRollMoreThanThreeTimesInOneRound`: the fourth roll of a round is refused. */
  method CannotRollMoreThanThreeTimesInOneRound(roller: nat -> int) returns (r: Result<seq<Entry>>)
    requires RollerFaces(roller)
    ensures r == Err(NoRollsRemaining)
  {
    var game := new Game(roller);
    r := game.Roll();
    r := game.Roll();
    r := game.Roll();
    r := game.Roll();
  }

  /** `testCannotPlaceInCategoryBeforeRolling`: placing with no dice is refused. */
  method CannotPlaceInCategoryBeforeRolling(roller: nat -> int, c: Category) returns (r: Result<int>)
    requires RollerFaces(roller)
    ensures r == Err(NoDiceToPlaceInCategory)
  {
    var game := new Game(roller);
    r := game.PlaceIn(c);
  }

  /** `testCanPlaceDiceInCategory`: after one roll, placing scores exactly the five faces drawn. */
  method CanPlaceDiceInCategory(roller: nat -> int, c: Category) returns (dice: seq<int>, r: Result<int>)
    requires RollerFaces(roller)
    ensures dice == [roller(0), roller(1), roller(2), roller(3), roller(4)]
    ensures r == Ok(Score(c, dice))
  {
    var game := new Game(roller);
    var rolled := FirstRoll(game);
    dice := Values(rolled);
    r := game.PlaceIn(c);
  }

  /** A whole round: three rolls of every die, then a placement in Chance. */
  method PlayRound(game: Game) returns (score: Result<int>)
    requires game.Valid() && game.rollsRemaining == RollsPerRound
    modifies game
    ensures game.Valid() && score.Ok?
    ensures game.order == [] && game.dice == map[] && game.rollsRemaining == RollsPerRound
    ensures game.drawn == old(game.drawn) + 15
  {
    var r := game.Roll();
    r := game.Roll();
    r := game.Roll();
    score := game.PlaceIn(Chance);
  }

  /**
    `testShouldResetRoundAfterPlaceInCategory`: after a round of three rolls
    and a placement, the next roll shows five fresh dice and leaves two rolls.
  */
  method ShouldResetRoundAfterPlaceInCategory(roller: nat -> int) returns (dice: seq<Entry>, rollsLeft: int)
    requires RollerFaces(roller)
    ensures Keys(dice) == AllDice
    ensures Values(dice) == [roller(15), roller(16), roller(17), roller(18), roller(19)]
    ensures rollsLeft == 2
  {
    var game := new Game(roller);
    var score := PlayRound(game);
    dice := FirstRoll(game);
    rollsLeft := game.rollsRemaining;
  }

  /** The array after rolling position 2 twice from an empty one. */
  lemma RollTwiceFromEmpty(roller: nat -> int)
    ensures RolledOrder([], [2, 2]) == [2]
    ensures RolledFaces(map[], [2, 2], roller, 0) == map[2 := roller(1)]
    ensures DiceArray([2], map[2 := roller(1)]) == [Entry(2, roller(1))]
    ensures Values([Entry(2, roller(1))]) == [roller(1)]
  {
    assert [2, 2][..1] == [2] && [2][..0] == [];
    assert RolledFaces(map[], [], roller, 0) == map[];
    assert RolledFaces(map[], [2], roller, 0) == map[2 := roller(0)];
    assert map[2 := roller(0)][2 := roller(1)] == map[2 := roller(1)];
    assert RolledOrder([], []) == [];
    assert RolledOrder([], [2]) == [2];
  }

  /**
    Rolling one position twice draws two faces and keeps the second; a round
    with a single die present scores a Yahtzee.
  */
  method RollOnePositionTwice(roller: nat -> int) returns (dice: seq<Entry>, score: Result<int>)
    requires RollerFaces(roller)
    ensures dice == [Entry(2, roller(1))]
    ensures score == Ok(50)
  {
    var game := new Game(roller);
    var r := game.Roll([2, 2]);
    RollTwiceFromEmpty(roller);
    dice := r.value;
    score := game.PlaceIn(Yahtzee);
    UniqueOfConstant([roller(1)], roller(1));
  }

  /**
    Rolling no positions still spends a roll and leaves the array empty, so
    placing afterwards is refused as if nothing had been rolled.
  */
  method RollNoPositions(roller: nat -> int) returns (dice: Result<seq<Entry>>, rollsLeft: int, score: Result<int>)
    requires RollerFaces(roller)
    ensures dice == Ok([]) && rollsLeft == 2
    ensures score == Err(NoDiceToPlaceInCategory)
  {
    var game := new Game(roller);
    dice := game.Roll([]);
    rollsLeft := game.rollsRemaining;
    score := game.PlaceIn(Chance);
  }
}
