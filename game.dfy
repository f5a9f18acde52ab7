/**
  The turn engine: one player's round of up to three rolls, holding dice by
  leaving their positions out of a roll, and placing the dice in a category.

  The die roller is a collaborator whose code is not part of this model. It
  stands here as the function `roller`: `roller(k)` is the face its k-th call
  returns (counting from 0), so a fixed stub and a random source alike are
  modelled by the sequence of faces they produce.
*/
module GameEngine {
  import opened PhpArray
  import opened Categories
  import opened Scoring
  import opened Rolling

  /** The two refusals, thrown as exceptions by the engine. */
  datatype Error = NoRollsRemaining | NoDiceToPlaceInCategory

  datatype Result<T> = Ok(value: T) | Err(error: Error)

  /** The positions `roll()` rolls when none are given. */
  const AllDice: seq<int> := [0, 1, 2, 3, 4]

  const RollsPerRound: int := 3

  class Game {
    /** The die roller this game was built with. */
    const roller: nat -> int
    /** How many faces have been taken from the roller so far. */
    var drawn: nat
    /** The positions rolled this round, in the order first rolled: the keys of the dice array. */
    var order: seq<int>
    /** Position => face of every die rolled this round. */
    var dice: map<int, int>
    var rollsRemaining: int

    ghost predicate Valid()
      reads this
    {
      && RollerFaces(roller)
      && 0 <= rollsRemaining <= RollsPerRound
      && WellFormedDice(order, dice)
      && FacesOnly(dice)
      && (rollsRemaining == RollsPerRound ==> order == [])
    }

    /** A new game starts a round: no dice, three rolls. */
    constructor (roller: nat -> int)
      requires RollerFaces(roller)
      ensures Valid()
      ensures this.roller == roller && drawn == 0
      ensures order == [] && dice == map[] && rollsRemaining == RollsPerRound
    {
      this.roller := roller;
      drawn := 0;
      order := [];
      dice := map[];
      rollsRemaining := RollsPerRound;
    }

    /**
      `roll(positions)`: refused, changing nothing, when no roll remains;
      otherwise rolls the listed positions and spends exactly one roll,
      however many positions are listed (none included). Positions are not
      checked against 0..4.
    */
    method Roll(positions: seq<int> := AllDice) returns (r: Result<seq<Entry>>)
      requires Valid()
      modifies this
      ensures Valid()
      ensures old(rollsRemaining) <= 0 ==>
        && r == Err(NoRollsRemaining)
        && order == old(order) && dice == old(dice)
        && rollsRemaining == old(rollsRemaining) && drawn == old(drawn)
      ensures old(rollsRemaining) > 0 ==>
        && r == Ok(DiceArray(order, dice))
        && order == RolledOrder(old(order), positions)
        && dice == RolledFaces(old(dice), positions, roller, old(drawn))
        && rollsRemaining == old(rollsRemaining) - 1
        && drawn == old(drawn) + |positions|
    {
      if rollsRemaining <= 0 {
        return Err(NoRollsRemaining);
      }
      var keys, faces, next := order, dice, drawn;
      var i := 0;
      while i < |positions|
        invariant 0 <= i <= |positions|
        invariant keys == RolledOrder(order, positions[..i])
        invariant faces == RolledFaces(dice, positions[..i], roller, drawn)
        invariant forall k :: k in keys <==> k in faces
        invariant next == drawn + i
        modifies {}
      {
        assert positions[..i + 1] == positions[..i] + [positions[i]];
        RolledSnoc(order, dice, positions[..i], positions[i], roller, drawn);
        var face := roller(next);
        next := next + 1;
        if positions[i] !in faces {
          keys := keys + [positions[i]];
        }
        faces := faces[positions[i] := face];
        i := i + 1;
      }
      assert positions[..i] == positions;
      RolledValid(order, dice, positions, roller, drawn);
      order, dice, drawn := keys, faces, next;
      rollsRemaining := rollsRemaining - 1;
      r := Ok(DiceArray(order, dice));
    }

    /**
      `placeIn(category)`: refused, changing nothing, when no die has been
      rolled this round; otherwise scores the dice present and starts a new
      round, whatever the score.
    */
    method PlaceIn(c: Category) returns (r: Result<int>)
      requires Valid()
      modifies this
      ensures Valid()
      ensures old(order) == [] ==>
        && r == Err(NoDiceToPlaceInCategory)
        && order == old(order) && dice == old(dice)
        && rollsRemaining == old(rollsRemaining) && drawn == old(drawn)
      ensures old(order) != [] ==>
        && r == Ok(Score(c, Values(DiceArray(old(order), old(dice)))))
        && order == [] && dice == map[] && rollsRemaining == RollsPerRound && drawn == old(drawn)
    {
      if order == [] {
        return Err(NoDiceToPlaceInCategory);
      }
      var score := Score(c, Values(DiceArray(order, dice)));
      rollsRemaining := RollsPerRound;
      order := [];
      dice := map[];
      r := Ok(score);
    }
  }
}
