/**
  The scoring table of the repository's test suite: for each listed roll of
  five dice and category, the score `placeIn` returns. Each entry follows from
  the category's rule in `ScoringRules` rather than from evaluating `Score`.
*/
module ScoringExamples {
  import opened PhpArray
  import opened Categories
  import opened Scoring
  import opened ScoringRules

  /** How many of five dice show `x`, die by die. */
  lemma CountOfFive(s: seq<int>, x: int)
    requires |s| == 5
    ensures Count(s, x) == (if s[0] == x then 1 else 0) + (if s[1] == x then 1 else 0)
      + (if s[2] == x then 1 else 0) + (if s[3] == x then 1 else 0) + (if s[4] == x then 1 else 0)
  {
    assert s[..5] == s && s[..5][..4] == s[..4] && s[..4][..3] == s[..3];
    assert s[..3][..2] == s[..2] && s[..2][..1] == s[..1] && s[..1][..0] == [];
    var one := if s[0] == x then 1 else 0;
    assert Count(s[..1], x) == one;
    var two := one + (if s[1] == x then 1 else 0);
    assert Count(s[..2], x) == two;
    var three := two + (if s[2] == x then 1 else 0);
    assert Count(s[..3], x) == three;
    assert Count(s[..4], x) == three + (if s[3] == x then 1 else 0);
  }

  /** The sum of five dice, die by die. */
  lemma SumOfFive(s: seq<int>)
    requires |s| == 5
    ensures Sum(s) == s[0] + s[1] + s[2] + s[3] + s[4]
  {
    assert s[..5] == s && s[..5][..4] == s[..4] && s[..4][..3] == s[..3];
    assert s[..3][..2] == s[..2] && s[..2][..1] == s[..1] && s[..1][..0] == [];
    assert Sum(s[..1]) == s[0];
    assert Sum(s[..2]) == s[0] + s[1];
    assert Sum(s[..3]) == s[0] + s[1] + s[2];
    assert Sum(s[..4]) == s[0] + s[1] + s[2] + s[3];
  }

  lemma ChanceExamples()
    ensures Score(Chance, [1, 2, 3, 4, 5]) == 15
  {
    SumOfFive([1, 2, 3, 4, 5]);
  }

  lemma YahtzeeExamples()
    ensures Score(Yahtzee, [1, 1, 1, 1, 1]) == 50
    ensures Score(Yahtzee, [1, 1, 1, 1, 2]) == 0
  {
    YahtzeeRule([1, 1, 1, 1, 1]);
    YahtzeeRule([1, 1, 1, 1, 2]);
  }

  /** An upper category over five dice: its face times the dice showing it. */
  lemma UpperExample(c: Category, dice: seq<int>)
    requires IsUpper(c) && |dice| == 5
    ensures Score(c, dice) == Face(c) * ((if dice[0] == Face(c) then 1 else 0) + (if dice[1] == Face(c) then 1 else 0)
      + (if dice[2] == Face(c) then 1 else 0) + (if dice[3] == Face(c) then 1 else 0) + (if dice[4] == Face(c) then 1 else 0))
  {
    UpperSectionRule(c, dice);
    CountOfFive(dice, Face(c));
  }

  lemma OnesExamples()
    ensures Score(Ones, [1, 1, 2, 3, 4]) == 2 && Score(Ones, [2, 3, 4, 5, 6]) == 0
  {
    UpperExample(Ones, [1, 1, 2, 3, 4]);
    UpperExample(Ones, [2, 3, 4, 5, 6]);
  }

  lemma TwosExamples()
    ensures Score(Twos, [2, 3, 4, 5, 2]) == 4 && Score(Twos, [1, 3, 4, 5, 6]) == 0
  {
    UpperExample(Twos, [2, 3, 4, 5, 2]);
    UpperExample(Twos, [1, 3, 4, 5, 6]);
  }

  lemma ThreesExamples()
    ensures Score(Threes, [3, 4, 3, 4, 3]) == 9 && Score(Threes, [1, 2, 4, 2, 1]) == 0
  {
    UpperExample(Threes, [3, 4, 3, 4, 3]);
    UpperExample(Threes, [1, 2, 4, 2, 1]);
  }

  lemma FoursExamples()
    ensures Score(Fours, [1, 1, 2, 4, 4]) == 8 && Score(Fours, [1, 2, 3, 2, 1]) == 0
  {
    UpperExample(Fours, [1, 1, 2, 4, 4]);
    UpperExample(Fours, [1, 2, 3, 2, 1]);
  }

  lemma FivesExamples()
    ensures Score(Fives, [1, 2, 3, 4, 5]) == 5 && Score(Fives, [4, 2, 1, 3, 2]) == 0
  {
    UpperExample(Fives, [1, 2, 3, 4, 5]);
    UpperExample(Fives, [4, 2, 1, 3, 2]);
  }

  lemma SixesExamples()
    ensures Score(Sixes, [6, 6, 6, 6, 6]) == 30 && Score(Sixes, [1, 2, 3, 4, 5]) == 0
  {
    UpperExample(Sixes, [6, 6, 6, 6, 6]);
    UpperExample(Sixes, [1, 2, 3, 4, 5]);
  }

  /** Pair over five dice whose highest face shown twice or more is `m`. */
  lemma PairExample(dice: seq<int>, m: int)
    requires |dice| == 5 && Count(dice, m) >= 2
    requires forall i :: 0 <= i < 5 && dice[i] > m ==> Count(dice, dice[i]) < 2
    ensures Score(Pair, dice) == 2 * m
  {
    forall f | Count(dice, f) >= 2 ensures f <= m {
      CountPositive(dice, f);
      var i :| 0 <= i < |dice| && dice[i] == f;
    }
    PairRule(dice, m);
  }

  lemma PairExamples()
    ensures Score(Pair, [3, 3, 3, 4, 4]) == 8
    ensures Score(Pair, [3, 3, 3, 4, 1]) == 6
    ensures Score(Pair, [1, 1, 6, 2, 6]) == 12
    ensures Score(Pair, [3, 3, 3, 3, 1]) == 6
  {
    CountOfFive([3, 3, 3, 4, 4], 4);
    PairExample([3, 3, 3, 4, 4], 4);
    CountOfFive([3, 3, 3, 4, 1], 3);
    CountOfFive([3, 3, 3, 4, 1], 4);
    PairExample([3, 3, 3, 4, 1], 3);
    CountOfFive([1, 1, 6, 2, 6], 6);
    PairExample([1, 1, 6, 2, 6], 6);
    CountOfFive([3, 3, 3, 3, 1], 3);
    PairExample([3, 3, 3, 3, 1], 3);
  }

  lemma TwoPairsExamples()
    ensures Score(TwoPairs, [1, 1, 2, 3, 3]) == 8
    ensures Score(TwoPairs, [1, 1, 2, 3, 4]) == 0
    ensures Score(TwoPairs, [1, 1, 2, 2, 2]) == 6
  {
    var d := [1, 1, 2, 3, 3];
    forall f | Count(d, f) >= 2 && f != 3 ensures f <= 1 {
      CountOfFive(d, f);
    }
    CountOfFive(d, 1);
    CountOfFive(d, 3);
    TwoPairsRule(d, 3, 1);
    d := [1, 1, 2, 3, 4];
    forall f | Count(d, f) >= 2 ensures f == 1 {
      CountOfFive(d, f);
    }
    SinglePairFaceRule(d, 1);
    d := [1, 1, 2, 2, 2];
    forall f | Count(d, f) >= 2 && f != 2 ensures f <= 1 {
      CountOfFive(d, f);
    }
    CountOfFive(d, 1);
    CountOfFive(d, 2);
    TwoPairsRule(d, 2, 1);
  }

  lemma ThreeOfAKindExample()
    ensures Score(ThreeOfAKind, [3, 3, 3, 4, 5]) == 9
  {
    CountOfFive([3, 3, 3, 4, 5], 3);
    NOfAKindFiveDiceRule([3, 3, 3, 4, 5], 3, 3);
  }

  lemma NoThreeOfAKindExample()
    ensures Score(ThreeOfAKind, [3, 3, 4, 5, 6]) == 0
  {
    var d := [3, 3, 4, 5, 6];
    forall f | f in d ensures Count(d, f) < 3 {
      CountOfFive(d, f);
    }
    NOfAKindNoneRule(d, 3);
  }

  /** Four dice of a kind are also three of a kind: the score counts three of them. */
  lemma ThreeOfFourOfAKindExample()
    ensures Score(ThreeOfAKind, [3, 3, 3, 3, 5]) == 9
  {
    CountOfFive([3, 3, 3, 3, 5], 3);
    NOfAKindFiveDiceRule([3, 3, 3, 3, 5], 3, 3);
  }

  lemma FourOfAKindExample()
    ensures Score(FourOfAKind, [3, 3, 3, 3, 5]) == 12
  {
    CountOfFive([3, 3, 3, 3, 5], 3);
    NOfAKindFiveDiceRule([3, 3, 3, 3, 5], 4, 3);
  }

  lemma NoFourOfAKindExample()
    ensures Score(FourOfAKind, [3, 3, 3, 5, 5]) == 0
  {
    var d := [3, 3, 3, 5, 5];
    forall f | f in d ensures Count(d, f) < 4 {
      CountOfFive(d, f);
    }
    NOfAKindNoneRule(d, 4);
  }

  /** Five dice of a kind are also four of a kind: the score counts four of them. */
  lemma FourOfFiveOfAKindExample()
    ensures Score(FourOfAKind, [3, 3, 3, 3, 3]) == 12
  {
    CountOfFive([3, 3, 3, 3, 3], 3);
    NOfAKindFiveDiceRule([3, 3, 3, 3, 3], 4, 3);
  }

  lemma FullHouseExamples()
    ensures Score(FullHouse, [2, 2, 2, 3, 3]) == 12
    ensures Score(FullHouse, [1, 2, 2, 3, 3]) == 0
    ensures Score(FullHouse, [2, 2, 2, 2, 2]) == 0
  {
    var d := [2, 2, 2, 3, 3];
    CountOfFive(d, 3);
    CountOfFive(d, 2);
    SumOfFive(d);
    FullHouseRule(d, 3, 2);
    d := [1, 2, 2, 3, 3];
    forall f ensures Count(d, f) != 3 {
      CountOfFive(d, f);
    }
    NoFullHouseRule(d);
    d := [2, 2, 2, 2, 2];
    forall f ensures Count(d, f) != 2 {
      CountOfFive(d, f);
    }
    NoFullHouseRule(d);
  }

  lemma SmallStraightExamples()
    ensures Score(SmallStraight, [1, 2, 3, 4, 5]) == 15
    ensures Score(SmallStraight, [2, 3, 4, 5, 6]) == 0
  {
    SmallStraightRule([1, 2, 3, 4, 5]);
    assert 1 !in [2, 3, 4, 5, 6];
    SmallStraightRule([2, 3, 4, 5, 6]);
  }

  lemma LargeStraightExamples()
    ensures Score(LargeStraight, [1, 2, 3, 4, 5]) == 0
    ensures Score(LargeStraight, [2, 3, 4, 5, 6]) == 20
  {
    assert 6 !in [1, 2, 3, 4, 5];
    LargeStraightRule([1, 2, 3, 4, 5]);
    LargeStraightRule([2, 3, 4, 5, 6]);
  }
}
