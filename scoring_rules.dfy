/**
  What each category rule means, stated independently of how `Score` builds
  it out of the PHP array built-ins, and proved for every list of dice
  values. The lemmas that speak of "five dice" describe a full round.
*/
module ScoringRules {
  import opened PhpArray
  import opened Categories
  import opened Scoring

  predicate AreFaces(dice: seq<int>)
  {
    forall i :: 0 <= i < |dice| ==> IsFace(dice[i])
  }

  // ---------------------------------------------------------------- Chance and upper section

  /** An upper category scores its face times the number of dice showing it. */
  lemma {:induction false} UpperSectionRule(c: Category, dice: seq<int>)
    requires IsUpper(c)
    ensures Score(c, dice) == Face(c) * Count(dice, Face(c))
  {
  }

  /** Chance is the sum of the dice: the total of the six upper-section scores. */
  lemma {:induction false} ChanceIsUpperTotal(dice: seq<int>)
    requires AreFaces(dice)
    ensures Score(Chance, dice) == Score(Ones, dice) + Score(Twos, dice) + Score(Threes, dice)
                                 + Score(Fours, dice) + Score(Fives, dice) + Score(Sixes, dice)
  {
    SumByFace(dice);
  }

  lemma {:induction false} SumByFace(dice: seq<int>)
    requires AreFaces(dice)
    ensures Sum(dice) == Count(dice, 1) + 2 * Count(dice, 2) + 3 * Count(dice, 3)
                       + 4 * Count(dice, 4) + 5 * Count(dice, 5) + 6 * Count(dice, 6)
  {
    if dice != [] {
      SumByFace(dice[..|dice| - 1]);
    }
  }

  // ---------------------------------------------------------------- Yahtzee

  /** Yahtzee scores 50 exactly when dice are present and all show one face. */
  lemma {:induction false} YahtzeeRule(dice: seq<int>)
    ensures Score(Yahtzee, dice) ==
      if dice != [] && forall i :: 0 <= i < |dice| ==> dice[i] == dice[0] then 50 else 0
  {
    var u := Unique(dice);
    if dice != [] && forall i :: 0 <= i < |dice| ==> dice[i] == dice[0] {
      UniqueOfConstant(dice, dice[0]);
    }
    if |u| == 1 {
      assert u[0] in dice;
      forall i | 0 <= i < |dice| ensures dice[i] == dice[0] {
        assert dice[i] in u && dice[0] in u;
      }
    }
  }

  // ---------------------------------------------------------------- Pair and Two Pairs

  lemma {:induction false} SumOfFirst(s: seq<int>)
    requires |s| >= 2
    ensures Sum(s[..1]) == s[0] && Sum(s[..2]) == s[0] + s[1]
  {
    assert s[..1][..0] == [] && s[..2][..1] == s[..1];
  }

  /** The faces shown by at least two dice, as `rsort` orders them. */
  lemma {:induction false} SortedPairFaces(dice: seq<int>)
    ensures StrictlyDescending(RSort(PairFaces(dice)))
    ensures forall x :: x in RSort(PairFaces(dice)) <==> Count(dice, x) >= 2
  {
    var p := PairFaces(dice);
    RSortStrict(p);
    forall x ensures x in RSort(p) <==> x in p {
      assert x in RSort(p) <==> x in multiset(RSort(p));
      assert x in p <==> x in multiset(p);
    }
  }

  /** The head of a decreasing list is its largest element. */
  lemma {:induction false} HeadOfSorted(q: seq<int>, m: int)
    requires StrictlyDescending(q) && m in q
    requires forall x :: x in q ==> x <= m
    ensures q[0] == m
  {
    var k :| 0 <= k < |q| && q[k] == m;
    assert q[0] in q;
    assert forall j :: 0 <= j < |q| ==> q[0] >= q[j];
  }

  /** The two first elements of a decreasing list are its two largest. */
  lemma {:induction false} TopTwoOfSorted(q: seq<int>, a: int, b: int)
    requires StrictlyDescending(q) && a > b && a in q && b in q
    requires forall x :: x in q && x != a ==> x <= b
    ensures |q| >= 2 && q[0] == a && q[1] == b
  {
    HeadOfSorted(q, a);
    var k :| 0 <= k < |q| && q[k] == b;
    assert q[1] in q && k != 0;
    assert forall j :: 1 <= j < |q| ==> q[1] >= q[j];
  }

  /** Pair: twice the highest face shown by at least two dice. */
  lemma {:induction false} PairRule(dice: seq<int>, m: int)
    requires Count(dice, m) >= 2
    requires forall f :: Count(dice, f) >= 2 ==> f <= m
    ensures Score(Pair, dice) == 2 * m
  {
    var q := RSort(PairFaces(dice));
    SortedPairFaces(dice);
    HeadOfSorted(q, m);
    SumOfFirst(q[..1] + [0]);
    assert (q[..1] + [0])[..1] == q[..1];
    assert SumTopNPairs(dice, 1) == 2 * Sum(q[..1]);
  }

  /** Pair and Two Pairs score 0 when no face shows on two dice. */
  lemma {:induction false} NoPairRule(dice: seq<int>)
    requires forall f :: Count(dice, f) < 2
    ensures Score(Pair, dice) == 0 && Score(TwoPairs, dice) == 0
  {
    EmptyIfNothingIn(PairFaces(dice));
  }

  /**
    Two Pairs: twice the sum of the two highest distinct faces each shown by
    at least two dice; a face shown by four or five dice counts once.
  */
  lemma {:induction false} TwoPairsRule(dice: seq<int>, a: int, b: int)
    requires a > b && Count(dice, a) >= 2 && Count(dice, b) >= 2
    requires forall f :: Count(dice, f) >= 2 && f != a ==> f <= b
    ensures Score(TwoPairs, dice) == 2 * (a + b)
  {
    var q := RSort(PairFaces(dice));
    SortedPairFaces(dice);
    TopTwoOfSorted(q, a, b);
    SumOfFirst(q);
    assert SumTopNPairs(dice, 2) == 2 * Sum(q[..2]);
  }

  /** Two Pairs scores 0 when at most one face shows on two dice. */
  lemma {:induction false} SinglePairFaceRule(dice: seq<int>, a: int)
    requires forall f :: Count(dice, f) >= 2 ==> f == a
    ensures Score(TwoPairs, dice) == 0
  {
    DistinctValuesBounded([a], PairFaces(dice));
  }

  // ---------------------------------------------------------------- Three and Four of a Kind

  /**
    N of a kind (both categories, and any threshold): `n` times the first
    die, in roll order, whose face shows on at least `n` dice.
  */
  lemma {:induction false} NOfAKindFirstRule(dice: seq<int>, n: nat, i: nat)
    requires i < |dice| && Count(dice, dice[i]) >= n
    requires forall j :: 0 <= j < i ==> Count(dice, dice[j]) < n
    ensures SumNOfAKind(dice, n) == n * dice[i]
  {
    UniqueFirstOccurrence(dice, i);
    var before := Unique(dice[..i]);
    var k := |before|;
    var counts := CountValues(dice);
    assert Keys(counts) == Unique(dice);
    assert counts[k].key == dice[i];
    forall j | 0 <= j < k ensures !AtLeast(n)(counts[j].value) {
      assert counts[j].key == before[j];
      assert before[j] in dice[..i];
      var l :| 0 <= l < i && dice[..i][l] == before[j];
      assert dice[l] == before[j];
    }
    FilterEntriesFirst(counts, AtLeast(n), k);
  }

  /** N of a kind scores 0 when no face shows on `n` dice. */
  lemma {:induction false} NOfAKindNoneRule(dice: seq<int>, n: nat)
    requires forall f :: f in dice ==> Count(dice, f) < n
    ensures SumNOfAKind(dice, n) == 0
  {
  }

  /** With at most five dice, no two faces can both show three times or more. */
  lemma {:induction false} AtMostOneOfAKind(dice: seq<int>, n: nat, f: int, g: int)
    requires |dice| <= 5 && n >= 3
    requires Count(dice, f) >= n && Count(dice, g) >= n
    ensures f == g
  {
    if f != g {
      CountTwoBounded(dice, f, g);
    }
  }

  /** So with five dice the order rule picks the one face that qualifies. */
  lemma {:induction false} NOfAKindFiveDiceRule(dice: seq<int>, n: nat, f: int)
    requires |dice| <= 5 && n >= 3 && Count(dice, f) >= n
    ensures SumNOfAKind(dice, n) == n * f
  {
    CountPositive(dice, f);
    var i := FirstIndex(dice, f);
    forall j | 0 <= j < i ensures Count(dice, dice[j]) < n {
      assert dice[j] in dice[..i];
      if Count(dice, dice[j]) >= n {
        AtMostOneOfAKind(dice, n, dice[j], f);
      }
    }
    NOfAKindFirstRule(dice, n, i);
  }

  // ---------------------------------------------------------------- Straights

  /** Small Straight scores 15 exactly when each face 1 to 5 shows. */
  lemma {:induction false} SmallStraightRule(dice: seq<int>)
    ensures Score(SmallStraight, dice) == if forall f :: 1 <= f <= 5 ==> f in dice then 15 else 0
  {
    var missing := Diff([1, 2, 3, 4, 5], dice);
    EmptyIfNothingIn(missing);
    if !forall f :: 1 <= f <= 5 ==> f in dice {
      var f :| 1 <= f <= 5 && f !in dice;
      assert f in [1, 2, 3, 4, 5];
      assert f in missing;
    }
  }

  /** Large Straight scores 20 exactly when each face 2 to 6 shows. */
  lemma {:induction false} LargeStraightRule(dice: seq<int>)
    ensures Score(LargeStraight, dice) == if forall f :: 2 <= f <= 6 ==> f in dice then 20 else 0
  {
    var missing := Diff([2, 3, 4, 5, 6], dice);
    EmptyIfNothingIn(missing);
    if !forall f :: 2 <= f <= 6 ==> f in dice {
      var f :| 2 <= f <= 6 && f !in dice;
      assert f in [2, 3, 4, 5, 6];
      assert f in missing;
    }
  }

  /** Five dice showing five given distinct faces show no other face. */
  lemma {:induction false} FiveFacesAreAll(dice: seq<int>, vs: seq<int>, x: int)
    requires |dice| == 5 && |vs| == 5 && NoDuplicates(vs)
    requires forall v :: v in vs ==> v in dice
    requires x in dice
    ensures x in vs
  {
    if x !in vs {
      var ws := vs + [x];
      forall i, j | 0 <= i < j < |ws| ensures ws[i] != ws[j] {
        if j < 5 { assert ws[i] == vs[i] && ws[j] == vs[j]; } else { assert ws[i] in vs; }
      }
      DistinctValuesBounded(dice, ws);
    }
  }

  /** With five dice a small straight shows exactly the faces 1 to 5, a large one exactly 2 to 6. */
  lemma {:induction false} StraightsAreExact(dice: seq<int>)
    requires |dice| == 5
    ensures Score(SmallStraight, dice) == 15 ==> forall x :: x in dice ==> 1 <= x <= 5
    ensures Score(LargeStraight, dice) == 20 ==> forall x :: x in dice ==> 2 <= x <= 6
  {
    SmallStraightRule(dice);
    LargeStraightRule(dice);
    forall x | x in dice && Score(SmallStraight, dice) == 15 ensures 1 <= x <= 5 {
      FiveFacesAreAll(dice, [1, 2, 3, 4, 5], x);
    }
    forall x | x in dice && Score(LargeStraight, dice) == 20 ensures 2 <= x <= 6 {
      FiveFacesAreAll(dice, [2, 3, 4, 5, 6], x);
    }
  }

  // ---------------------------------------------------------------- Full House

  /** A count shows among the values of `array_count_values` exactly when some face has it. */
  lemma {:induction false} CountShown(dice: seq<int>, c: nat)
    requires c > 0
    ensures c in Values(CountValues(dice)) <==> exists f :: Count(dice, f) == c
  {
    var counts := CountValues(dice);
    if c in Values(counts) {
      var k :| 0 <= k < |counts| && Values(counts)[k] == c;
      assert Count(dice, counts[k].key) == c;
    }
    if exists f :: Count(dice, f) == c {
      var f :| Count(dice, f) == c;
      CountPositive(dice, f);
      assert f in Keys(counts);
      var k :| 0 <= k < |counts| && Keys(counts)[k] == f;
      assert Values(counts)[k] == c;
    }
  }

  /** Full House scores the sum of the dice when one face shows twice and one three times. */
  lemma {:induction false} FullHouseRule(dice: seq<int>, f: int, g: int)
    requires Count(dice, f) == 2 && Count(dice, g) == 3
    ensures Score(FullHouse, dice) == Sum(dice)
  {
    CountShown(dice, 2);
    CountShown(dice, 3);
    EmptyIfNothingIn(Diff([2, 3], Values(CountValues(dice))));
  }

  /** Otherwise Full House scores 0. */
  lemma {:induction false} NoFullHouseRule(dice: seq<int>)
    requires (forall f :: Count(dice, f) != 2) || (forall f :: Count(dice, f) != 3)
    ensures Score(FullHouse, dice) == 0
  {
    CountShown(dice, 2);
    CountShown(dice, 3);
    var missing := Diff([2, 3], Values(CountValues(dice)));
    assert 2 in missing || 3 in missing;
  }

  /** With five dice a full house is one pair and one triple and nothing else. */
  lemma {:induction false} FullHouseFiveDice(dice: seq<int>, f: int, g: int, x: int)
    requires |dice| == 5 && Count(dice, f) == 2 && Count(dice, g) == 3
    requires x in dice
    ensures x == f || x == g
  {
    if x != f && x != g {
      CountPositive(dice, x);
      CountThreeBounded(dice, f, g, x);
    }
  }
}
