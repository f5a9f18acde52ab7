/**
  The category scoring rules: what `placeIn` computes from the current dice
  before it resets the round, and the private helpers `sumXs`, `sumTopNPairs`
  and `sumNOfAKind`.

  Every rule is a function of the dice values in array order (`Values` of the
  dice array), whatever their number: a round in which only some positions
  were rolled is scored over the values present.
*/
module Scoring {
  import opened PhpArray
  import opened Categories

  /** The callbacks handed to `array_filter`. */
  function EqualTo(x: int): int -> bool { d => d == x }
  function Above(m: int): int -> bool { c => c > m }
  function AtLeast(m: int): int -> bool { c => c >= m }

  /** `sumXs($x)`: the sum of the dice showing exactly `x`. */
  function SumXs(dice: seq<int>, x: int): (r: int)
    ensures r == x * Count(dice, x)
  {
    SumOfEqual(dice, x, EqualTo(x));
    Sum(FilterValues(dice, EqualTo(x)))
  }

  lemma {:induction false} SumOfEqual(dice: seq<int>, x: int, p: int -> bool)
    requires forall d :: p(d) <==> d == x
    ensures Sum(FilterValues(dice, p)) == x * Count(dice, x)
  {
    if dice != [] {
      var init, last := dice[..|dice| - 1], dice[|dice| - 1];
      SumOfEqual(init, x, p);
      var f := FilterValues(init, p);
      var c := Count(init, x);
      if last == x {
        assert FilterValues(dice, p) == f + [x];
        SumSnoc(f, x);
        assert Count(dice, x) == c + 1;
        MulSucc(x, c);
      } else {
        assert FilterValues(dice, p) == f;
      }
    }
  }

  lemma MulSucc(x: int, c: int)
    ensures x * (c + 1) == x * c + x
  {
  }

  /** The faces shown by at least two dice (`$count > 1`), each once, in order of first appearance. */
  function PairFaces(dice: seq<int>): (r: seq<int>)
    ensures NoDuplicates(r)
    ensures forall x :: x in r <==> Count(dice, x) >= 2
  {
    var counts := CountValues(dice);
    var kept := FilterEntries(counts, Above(1));
    FilterKeepsKeysDistinct(counts, Above(1));
    forall x ensures x in Keys(kept) <==> Count(dice, x) >= 2 {
      if Count(dice, x) >= 2 {
        CountPositive(dice, x);
        assert x in Unique(dice);
        var i :| 0 <= i < |counts| && Keys(counts)[i] == x;
        assert counts[i] in kept;
        assert Keys(kept)[FirstIndex(kept, counts[i])] == x;
      }
      if x in Keys(kept) {
        var i :| 0 <= i < |kept| && Keys(kept)[i] == x;
        assert kept[i] in counts;
      }
    }
    Keys(kept)
  }

  /** Filtering the entries of a PHP array keeps its keys distinct. */
  lemma {:induction false} FilterKeepsKeysDistinct(a: seq<Entry>, p: int -> bool)
    requires WellFormed(a)
    ensures WellFormed(FilterEntries(a, p))
  {
    if a != [] {
      var init, last := a[..|a| - 1], a[|a| - 1];
      assert Keys(a) == Keys(init) + [last.key];
      assert WellFormed(init) by {
        forall i, j | 0 <= i < j < |init| ensures Keys(init)[i] != Keys(init)[j] {
          assert Keys(init)[i] == Keys(a)[i] && Keys(init)[j] == Keys(a)[j];
        }
      }
      FilterKeepsKeysDistinct(init, p);
      var f := FilterEntries(init, p);
      if p(last.value) {
        var r := f + [last];
        assert Keys(r) == Keys(f) + [last.key];
        forall i, j | 0 <= i < j < |r| ensures Keys(r)[i] != Keys(r)[j] {
          if j == |f| {
            assert f[i] in init;
            var k := FirstIndex(init, f[i]);
            assert Keys(a)[k] == Keys(r)[i];
            assert Keys(a)[|init|] == last.key;
          }
        }
      }
    }
  }

  /**
    `sumTopNPairs($n)`: twice the sum of the `n` highest faces shown by at
    least two dice, or 0 when fewer than `n` faces do.
  */
  function SumTopNPairs(dice: seq<int>, n: nat): int
  {
    var pairs := PairFaces(dice);
    if |pairs| < n then 0 else 2 * Sum(RSort(pairs)[..n])
  }

  /**
    `sumNOfAKind($n)`: `n` times the first face (in order of first appearance)
    shown by at least `n` dice, or 0 when there is none.
  */
  function SumNOfAKind(dice: seq<int>, n: nat): int
  {
    var kinds := FilterEntries(CountValues(dice), AtLeast(n));
    n * (if kinds == [] then 0 else kinds[0].key)
  }

  /** The score `placeIn(category)` returns for the given dice values. */
  function Score(c: Category, dice: seq<int>): int
  {
    match c
    case Chance => Sum(dice)
    case Yahtzee => if |Unique(dice)| == 1 then 50 else 0
    case Ones => SumXs(dice, 1)
    case Twos => SumXs(dice, 2)
    case Threes => SumXs(dice, 3)
    case Fours => SumXs(dice, 4)
    case Fives => SumXs(dice, 5)
    case Sixes => SumXs(dice, 6)
    case Pair => SumTopNPairs(dice, 1)
    case TwoPairs => SumTopNPairs(dice, 2)
    case SmallStraight => if Diff([1, 2, 3, 4, 5], dice) == [] then 15 else 0
    case LargeStraight => if Diff([2, 3, 4, 5, 6], dice) == [] then 20 else 0
    case ThreeOfAKind => SumNOfAKind(dice, 3)
    case FourOfAKind => SumNOfAKind(dice, 4)
    case FullHouse => if Diff([2, 3], Values(CountValues(dice))) == [] then Sum(dice) else 0
  }
}
