/** The fifteen scoring categories a round's dice can be placed in. */
module Categories {

  datatype Category =
    | Chance | Yahtzee
    | Ones | Twos | Threes | Fours | Fives | Sixes
    | Pair | TwoPairs
    | ThreeOfAKind | FourOfAKind
    | SmallStraight | LargeStraight
    | FullHouse

  /** The place of a category in the order of declaration, from 0. */
  function Ordinal(c: Category): (i: nat)
    ensures i < 15
  {
    match c
    case Chance => 0
    case Yahtzee => 1
    case Ones => 2
    case Twos => 3
    case Threes => 4
    case Fours => 5
    case Fives => 6
    case Sixes => 7
    case Pair => 8
    case TwoPairs => 9
    case ThreeOfAKind => 10
    case FourOfAKind => 11
    case SmallStraight => 12
    case LargeStraight => 13
    case FullHouse => 14
  }

  /** The fifteen categories, each listed once, in the order they are declared. */
  function AllCategories(): (r: seq<Category>)
    ensures |r| == 15
    ensures forall c: Category :: r[Ordinal(c)] == c
    ensures forall i, j :: 0 <= i < j < |r| ==> r[i] != r[j]
  {
    [Chance, Yahtzee, Ones, Twos, Threes, Fours, Fives, Sixes, Pair, TwoPairs,
     ThreeOfAKind, FourOfAKind, SmallStraight, LargeStraight, FullHouse]
  }

  /** A face a die can show. */
  predicate IsFace(x: int)
  {
    1 <= x <= 6
  }

  /** The six categories that count a single face. */
  predicate IsUpper(c: Category)
  {
    c.Ones? || c.Twos? || c.Threes? || c.Fours? || c.Fives? || c.Sixes?
  }

  /** The face an upper category counts. */
  function Face(c: Category): (f: int)
    requires IsUpper(c)
    ensures IsFace(f)
  {
    match c
    case Ones => 1
    case Twos => 2
    case Threes => 3
    case Fours => 4
    case Fives => 5
    case Sixes => 6
  }
}
