/**
  The PHP array built-ins that the turn engine composes.

  A PHP array with integer keys is an ordered map: a list of key/value entries
  whose keys are distinct, kept in the order in which each key was first
  written. A list of values (what `array_values` gives, and what the value-only
  built-ins look at) is a `seq<int>`. Sequences are processed from the left, so
  every recursive definition here peels off the LAST element.
*/
module PhpArray {

  /** One slot of a PHP array: `$a[key] = value`. */
  datatype Entry = Entry(key: int, value: int)

  /** `array_keys($a)`, in array order. */
  function Keys(a: seq<Entry>): seq<int>
  {
    seq(|a|, i requires 0 <= i < |a| => a[i].key)
  }

  /** `array_values($a)`, in array order. */
  function Values(a: seq<Entry>): seq<int>
  {
    seq(|a|, i requires 0 <= i < |a| => a[i].value)
  }

  predicate NoDuplicates(s: seq<int>)
  {
    forall i, j :: 0 <= i < j < |s| ==> s[i] != s[j]
  }

  /** A PHP array never holds the same key twice. */
  predicate WellFormed(a: seq<Entry>)
  {
    NoDuplicates(Keys(a))
  }

  /** `array_sum` over a list of values. */
  function Sum(s: seq<int>): int
  {
    if s == [] then 0 else Sum(s[..|s| - 1]) + s[|s| - 1]
  }

  lemma SumSnoc(s: seq<int>, x: int)
    ensures Sum(s + [x]) == Sum(s) + x
  {
    assert (s + [x])[..|s|] == s;
  }

  /** Number of occurrences of `x` in `s`. */
  function Count(s: seq<int>, x: int): nat
  {
    if s == [] then 0 else Count(s[..|s| - 1], x) + (if s[|s| - 1] == x then 1 else 0)
  }

  lemma {:induction false} CountPositive(s: seq<int>, x: int)
    ensures Count(s, x) > 0 <==> x in s
  {
    if s != [] {
      CountPositive(s[..|s| - 1], x);
      assert s == s[..|s| - 1] + [s[|s| - 1]];
    }
  }

  lemma {:induction false} CountAppend(s: seq<int>, t: seq<int>, x: int)
    ensures Count(s + t, x) == Count(s, x) + Count(t, x)
  {
    if t != [] {
      assert (s + t)[..|s + t| - 1] == s + t[..|t| - 1];
      CountAppend(s, t[..|t| - 1], x);
    } else {
      assert s + t == s;
    }
  }

  /** The number of elements of `s` equal to some value of `vs`. */
  function CountAll(s: seq<int>, vs: seq<int>): nat
  {
    if vs == [] then 0 else CountAll(s, vs[..|vs| - 1]) + Count(s, vs[|vs| - 1])
  }

  lemma {:induction false} CountAllStep(s: seq<int>, x: int, vs: seq<int>)
    requires NoDuplicates(vs)
    ensures CountAll(s + [x], vs) == CountAll(s, vs) + (if x in vs then 1 else 0)
  {
    if vs != [] {
      var init, last := vs[..|vs| - 1], vs[|vs| - 1];
      assert vs == init + [last];
      CountAllStep(s, x, init);
      assert (s + [x])[..|s|] == s;
    }
  }

  /** Distinct values can account for no more elements than the list has. */
  lemma {:induction false} CountAllBounded(s: seq<int>, vs: seq<int>)
    requires NoDuplicates(vs)
    ensures CountAll(s, vs) <= |s|
  {
    if s != [] {
      var init := s[..|s| - 1];
      assert s == init + [s[|s| - 1]];
      CountAllBounded(init, vs);
      CountAllStep(init, s[|s| - 1], vs);
      assert CountAll(s, vs) == CountAll(init + [s[|s| - 1]], vs);
    } else {
      CountAllOfEmpty(vs);
    }
  }

  lemma {:induction false} CountAllOfEmpty(vs: seq<int>)
    ensures CountAll([], vs) == 0
  {
    if vs != [] {
      CountAllOfEmpty(vs[..|vs| - 1]);
    }
  }

  /** Every value of `vs` that occurs in `s` accounts for at least one element. */
  lemma {:induction false} CountAllPresent(s: seq<int>, vs: seq<int>)
    requires forall v :: v in vs ==> v in s
    ensures CountAll(s, vs) >= |vs|
  {
    if vs != [] {
      var init := vs[..|vs| - 1];
      assert forall v :: v in init ==> v in vs;
      CountAllPresent(s, init);
      CountPositive(s, vs[|vs| - 1]);
    }
  }

  /** Two distinct values account for at most the whole list. */
  lemma {:induction false} CountTwoBounded(s: seq<int>, f: int, g: int)
    requires f != g
    ensures Count(s, f) + Count(s, g) <= |s|
  {
    var vs := [f, g];
    CountAllBounded(s, vs);
    assert vs[..1] == [f] && [f][..0] == [];
  }

  /** Three distinct values account for at most the whole list. */
  lemma {:induction false} CountThreeBounded(s: seq<int>, f: int, g: int, x: int)
    requires f != g && g != x && f != x
    ensures Count(s, f) + Count(s, g) + Count(s, x) <= |s|
  {
    var vs := [f, g, x];
    CountAllBounded(s, vs);
    assert vs[..2] == [f, g] && [f, g][..1] == [f] && [f][..0] == [];
    assert CountAll(s, [f]) == Count(s, f);
    assert CountAll(s, [f, g]) == Count(s, f) + Count(s, g);
  }

  /** A list with nothing in it is empty. */
  lemma {:induction false} EmptyIfNothingIn(s: seq<int>)
    ensures (forall x :: x !in s) ==> s == []
  {
    if s != [] {
      var y := s[0];
      assert y in s;
    }
  }

  /** A list holds at least as many elements as it has distinct values. */
  lemma {:induction false} DistinctValuesBounded(s: seq<int>, vs: seq<int>)
    requires NoDuplicates(vs)
    requires forall v :: v in vs ==> v in s
    ensures |vs| <= |s|
  {
    CountAllPresent(s, vs);
    CountAllBounded(s, vs);
  }

  /** The first position holding `x`. */
  function FirstIndex<T(==)>(s: seq<T>, x: T): (i: nat)
    requires x in s
    ensures i < |s| && s[i] == x && x !in s[..i]
  {
    if s[0] == x then 0
    else
      var i := 1 + FirstIndex(s[1..], x);
      assert s[..i] == [s[0]] + s[1..][..i - 1];
      i
  }

  /** `array_unique`: the distinct values, each at its first occurrence. */
  function Unique(s: seq<int>): (r: seq<int>)
    ensures NoDuplicates(r)
    ensures forall x :: x in r <==> x in s
  {
    if s == [] then []
    else
      var init, last := s[..|s| - 1], s[|s| - 1];
      assert s == init + [last];
      var u := Unique(init);
      if last in u then u else u + [last]
  }

  /** Appending a value to a list appends it to `array_unique` exactly when it is new. */
  lemma UniqueSnoc(s: seq<int>, x: int)
    ensures Unique(s + [x]) == if x in s then Unique(s) else Unique(s) + [x]
  {
    assert (s + [x])[..|s|] == s;
  }

  /** A list showing one value throughout has that value as its only distinct one. */
  lemma {:induction false} UniqueOfConstant(s: seq<int>, v: int)
    requires s != [] && forall i :: 0 <= i < |s| ==> s[i] == v
    ensures Unique(s) == [v]
  {
    var init := s[..|s| - 1];
    if init != [] {
      UniqueOfConstant(init, v);
    }
  }

  /**
    `array_count_values`: each distinct value, in order of first occurrence,
    mapped to the number of times it occurs.
  */
  function CountValues(s: seq<int>): (r: seq<Entry>)
    ensures Keys(r) == Unique(s)
    ensures forall i :: 0 <= i < |r| ==> r[i].value == Count(s, r[i].key)
  {
    var u := Unique(s);
    seq(|u|, i requires 0 <= i < |u| => Entry(u[i], Count(s, u[i])))
  }

  /** `array_filter($s, $p)` over a list of values: the values `p` accepts, in order. */
  function FilterValues(s: seq<int>, p: int -> bool): (r: seq<int>)
    ensures forall x :: x in r <==> x in s && p(x)
    ensures forall x :: Count(r, x) == if p(x) then Count(s, x) else 0
  {
    if s == [] then []
    else
      var init, last := s[..|s| - 1], s[|s| - 1];
      assert s == init + [last];
      var f := FilterValues(init, p);
      forall x ensures Count(f + [last], x) == Count(f, x) + Count([last], x) {
        CountAppend(f, [last], x);
      }
      if p(last) then f + [last] else f
  }

  /**
    `array_filter($a, $p)` over an array: the entries whose value `p` accepts,
    with their keys, in order.
  */
  function FilterEntries(a: seq<Entry>, p: int -> bool): (r: seq<Entry>)
    ensures forall e :: e in r <==> e in a && p(e.value)
  {
    if a == [] then []
    else
      var init, last := a[..|a| - 1], a[|a| - 1];
      assert a == init + [last];
      if p(last.value) then FilterEntries(init, p) + [last] else FilterEntries(init, p)
  }

  /** Filtering keeps the first entry that passes in front. */
  lemma {:induction false} FilterEntriesFirst(a: seq<Entry>, p: int -> bool, k: int)
    requires 0 <= k < |a| && p(a[k].value)
    requires forall j :: 0 <= j < k ==> !p(a[j].value)
    ensures FilterEntries(a, p) != [] && FilterEntries(a, p)[0] == a[k]
  {
    var init := a[..|a| - 1];
    if k < |a| - 1 {
      FilterEntriesFirst(init, p, k);
    }
  }

  /** `array_diff($a, $b)`: the elements of `a` that do not occur in `b`, in order. */
  function Diff(a: seq<int>, b: seq<int>): (r: seq<int>)
    ensures forall x :: x in r <==> x in a && x !in b
  {
    if a == [] then []
    else
      var init, last := a[..|a| - 1], a[|a| - 1];
      assert a == init + [last];
      if last in b then Diff(init, b) else Diff(init, b) + [last]
  }

  /** Appending a value to the minuend appends it to `array_diff` exactly when the subtrahend lacks it. */
  lemma DiffSnoc(a: seq<int>, x: int, b: seq<int>)
    ensures Diff(a + [x], b) == if x in b then Diff(a, b) else Diff(a, b) + [x]
  {
    assert (a + [x])[..|a|] == a;
  }

  /** The distinct values of a prefix come first among those of the whole list. */
  lemma {:induction false} UniquePrefix(s: seq<int>, m: nat)
    requires m <= |s|
    ensures Unique(s[..m]) <= Unique(s)
  {
    if m < |s| {
      var init := s[..|s| - 1];
      assert s[..m] == init[..m];
      UniquePrefix(init, m);
    } else {
      assert s[..m] == s;
    }
  }

  /**
    The first occurrence of a value sits in `array_unique` right after the
    distinct values of what comes before it.
  */
  lemma {:induction false} UniqueFirstOccurrence(s: seq<int>, i: nat)
    requires i < |s| && s[i] !in s[..i]
    ensures Unique(s[..i]) + [s[i]] <= Unique(s)
  {
    assert s[..i + 1][..i] == s[..i];
    assert Unique(s[..i + 1]) == Unique(s[..i]) + [s[i]];
    UniquePrefix(s, i + 1);
  }

  /** Non-increasing order. */
  predicate Descending(s: seq<int>)
  {
    forall i, j :: 0 <= i < j < |s| ==> s[i] >= s[j]
  }

  /** Decreasing order, so also no value twice. */
  predicate StrictlyDescending(s: seq<int>)
  {
    forall i, j :: 0 <= i < j < |s| ==> s[i] > s[j]
  }

  /** Inserts `x` into a non-increasing list, before the first element not above it. */
  function Insert(x: int, s: seq<int>): (r: seq<int>)
    ensures |r| == |s| + 1
    ensures multiset(r) == multiset(s) + multiset{x}
  {
    if s == [] then [x]
    else if x >= s[0] then [x] + s
    else
      assert s == [s[0]] + s[1..];
      [s[0]] + Insert(x, s[1..])
  }

  /** A head at least every element of a non-increasing tail gives a non-increasing list. */
  lemma {:induction false} DescendingCons(h: int, t: seq<int>)
    requires Descending(t)
    requires forall y :: y in t ==> y <= h
    ensures Descending([h] + t)
  {
    var r := [h] + t;
    forall i, j | 0 <= i < j < |r| ensures r[i] >= r[j] {
      assert r[j] == t[j - 1] && t[j - 1] in t;
      if i > 0 { assert r[i] == t[i - 1]; }
    }
  }

  /** The same with strict bounds. */
  lemma {:induction false} StrictCons(h: int, t: seq<int>)
    requires StrictlyDescending(t)
    requires forall y :: y in t ==> y < h
    ensures StrictlyDescending([h] + t)
  {
    var r := [h] + t;
    forall i, j | 0 <= i < j < |r| ensures r[i] > r[j] {
      assert r[j] == t[j - 1] && t[j - 1] in t;
      if i > 0 { assert r[i] == t[i - 1]; }
    }
  }

  /** Inserting into a non-increasing list keeps it non-increasing. */
  lemma {:induction false} InsertDescending(x: int, s: seq<int>)
    requires Descending(s)
    ensures Descending(Insert(x, s))
  {
    if s == [] {
    } else if x >= s[0] {
      forall y | y in s ensures y <= x {
        var j :| 0 <= j < |s| && s[j] == y;
        assert s[0] >= s[j] || j == 0;
      }
      DescendingCons(x, s);
    } else {
      assert s == [s[0]] + s[1..];
      var t := Insert(x, s[1..]);
      InsertDescending(x, s[1..]);
      forall y | y in t ensures y <= s[0] {
        assert y in multiset(t);
        if y != x {
          assert y in multiset(s[1..]);
          var j :| 0 <= j < |s[1..]| && s[1..][j] == y;
          assert s[j + 1] == y;
        }
      }
      DescendingCons(s[0], t);
    }
  }

  /** Inserting a new value into a decreasing list keeps it decreasing. */
  lemma {:induction false} InsertStrict(x: int, s: seq<int>)
    requires StrictlyDescending(s) && x !in s
    ensures StrictlyDescending(Insert(x, s))
  {
    if s == [] {
    } else if x >= s[0] {
      forall y | y in s ensures y < x {
        var j :| 0 <= j < |s| && s[j] == y;
        assert s[0] > s[j] || j == 0;
      }
      StrictCons(x, s);
    } else {
      assert s == [s[0]] + s[1..];
      var t := Insert(x, s[1..]);
      InsertStrict(x, s[1..]);
      forall y | y in t ensures y < s[0] {
        assert y in multiset(t);
        if y != x {
          assert y in multiset(s[1..]);
          var j :| 0 <= j < |s[1..]| && s[1..][j] == y;
          assert s[j + 1] == y;
        }
      }
      StrictCons(s[0], t);
    }
  }

  /** `rsort`: the same elements in non-increasing order. */
  function RSort(s: seq<int>): (r: seq<int>)
    ensures |r| == |s|
    ensures multiset(r) == multiset(s)
    ensures Descending(r)
  {
    if s == [] then []
    else
      assert s == [s[0]] + s[1..];
      InsertDescending(s[0], RSort(s[1..]));
      Insert(s[0], RSort(s[1..]))
  }

  /** Sorting distinct values gives a decreasing list. */
  lemma {:induction false} RSortStrict(s: seq<int>)
    requires NoDuplicates(s)
    ensures StrictlyDescending(RSort(s))
  {
    if s != [] {
      assert s == [s[0]] + s[1..];
      RSortStrict(s[1..]);
      assert s[0] !in multiset(RSort(s[1..]));
      InsertStrict(s[0], RSort(s[1..]));
    }
  }
}
