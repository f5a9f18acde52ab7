/**
  What one call of `roll(positions)` does to the dice array: each listed
  position, in the order listed, is written with the die roller's next face.

  The dice array is a PHP array from position to face. It is held as two
  parts: `order`, its keys in the order each was first written, and `faces`,
  the face each key holds. Writing a key that is already present changes its
  face and keeps its place; writing a new key appends it.
*/
module Rolling {
  import opened PhpArray
  import opened Categories

  /** A die roller only ever shows a face from 1 to 6. */
  ghost predicate RollerFaces(roller: nat -> int)
  {
    forall k: nat :: IsFace(roller(k))
  }

  /** `order` lists each key of `faces` exactly once. */
  predicate WellFormedDice(order: seq<int>, faces: map<int, int>)
  {
    && NoDuplicates(order)
    && (forall i :: 0 <= i < |order| ==> order[i] in faces)
    && (forall k :: k in faces ==> k in order)
  }

  /** Every die that has been rolled shows a face from 1 to 6. */
  predicate FacesOnly(faces: map<int, int>)
  {
    forall k :: k in faces ==> IsFace(faces[k])
  }

  /** The dice array as a list of entries in key order: what `roll` returns. */
  function DiceArray(order: seq<int>, faces: map<int, int>): (r: seq<Entry>)
    requires forall i :: 0 <= i < |order| ==> order[i] in faces
    ensures |r| == |order|
    ensures forall i :: 0 <= i < |order| ==> r[i] == Entry(order[i], faces[order[i]])
  {
    if order == [] then []
    else
      var n := |order| - 1;
      DiceArray(order[..n], faces) + [Entry(order[n], faces[order[n]])]
  }

  /** The array's keys are the positions in order, so well-formed dice make a well-formed PHP array. */
  lemma DiceArrayKeys(order: seq<int>, faces: map<int, int>)
    requires forall i :: 0 <= i < |order| ==> order[i] in faces
    ensures Keys(DiceArray(order, faces)) == order
    ensures NoDuplicates(order) ==> WellFormed(DiceArray(order, faces))
  {
  }

  /** The last position of `k` in `s`. */
  function LastIndex(s: seq<int>, k: int): (i: nat)
    requires k in s
    ensures i < |s| && s[i] == k
  {
    if s[|s| - 1] == k then |s| - 1 else LastIndex(s[..|s| - 1], k)
  }

  lemma {:induction false} LastIndexInit(s: seq<int>, k: int)
    requires k in s && s[|s| - 1] != k
    ensures k in s[..|s| - 1] && LastIndex(s, k) == LastIndex(s[..|s| - 1], k)
  {
    var j :| 0 <= j < |s| && s[j] == k;
    assert j < |s| - 1;
    assert s[..|s| - 1][j] == k;
  }

  /** No later position of `s` holds `k`. */
  lemma {:induction false} LastIndexIsLast(s: seq<int>, k: int)
    requires k in s
    ensures forall j :: LastIndex(s, k) < j < |s| ==> s[j] != k
  {
    if s[|s| - 1] != k {
      LastIndexInit(s, k);
      LastIndexIsLast(s[..|s| - 1], k);
    }
  }

  /** The key order after writing each listed position in turn. */
  function RolledOrder(order: seq<int>, positions: seq<int>): seq<int>
  {
    if positions == [] then order
    else
      var n := |positions| - 1;
      var o := RolledOrder(order, positions[..n]);
      if positions[n] in o then o else o + [positions[n]]
  }

  /**
    The faces after `roll(positions)` whose draws start at the roller's
    `from`-th face: each listed position in turn takes the next face.
  */
  function RolledFaces(faces: map<int, int>, positions: seq<int>, roller: nat -> int, from: nat): map<int, int>
  {
    if positions == [] then faces
    else
      var n := |positions| - 1;
      RolledFaces(faces, positions[..n], roller, from)[positions[n] := roller(from + n)]
  }

  /** Writing one more listed position, as the loop of `roll` does. */
  lemma RolledSnoc(order: seq<int>, faces: map<int, int>, positions: seq<int>, k: int, roller: nat -> int, from: nat)
    ensures RolledOrder(order, positions + [k]) ==
      var o := RolledOrder(order, positions); if k in o then o else o + [k]
    ensures RolledFaces(faces, positions + [k], roller, from) ==
      RolledFaces(faces, positions, roller, from)[k := roller(from + |positions|)]
  {
    assert (positions + [k])[..|positions|] == positions;
  }

  /** A position left out of the roll is held: it shows what it showed before, or stays absent. */
  lemma {:induction false} RolledHeld(faces: map<int, int>, positions: seq<int>, roller: nat -> int, from: nat, k: int)
    requires k !in positions
    ensures k in RolledFaces(faces, positions, roller, from) <==> k in faces
    ensures k in faces ==> RolledFaces(faces, positions, roller, from)[k] == faces[k]
  {
    if positions != [] {
      var n := |positions| - 1;
      assert k !in positions[..n];
      RolledHeld(faces, positions[..n], roller, from, k);
    }
  }

  /**
    A listed position shows the face drawn for its last listing: a position
    listed twice takes a face from the roller each time and keeps the later one.
  */
  lemma {:induction false} RolledDrawn(faces: map<int, int>, positions: seq<int>, roller: nat -> int, from: nat, k: int)
    requires k in positions
    ensures k in RolledFaces(faces, positions, roller, from)
    ensures RolledFaces(faces, positions, roller, from)[k] == roller(from + LastIndex(positions, k))
  {
    var n := |positions| - 1;
    if positions[n] != k {
      LastIndexInit(positions, k);
      RolledDrawn(faces, positions[..n], roller, from, k);
    }
  }

  /** Positions new to the round join the array after the old ones, in order of first listing. */
  lemma {:induction false} RolledOrderFirstListing(order: seq<int>, positions: seq<int>)
    ensures RolledOrder(order, positions) == order + Diff(Unique(positions), order)
  {
    if positions == [] {
      assert order + [] == order;
    } else {
      var n := |positions| - 1;
      var before := positions[..n];
      assert positions == before + [positions[n]];
      RolledOrderFirstListing(order, before);
      RolledOrderStep(order, before, positions[n], RolledOrder(order, before));
    }
  }

  /** How one more listed position extends the key order. */
  lemma {:induction false} RolledOrderStep(order: seq<int>, before: seq<int>, k: int, keys: seq<int>)
    requires keys == order + Diff(Unique(before), order)
    ensures (if k in keys then keys else keys + [k]) == order + Diff(Unique(before + [k]), order)
  {
    var u := Unique(before);
    UniqueSnoc(before, k);
    if k in before {
      assert k in u;
      assert k in order || k in Diff(u, order);
      assert k in keys;
    } else {
      DiffSnoc(u, k, order);
      if k in order {
        assert k in keys;
      } else {
        assert k !in Diff(u, order);
        assert k !in keys;
        AppendAssoc(order, Diff(u, order), [k]);
      }
    }
  }

  lemma AppendAssoc(a: seq<int>, b: seq<int>, c: seq<int>)
    ensures (a + b) + c == a + (b + c)
  {
  }

  /**
    Rolling keeps the dice array well formed (its key order lists exactly the
    written positions, each once) and, with a real die roller, every face in 1..6.
  */
  lemma {:induction false} RolledValid(order: seq<int>, faces: map<int, int>, positions: seq<int>, roller: nat -> int, from: nat)
    requires WellFormedDice(order, faces) && FacesOnly(faces) && RollerFaces(roller)
    ensures WellFormedDice(RolledOrder(order, positions), RolledFaces(faces, positions, roller, from))
    ensures FacesOnly(RolledFaces(faces, positions, roller, from))
  {
    if positions != [] {
      var n := |positions| - 1;
      RolledValid(order, faces, positions[..n], roller, from);
      var o := RolledOrder(order, positions[..n]);
      if positions[n] !in o {
        var r := o + [positions[n]];
        forall i, j | 0 <= i < j < |r| ensures r[i] != r[j] {
          if j < |o| { assert r[i] == o[i] && r[j] == o[j]; }
        }
      }
    }
  }
}
