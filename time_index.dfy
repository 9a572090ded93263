/** Timestamps as whole seconds, and Python's `sorted(set)` over them. */
module TimeIndex {

  /** A timestamp in seconds; only the order and hour arithmetic matter. */
  type Timestamp = int

  predicate StrictlyIncreasing(s: seq<Timestamp>) {
    forall i, j :: 0 <= i < j < |s| ==> s[i] < s[j]
  }

  predicate IsLeast(m: Timestamp, s: set<Timestamp>) {
    m in s && forall x :: x in s ==> m <= x
  }

  /** A non-empty finite set of timestamps has a least element. */
  lemma {:induction false} SetHasMin(s: set<Timestamp>)
    requires s != {}
    ensures exists m :: IsLeast(m, s)
    decreases |s|
  {
    if forall x :: x !in s {
      assert false;
    }
    var y :| y in s;
    if s == {y} {
      assert IsLeast(y, s);
    } else {
      var rest := s - {y};
      SetHasMin(rest);
      var m :| IsLeast(m, rest);
      assert forall x :: x in s ==> x == y || x in rest;
      if y < m {
        assert IsLeast(y, s);
      } else {
        assert IsLeast(m, s);
      }
    }
  }

  function SetMin(s: set<Timestamp>): (m: Timestamp)
    requires s != {}
    ensures m in s && forall x :: x in s ==> m <= x
  {
    SetHasMin(s);
    var m :| IsLeast(m, s);
    m
  }

  /** `sorted(s)`: the elements of the set in ascending order, each once. */
  function SortedSet(s: set<Timestamp>): (r: seq<Timestamp>)
    ensures StrictlyIncreasing(r)
    ensures forall x :: x in r <==> x in s
    ensures |r| == |s|
    decreases |s|
  {
    if s == {} then []
    else
      var m := SetMin(s);
      var rest := SortedSet(s - {m});
      assert forall x :: x in rest ==> m < x;
      [m] + rest
  }

  /** The head of a strictly increasing sequence is its least element, and the tail
      holds exactly the others. */
  lemma HeadAndTail(s: set<Timestamp>, r: seq<Timestamp>)
    requires StrictlyIncreasing(r) && r != []
    requires forall x :: x in r <==> x in s
    ensures IsLeast(r[0], s)
    ensures forall x :: x in r[1..] <==> x in s - {r[0]}
  {
    assert r[0] in r;
    forall x | x in s ensures r[0] <= x {
      var i :| 0 <= i < |r| && r[i] == x;
    }
    forall x ensures x in r[1..] <==> x in s - {r[0]} {
      if x in r[1..] {
        var i :| 0 <= i < |r| - 1 && r[1..][i] == x;
        assert r[i + 1] == x;
      }
      if x in s - {r[0]} {
        var i :| 0 <= i < |r| && r[i] == x;
        assert r[1..][i - 1] == x;
      }
    }
  }

  /** A strictly increasing sequence is determined by its elements: it is the sorted set. */
  lemma {:induction false} SortedSetUnique(s: set<Timestamp>, r: seq<Timestamp>)
    requires StrictlyIncreasing(r)
    requires forall x :: x in r <==> x in s
    ensures r == SortedSet(s)
    decreases |r|
  {
    if r == [] {
      if s != {} {
        assert false;
      }
    } else {
      HeadAndTail(s, r);
      var m := SetMin(s);
      assert m == r[0];
      SortedSetUnique(s - {m}, r[1..]);
      assert r == [m] + r[1..];
    }
  }
}
