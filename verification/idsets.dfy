/**
  Sets of witness identifiers: the dense range `{0, ..., n-1}`, the least
  and greatest element of a non-empty set (what a `BTreeSet` yields first
  and last), and the fact behind the density check of
  `make_trivial_witness`: a set whose greatest element is its size minus
  one is exactly the range below its size.
 */
module IdSets {

  /** `{0, ..., n-1}`. */
  function IdRange(n: nat): (r: set<nat>)
    ensures forall x: nat :: x in r <==> x < n
    ensures |r| == n
  {
    if n == 0 then {} else IdRange(n - 1) + {n - 1}
  }

  lemma {:induction false} SubsetSize(a: set<nat>, b: set<nat>)
    requires a <= b
    ensures |a| <= |b|
    decreases a
  {
    if a != {} {
      var x :| x in a;
      SubsetSize(a - {x}, b - {x});
    }
  }

  /** `m` is an element of `s` no smaller than any other. */
  predicate IsMax(s: set<nat>, m: nat) {
    m in s && forall x :: x in s ==> x <= m
  }

  /** `m` is an element of `s` no greater than any other. */
  predicate IsMin(s: set<nat>, m: nat) {
    m in s && forall x :: x in s ==> m <= x
  }

  lemma {:induction false} MaxExists(s: set<nat>)
    requires s != {}
    ensures exists m :: IsMax(s, m)
    decreases s
  {
    var y :| y in s;
    if s == {y} {
      assert IsMax(s, y);
    } else {
      MaxExists(s - {y});
      var m :| IsMax(s - {y}, m);
      var top := if y > m then y else m;
      forall x | x in s ensures x <= top {
        if x != y { assert x in s - {y}; }
      }
      assert IsMax(s, top);
    }
  }

  lemma {:induction false} MinExists(s: set<nat>)
    requires s != {}
    ensures exists m :: IsMin(s, m)
    decreases s
  {
    var y :| y in s;
    if s == {y} {
      assert IsMin(s, y);
    } else {
      MinExists(s - {y});
      var m :| IsMin(s - {y}, m);
      var bottom := if y < m then y else m;
      forall x | x in s ensures bottom <= x {
        if x != y { assert x in s - {y}; }
      }
      assert IsMin(s, bottom);
    }
  }

  /** The greatest identifier of a non-empty set. */
  function SetMax(s: set<nat>): (m: nat)
    requires s != {}
    ensures m in s
    ensures forall x :: x in s ==> x <= m
  {
    MaxExists(s);
    var m :| IsMax(s, m);
    m
  }

  /** The least identifier of a non-empty set. */
  function SetMin(s: set<nat>): (m: nat)
    requires s != {}
    ensures m in s
    ensures forall x :: x in s ==> m <= x
  {
    MinExists(s);
    var m :| IsMin(s, m);
    m
  }

  /** A non-empty set is the dense range below its size exactly when its greatest element is its size minus one. */
  lemma {:induction false} DenseIffMaxIsSizeMinusOne(s: set<nat>)
    requires s != {}
    ensures SetMax(s) == |s| - 1 <==> s == IdRange(|s|)
  {
    var m := SetMax(s);
    if m == |s| - 1 {
      assert s <= IdRange(|s|);
      if s != IdRange(|s|) {
        var x :| x in IdRange(|s|) && x !in s;
        SubsetSize(s, IdRange(|s|) - {x});
      }
    }
    if s == IdRange(|s|) {
      assert |s| - 1 in s;
    }
  }
}
