/** The parts of `std::map` the daemon relies on: an `insert` that never
    overwrites, and traversal in key order. */
module StdMap {

  /** `std::map::insert`: a key that is already present keeps its value. */
  function Insert<K, V>(m: map<K, V>, k: K, v: V): map<K, V> {
    if k in m then m else m[k := v]
  }

  lemma AnyMember<T>(s: set<T>) returns (x: T)
    requires s != {}
    ensures x in s
  {
    x :| x in s;
  }

  // ----- ascending traversal, the default order -----

  ghost predicate Ascending(s: seq<int>) {
    forall i, j :: 0 <= i < j < |s| ==> s[i] < s[j]
  }

  lemma {:induction false} LeastExists(s: set<int>)
    requires s != {}
    ensures exists m :: m in s && forall x :: x in s ==> m <= x
  {
    var a := AnyMember(s);
    var rest := s - {a};
    if rest == {} {
      assert s == {a};
    } else {
      LeastExists(rest);
      var m :| m in rest && forall x :: x in rest ==> m <= x;
      var b := if a < m then a else m;
      forall x | x in s
        ensures b <= x
      {
        assert x == a || x in rest;
      }
      assert b in s;
    }
  }

  function Least(s: set<int>): (m: int)
    requires s != {}
    ensures m in s && forall x :: x in s ==> m <= x
  {
    LeastExists(s);
    var m :| m in s && forall x :: x in s ==> m <= x;
    m
  }

  /** The keys of a map in the order its iterator visits them. */
  function Traverse(s: set<int>): (r: seq<int>)
    ensures Ascending(r)
    ensures |r| == |s|
    ensures forall x :: x in r <==> x in s
  {
    if s == {} then [] else
      var m := Least(s);
      [m] + Traverse(s - {m})
  }

  /** An ascending listing is determined by the set it lists. */
  lemma {:induction false} AscendingUnique(a: seq<int>, b: seq<int>)
    requires Ascending(a) && Ascending(b) && |a| == |b|
    requires forall x :: x in a <==> x in b
    ensures a == b
  {
    if a != [] {
      var p, q := a[0], b[0];
      assert p in a && q in b;
      assert p in b && q in a;
      assert a[0] == b[0];
      forall x ensures x in a[1..] <==> x in b[1..] {
        if x in a[1..] {
          assert x in a && x != a[0];
          assert x in b;
        }
        if x in b[1..] {
          assert x in b && x != b[0];
          assert x in a;
        }
      }
      AscendingUnique(a[1..], b[1..]);
      assert a == [a[0]] + a[1..] && b == [b[0]] + b[1..];
    }
  }

  /** Ascending keys that fill a range are the range. */
  lemma {:induction false} AscendingRange(r: seq<int>, lo: int, hi: int)
    requires lo <= hi && Ascending(r)
    requires forall x :: x in r <==> lo <= x < hi
    ensures |r| == hi - lo
    ensures forall i :: 0 <= i < |r| ==> r[i] == lo + i
  {
    assert lo < hi ==> lo in r;
    if r != [] {
      assert r[0] in r && r[0] == lo;
      var rest := r[1..];
      forall x
        ensures x in rest <==> lo + 1 <= x < hi
      {
        assert x in r <==> x == lo || x in rest;
      }
      AscendingRange(rest, lo + 1, hi);
      assert r == [lo] + rest;
    }
  }

  // ----- descending traversal, the order `std::greater<float>` -----

  ghost predicate Descending(s: seq<real>) {
    forall i, j :: 0 <= i < j < |s| ==> s[i] > s[j]
  }

  lemma {:induction false} GreatestExists(s: set<real>)
    requires s != {}
    ensures exists m :: m in s && forall x :: x in s ==> x <= m
  {
    var a := AnyMember(s);
    var rest := s - {a};
    if rest == {} {
      assert s == {a};
    } else {
      GreatestExists(rest);
      var m :| m in rest && forall x :: x in rest ==> x <= m;
      var b := if a > m then a else m;
      forall x | x in s
        ensures x <= b
      {
        assert x == a || x in rest;
      }
      assert b in s;
    }
  }

  function Greatest(s: set<real>): (m: real)
    requires s != {}
    ensures m in s && forall x :: x in s ==> x <= m
  {
    GreatestExists(s);
    var m :| m in s && forall x :: x in s ==> x <= m;
    m
  }

  function TraverseDown(s: set<real>): (r: seq<real>)
    ensures Descending(r)
    ensures |r| == |s|
    ensures forall x :: x in r <==> x in s
  {
    if s == {} then [] else
      var m := Greatest(s);
      [m] + TraverseDown(s - {m})
  }

  // ----- sums over the values of a map -----

  /** Sum of `f` over a set of keys, in traversal order. */
  ghost function SumOver(s: set<int>, f: int -> real): real {
    if s == {} then 0.0 else
      var m := Least(s);
      f(m) + SumOver(s - {m}, f)
  }

  /** The order of summation is immaterial: any key can be split off first. */
  lemma {:induction false} SumSplit(s: set<int>, f: int -> real, x: int)
    requires x in s
    ensures SumOver(s, f) == f(x) + SumOver(s - {x}, f)
    decreases |s|
  {
    var m := Least(s);
    if m != x {
      SumSplit(s - {m}, f, x);
      assert m in s - {x};
      var l := Least(s - {x});
      assert l in s && m <= l <= m;
      assert s - {m} - {x} == s - {x} - {m};
    }
  }

  lemma {:induction false} SumCongruence(s: set<int>, f: int -> real, g: int -> real)
    requires forall x :: x in s ==> f(x) == g(x)
    ensures SumOver(s, f) == SumOver(s, g)
  {
    if s != {} {
      SumCongruence(s - {Least(s)}, f, g);
    }
  }
}
