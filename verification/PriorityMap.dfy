/** The map from rounded priority to VM id that orders the queue: one entry per
    distinct priority, visited from the greatest down. */
module PriorityMap {
  import opened StdMap

  ghost predicate Keyed(ids: seq<int>, key: map<int, real>) {
    forall i :: 0 <= i < |ids| ==> ids[i] in key
  }

  /** Insert the ids one after the other under their keys. */
  function InsertAll(ids: seq<int>, key: map<int, real>): map<real, int>
    requires forall i :: 0 <= i < |ids| ==> ids[i] in key
  {
    if ids == [] then map[] else
      var last := ids[|ids| - 1];
      Insert(InsertAll(ids[..|ids| - 1], key), key[last], last)
  }

  /** The ids in the order the map is traversed. */
  function InOrder(m: map<real, int>, keys: seq<real>): (q: seq<int>)
    requires forall i :: 0 <= i < |keys| ==> keys[i] in m
    ensures |q| == |keys| && forall i :: 0 <= i < |q| ==> q[i] == m[keys[i]]
  {
    if keys == [] then [] else [m[keys[0]]] + InOrder(m, keys[1..])
  }

  lemma TraversalKnown(m: map<real, int>)
    ensures forall i :: 0 <= i < |TraverseDown(m.Keys)| ==> TraverseDown(m.Keys)[i] in m
  {
    hide TraverseDown;
    forall i | 0 <= i < |TraverseDown(m.Keys)|
      ensures TraverseDown(m.Keys)[i] in m
    {
      assert TraverseDown(m.Keys)[i] in TraverseDown(m.Keys);
    }
  }

  function Published(m: map<real, int>): seq<int> {
    TraversalKnown(m);
    InOrder(m, TraverseDown(m.Keys))
  }

  // ----- what the map holds -----

  ghost predicate FirstAt(ids: seq<int>, key: map<int, real>, k: int, v: int)
    requires Keyed(ids, key) && v in key
  {
    0 <= k < |ids| && ids[k] == v && forall i :: 0 <= i < k ==> key[ids[i]] != key[v]
  }

  /** No id listed before `v` has its key; in an ascending list, `v` is the
      smallest id with its key. */
  ghost predicate FirstOfItsKey(ids: seq<int>, key: map<int, real>, v: int)
    requires Keyed(ids, key)
  {
    v in key && exists k :: FirstAt(ids, key, k, v)
  }

  lemma FirstIsSmallest(ids: seq<int>, key: map<int, real>, v: int)
    requires Ascending(ids) && Keyed(ids, key)
    ensures FirstOfItsKey(ids, key, v)
       <==> v in key && v in ids && forall i :: 0 <= i < |ids| && key[ids[i]] == key[v] ==> v <= ids[i]
  {
    if FirstOfItsKey(ids, key, v) {
      var k :| FirstAt(ids, key, k, v);
      assert ids[k] in ids;
    }
    if v in key && v in ids && forall i :: 0 <= i < |ids| && key[ids[i]] == key[v] ==> v <= ids[i] {
      var k :| 0 <= k < |ids| && ids[k] == v;
      assert FirstAt(ids, key, k, v);
    }
  }

  /** For each distinct priority the map holds exactly the first id with it. */
  lemma {:induction false} HoldsFirst(ids: seq<int>, key: map<int, real>)
    requires Keyed(ids, key)
    ensures var m := InsertAll(ids, key);
            && (forall p :: p in m ==> FirstOfItsKey(ids, key, m[p]) && key[m[p]] == p)
            && (forall i :: 0 <= i < |ids| ==> key[ids[i]] in m)
  {
    if ids != [] {
      var front, last := ids[..|ids| - 1], ids[|ids| - 1];
      HoldsFirst(front, key);
      var m, m' := InsertAll(front, key), InsertAll(ids, key);
      forall i | 0 <= i < |ids|
        ensures key[ids[i]] in m'
      {
        assert i < |front| ==> key[front[i]] in m;
      }
      forall p | p in m'
        ensures FirstOfItsKey(ids, key, m'[p]) && key[m'[p]] == p
      {
        if p in m {
          var k :| FirstAt(front, key, k, m[p]);
          assert FirstAt(ids, key, k, m[p]);
        } else {
          assert forall i :: 0 <= i < |front| ==> key[front[i]] in m;
          assert FirstAt(ids, key, |front|, last);
        }
      }
    }
  }

  lemma HeldIsKeyed(ids: seq<int>, key: map<int, real>, p: real)
    requires Keyed(ids, key) && p in InsertAll(ids, key)
    ensures InsertAll(ids, key)[p] in key
  {
    hide InsertAll;
    HoldsFirst(ids, key);
  }

  lemma FirstsAgree(ids: seq<int>, key: map<int, real>, u: int, v: int)
    requires Keyed(ids, key) && FirstOfItsKey(ids, key, u) && FirstOfItsKey(ids, key, v)
    requires key[u] == key[v]
    ensures u == v
  {
    var j :| FirstAt(ids, key, j, u);
    var k :| FirstAt(ids, key, k, v);
  }

  ghost predicate Injective(ids: seq<int>, key: map<int, real>)
    requires Keyed(ids, key)
  {
    forall i, j :: 0 <= i < j < |ids| ==> key[ids[i]] != key[ids[j]]
  }

  /** The queue is strictly descending in rounded priority and holds exactly the
      first id of each. */
  lemma QueueContents(ids: seq<int>, key: map<int, real>)
    requires Keyed(ids, key)
    ensures var q := Published(InsertAll(ids, key));
            && Keyed(q, key)
            && (forall i, j :: 0 <= i < j < |q| ==> key[q[i]] > key[q[j]])
            && (forall i :: 0 <= i < |q| ==> FirstOfItsKey(ids, key, q[i]))
  {
    hide TraverseDown, InsertAll, Published, FirstOfItsKey;
    var m := InsertAll(ids, key);
    var q := Published(m);
    SameLength(m);
    forall i | 0 <= i < |q|
      ensures q[i] in key && FirstOfItsKey(ids, key, q[i]) && key[q[i]] == TraverseDown(m.Keys)[i]
    {
      PublishedAt(ids, key, i);
    }
  }

  lemma SameLength(m: map<real, int>)
    ensures |Published(m)| == |TraverseDown(m.Keys)|
  {
  }

  lemma PublishedAt(ids: seq<int>, key: map<int, real>, i: nat)
    requires Keyed(ids, key) && i < |Published(InsertAll(ids, key))|
    ensures var m := InsertAll(ids, key);
            var v := Published(m)[i];
            v in key && FirstOfItsKey(ids, key, v) && i < |TraverseDown(m.Keys)| && key[v] == TraverseDown(m.Keys)[i]
  {
    hide TraverseDown, InsertAll;
    HoldsFirst(ids, key);
    TraversalKnown(InsertAll(ids, key));
    var p := TraverseDown(InsertAll(ids, key).Keys)[i];
    assert p in InsertAll(ids, key);
  }

  lemma FirstIsPublished(ids: seq<int>, key: map<int, real>, v: int) returns (i: nat)
    requires Keyed(ids, key) && FirstOfItsKey(ids, key, v)
    ensures i < |Published(InsertAll(ids, key))| && Published(InsertAll(ids, key))[i] == v
  {
    hide TraverseDown, InsertAll;
    var m := InsertAll(ids, key);
    HoldsFirst(ids, key);
    TraversalKnown(m);
    var k :| FirstAt(ids, key, k, v);
    var keys := TraverseDown(m.Keys);
    var p := key[ids[k]];
    assert p in m && FirstOfItsKey(ids, key, m[p]);
    FirstsAgree(ids, key, m[p], v);
    assert p in keys;
    i :| 0 <= i < |keys| && keys[i] == p;
  }

  /** The queue is a permutation of the pending ids exactly when their rounded
      priorities are pairwise distinct. */
  lemma PermutationIffInjective(ids: seq<int>, key: map<int, real>)
    requires Ascending(ids) && Keyed(ids, key)
    ensures multiset(Published(InsertAll(ids, key))) == multiset(ids) <==> Injective(ids, key)
  {
    hide InsertAll, Published;
    var q := Published(InsertAll(ids, key));
    QueueContents(ids, key);
    if multiset(q) == multiset(ids) {
      AllPublishedAreInjective(ids, key, q);
    }
    if Injective(ids, key) {
      SameMembers(ids, key, q);
      NoDuplicates(q);
      NoDuplicates(ids);
      assert forall v :: multiset(q)[v] == multiset(ids)[v];
    }
  }

  lemma AllPublishedAreInjective(ids: seq<int>, key: map<int, real>, q: seq<int>)
    requires Ascending(ids) && Keyed(ids, key)
    requires forall i :: 0 <= i < |q| ==> FirstOfItsKey(ids, key, q[i])
    requires multiset(q) == multiset(ids)
    ensures Injective(ids, key)
  {
    forall i, j | 0 <= i < j < |ids|
      ensures key[ids[i]] != key[ids[j]]
    {
      var v := ids[j];
      assert v in multiset(ids);
      assert v in multiset(q);
      var n :| 0 <= n < |q| && q[n] == v;
      var k :| FirstAt(ids, key, k, v);
      assert k == j;
    }
  }

  lemma SameMembers(ids: seq<int>, key: map<int, real>, q: seq<int>)
    requires Keyed(ids, key) && Injective(ids, key)
    requires q == Published(InsertAll(ids, key))
    requires forall i :: 0 <= i < |q| ==> FirstOfItsKey(ids, key, q[i])
    ensures forall v :: v in q <==> v in ids
  {
    hide InsertAll, Published;
    forall i | 0 <= i < |q|
      ensures q[i] in ids
    {
      var k :| FirstAt(ids, key, k, q[i]);
    }
    forall k | 0 <= k < |ids|
      ensures ids[k] in q
    {
      assert FirstAt(ids, key, k, ids[k]);
      var i := FirstIsPublished(ids, key, ids[k]);
    }
  }

  lemma {:induction false} NoDuplicates(s: seq<int>)
    requires forall i, j :: 0 <= i < j < |s| ==> s[i] != s[j]
    ensures forall v :: multiset(s)[v] == if v in s then 1 else 0
  {
    if s != [] {
      var front, last := s[..|s| - 1], s[|s| - 1];
      NoDuplicates(front);
      assert s == front + [last];
      assert last !in front;
    }
  }

  /** If `v` is older than `w` and its key is no smaller, then whenever `w` is
      published, `v` itself or an older VM with `v`'s key stands before it. */
  lemma OlderAndNoSmallerComesFirst(ids: seq<int>, key: map<int, real>, v: nat, w: nat, at: nat)
    requires Ascending(ids) && Keyed(ids, key)
    requires v < w < |ids| && key[ids[v]] >= key[ids[w]]
    requires at < |Published(InsertAll(ids, key))| && Published(InsertAll(ids, key))[at] == ids[w]
    ensures var q := Published(InsertAll(ids, key));
            exists i :: 0 <= i < at && q[i] in key && q[i] <= ids[v] && key[q[i]] == key[ids[v]]
  {
    hide InsertAll, Published;
    var q := Published(InsertAll(ids, key));
    QueueContents(ids, key);
    assert FirstOfItsKey(ids, key, q[at]);
    var k :| FirstAt(ids, key, k, ids[w]);
    assert k == w;
    var u := FirstWithKey(ids, key, v);
    var i := FirstIsPublished(ids, key, u);
    assert key[q[i]] > key[q[at]];
  }

  /** The first id that has the key of the `k`-th one. */
  lemma {:induction false} FirstWithKey(ids: seq<int>, key: map<int, real>, k: nat) returns (u: int)
    requires Ascending(ids) && Keyed(ids, key) && k < |ids|
    ensures FirstOfItsKey(ids, key, u) && u <= ids[k] && key[u] == key[ids[k]]
    decreases k
  {
    if i :| 0 <= i < k && key[ids[i]] == key[ids[k]] {
      u := FirstWithKey(ids, key, i);
    } else {
      u := ids[k];
      assert FirstAt(ids, key, k, u);
    }
  }
}
