/** `std::string` searching and editing, with `npos` arithmetic.

    A failed search returns `npos == 2^64 - 1`, so `npos + k` wraps around to
    `k - 1` and a negative difference of positions becomes a huge count.  Here a
    failed search is `None`, `Offset` carries the wrap-around, and a negative
    count stands for the huge one. */
module StdString {
  import opened Wrappers

  predicate OccursAt(s: string, t: string, i: int) {
    0 <= i && i + |t| <= |s| && s[i..i + |t|] == t
  }

  function FindFrom(s: string, t: string, i: nat): (r: Option<nat>)
    requires i <= |s|
    ensures r.Some? ==> i <= r.value && OccursAt(s, t, r.value)
    ensures r.Some? ==> forall j :: i <= j < r.value ==> !OccursAt(s, t, j)
    ensures r.None? ==> forall j :: i <= j ==> !OccursAt(s, t, j)
    decreases |s| - i
  {
    if OccursAt(s, t, i) then Some(i)
    else if i == |s| then None
    else FindFrom(s, t, i + 1)
  }

  /** `s.find(t)`: the first occurrence. */
  function Find(s: string, t: string): (r: Option<nat>)
    ensures r.Some? ==> OccursAt(s, t, r.value)
    ensures r.Some? ==> forall j :: j < r.value ==> !OccursAt(s, t, j)
    ensures r.None? ==> forall j :: !OccursAt(s, t, j)
  {
    FindFrom(s, t, 0)
  }

  predicate Contains(s: string, t: string) {
    Find(s, t).Some?
  }

  /** `find(...) + k` in `size_t`. */
  function Offset(p: Option<nat>, k: nat): nat
    requires k > 0
  {
    match p
    case Some(i) => i + k
    case None => k - 1
  }

  /** `s.erase(at, count)`; a wrapped-around count erases to the end. */
  function Erase(s: string, at: nat, count: int): Result<string> {
    if at > |s| then OutOfRange
    else if count < 0 || at + count > |s| then Ok(s[..at])
    else Ok(s[..at] + s[at + count..])
  }

  /** `s.insert(at, t)`. */
  function InsertAt(s: string, at: nat, t: string): Result<string> {
    if at > |s| then OutOfRange else Ok(s[..at] + t + s[at..])
  }

  // ----- markup tags -----

  /** A `<` followed by no further `<`. */
  ghost predicate IsTag(t: string) {
    |t| > 0 && t[0] == '<' && forall i :: 0 < i < |t| ==> t[i] != '<'
  }

  /** Two tags that start at different positions do not overlap. */
  lemma TagsDisjoint(s: string, t: string, i: int, u: string, j: int)
    requires IsTag(t) && IsTag(u)
    requires OccursAt(s, t, i) && OccursAt(s, u, j)
    requires i < j
    ensures i + |t| <= j
  {
    assert s[j..j + |u|][0] == s[j];
    forall k | 0 <= k < |t|
      ensures s[i + k] == t[k]
    {
      assert s[i..i + |t|][k] == s[i + k];
    }
    assert s[j] == '<';
  }

  /** Different texts do not start at the same position. */
  lemma StartsDiffer(s: string, t: string, u: string, i: int, k: nat)
    requires k < |t| && k < |u| && t[k] != u[k]
    requires OccursAt(s, t, i)
    ensures !OccursAt(s, u, i)
  {
    CharacterAt(s, t, i, k);
    if OccursAt(s, u, i) {
      CharacterAt(s, u, i, k);
    }
  }

  lemma CharacterAt(s: string, t: string, i: int, k: nat)
    requires k < |t| && OccursAt(s, t, i)
    ensures s[i + k] == t[k]
  {
    assert s[i..i + |t|][k] == s[i + k];
  }

  /** A tag starts at a `<`. */
  lemma TagStart(s: string, t: string, i: int)
    requires IsTag(t) && OccursAt(s, t, i)
    ensures s[i] == '<'
  {
    assert s[i..i + |t|][0] == s[i];
  }

  /** An occurrence is decided by the characters it covers. */
  lemma OccursInSlice(s: string, t: string, lo: nat, hi: nat, i: int)
    requires lo <= hi <= |s|
    requires 0 <= i && i + |t| <= hi - lo
    ensures OccursAt(s[lo..hi], t, i) <==> OccursAt(s, t, lo + i)
  {
    var a, b := s[lo..hi][i..i + |t|], s[lo + i..lo + i + |t|];
    assert |a| == |b|;
    assert forall k :: 0 <= k < |a| ==> a[k] == b[k];
  }

  /** The first occurrence is the only position that passes both tests. */
  lemma FoundAt(s: string, t: string, i: nat)
    requires OccursAt(s, t, i)
    requires forall j :: 0 <= j < i ==> !OccursAt(s, t, j)
    ensures Find(s, t) == Some(i)
  {
    assert Find(s, t).Some?;
  }
}
