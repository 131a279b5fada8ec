/** Historical usage: the accounting pool and the cumulative usage windows
    (`AcctPool.cc`). */
module Accounting {
  import opened Users
  import StdMap

  // ----- what a usage figure means -----

  datatype Resource = Cpu | Memory

  /** One accounting entry.  `stop == 0` means that the VM is still running;
      `children` counts the child elements of its XML node. */
  datatype Record = Record(uid: int, cpu: real, memory: int, start: int, stop: int, children: nat)
  {
    function Load(what: Resource): real {
      if what.Cpu? then cpu else memory as real
    }

    predicate RunningAt(t: int) {
      start <= t && (stop == 0 || t < stop)
    }
  }

  /** The load of all records that run during second `t`. */
  ghost function LoadAt(rs: seq<Record>, what: Resource, t: int): real {
    if rs == [] then 0.0
    else LoadAt(rs[..|rs| - 1], what, t)
         + if rs[|rs| - 1].RunningAt(t) then rs[|rs| - 1].Load(what) else 0.0
  }

  /** Second by second, the load over `[lo, hi)`. */
  ghost function WindowUsage(rs: seq<Record>, what: Resource, lo: int, hi: int): real
    decreases hi - lo
  {
    if hi <= lo then 0.0 else WindowUsage(rs, what, lo, hi - 1) + LoadAt(rs, what, hi - 1)
  }

  /** Windows that share an end point add up. */
  lemma {:induction false} WindowsAdd(rs: seq<Record>, what: Resource, lo: int, mid: int, hi: int)
    requires lo <= mid <= hi
    ensures WindowUsage(rs, what, lo, hi) == WindowUsage(rs, what, lo, mid) + WindowUsage(rs, what, mid, hi)
    decreases hi - mid
  {
    if mid < hi {
      WindowsAdd(rs, what, lo, mid, hi - 1);
    }
  }

  lemma {:induction false} NoRecords(what: Resource, lo: int, hi: int)
    ensures WindowUsage([], what, lo, hi) == 0.0
    decreases hi - lo
  {
    if lo < hi {
      NoRecords(what, lo, hi - 1);
    }
  }

  ghost predicate NonNegative(rs: seq<Record>, what: Resource) {
    forall r :: r in rs ==> r.Load(what) >= 0.0
  }

  lemma {:induction false} LoadNonNegative(rs: seq<Record>, what: Resource, t: int)
    requires NonNegative(rs, what)
    ensures LoadAt(rs, what, t) >= 0.0
  {
    if rs != [] {
      assert rs[|rs| - 1] in rs;
      LoadNonNegative(rs[..|rs| - 1], what, t);
    }
  }

  lemma {:induction false} WindowNonNegative(rs: seq<Record>, what: Resource, lo: int, hi: int)
    requires NonNegative(rs, what)
    ensures WindowUsage(rs, what, lo, hi) >= 0.0
    decreases hi - lo
  {
    if lo < hi {
      LoadNonNegative(rs, what, hi - 1);
      WindowNonNegative(rs, what, lo, hi - 1);
    }
  }

  // ----- the closed form the loops use -----

  /** Seconds of `[lo, hi)` that the clamped interval of `r` covers. */
  function Overlap(r: Record, lo: int, hi: int): nat {
    var stop := if r.stop == 0 || r.stop > hi then hi else r.stop;
    var start := if r.start < lo then lo else r.start;
    if start < stop then stop - start else 0
  }

  /** `load` spent over `n` seconds, one second at a time. */
  ghost function Spent(load: real, n: nat): real {
    if n == 0 then 0.0 else Spent(load, n - 1) + load
  }

  lemma {:induction false} SpentIsProduct(load: real, n: nat)
    ensures Spent(load, n) == load * n as real
  {
    if n > 0 {
      SpentIsProduct(load, n - 1);
      assert load * ((n - 1) as real + 1.0) == load * (n - 1) as real + load;
    }
  }

  /** Widening the window by one second covers it exactly if `r` runs then. */
  lemma OverlapStep(r: Record, lo: int, hi: int)
    requires lo < hi
    ensures Overlap(r, lo, hi) == Overlap(r, lo, hi - 1) + if r.RunningAt(hi - 1) then 1 else 0
  {
  }

  /** Clamping adds exactly what `r` contributes second by second. */
  lemma {:induction false} ClampedIntervalCounts(rs: seq<Record>, r: Record, what: Resource, lo: int, hi: int)
    ensures WindowUsage(rs + [r], what, lo, hi)
         == WindowUsage(rs, what, lo, hi) + Spent(r.Load(what), Overlap(r, lo, hi))
    decreases hi - lo
  {
    if lo < hi {
      ClampedIntervalCounts(rs, r, what, lo, hi - 1);
      OverlapStep(r, lo, hi);
      assert (rs + [r])[..|rs + [r]| - 1] == rs;
    }
  }

  /** `(int64_t)` applied to a double: truncation toward zero. */
  function Truncate(x: real): int {
    if x >= 0.0 then x.Floor else -((-x).Floor)
  }

  /** The windows of one evaluation: number `k` is `[timeStart, timeStop - k * period)`. */
  datatype Span = Span(timeStart: int, timeStop: int, period: int)
  {
    function StopOf(k: int): int {
      timeStop - k * period
    }
  }

  ghost function Cumulative(rs: seq<Record>, what: Resource, span: Span, k: int): real {
    WindowUsage(rs, what, span.timeStart, span.StopOf(k))
  }

  /** The entries stored for one user: the usage over each window, truncated. */
  ghost function Entries(rs: seq<Record>, what: Resource, span: Span, n: int): map<int, Usage> {
    map k | 0 <= k < n :: Usage(Truncate(Cumulative(rs, what, span, k)), span.timeStart, span.timeStop)
  }

  lemma NoEntries(rs: seq<Record>, span: Span)
    ensures forall what, n :: n <= 0 ==> Entries(rs, what, span, n) == map[]
  {
  }

  lemma NextEntry(rs: seq<Record>, what: Resource, span: Span, k: nat)
    ensures k !in Entries(rs, what, span, k)
    ensures Entries(rs, what, span, k + 1)
         == Entries(rs, what, span, k)[k := Usage(Truncate(Cumulative(rs, what, span, k)), span.timeStart, span.timeStop)]
  {
    hide Truncate, Cumulative;
  }

  lemma NextCumulative(rs: seq<Record>, r: Record, what: Resource, span: Span, k: int)
    ensures Cumulative(rs + [r], what, span, k)
         == Cumulative(rs, what, span, k) + Spent(r.Load(what), Overlap(r, span.timeStart, span.StopOf(k)))
  {
    ClampedIntervalCounts(rs, r, what, span.timeStart, span.StopOf(k));
  }

  ghost predicate SumsFor(sums: array<real>, rs: seq<Record>, what: Resource, span: Span, from: int, to: int)
    requires 0 <= from && to <= sums.Length
    reads sums
  {
    forall k :: from <= k < to ==> sums[k] == Cumulative(rs, what, span, k)
  }

  // ----- the pool -----

  /** The answer to `one.vmpool.accounting`. */
  datatype AcctFetch = Unreachable | Refused(message: string) | Answer(records: seq<Record>)

  function RecordsOfUid(rs: seq<Record>, uid: int): (own: seq<Record>)
    ensures forall r :: r in own <==> r in rs && r.uid == uid
  {
    if rs == [] then [] else
      (if rs[0].uid == uid then [rs[0]] else []) + RecordsOfUid(rs[1..], uid)
  }

  /** A node with fewer than two children is not a valid entry. */
  predicate AllWellFormed(rs: seq<Record>) {
    forall r :: r in rs ==> r.children >= 2
  }

  /** The records the pool holds for `uid` after a refresh: none when the fetch
      failed or when one of the user's entries is malformed. */
  function Accepted(fetch: AcctFetch, uid: int): (own: seq<Record>)
    ensures forall r :: r in own ==> fetch.Answer? && r in fetch.records && r.uid == uid
  {
    if !fetch.Answer? then [] else
      var own := RecordsOfUid(fetch.records, uid);
      if AllWellFormed(own) then own else []
  }

  /** The load a user's records in an answer put on second `t`. */
  ghost function UserLoadAt(rs: seq<Record>, uid: int, what: Resource, t: int): real {
    if rs == [] then 0.0 else
      var r := rs[0];
      (if r.uid == uid && r.start <= t && (r.stop == 0 || t < r.stop)
       then (if what.Cpu? then r.cpu else r.memory as real) else 0.0)
      + UserLoadAt(rs[1..], uid, what, t)
  }

  /** Second by second, the load of all the user's records over `[lo, hi)`. */
  ghost function UserUsage(rs: seq<Record>, uid: int, what: Resource, lo: int, hi: int): real
    decreases hi - lo
  {
    if hi <= lo then 0.0 else UserUsage(rs, uid, what, lo, hi - 1) + UserLoadAt(rs, uid, what, hi - 1)
  }

  /** Every entry of the user is complete. */
  ghost predicate UserWellFormed(rs: seq<Record>, uid: int) {
    forall i :: 0 <= i < |rs| && rs[i].uid == uid ==> rs[i].children >= 2
  }

  lemma {:induction false} LoadFront(rs: seq<Record>, what: Resource, t: int)
    requires rs != []
    ensures LoadAt(rs, what, t)
         == (if rs[0].RunningAt(t) then rs[0].Load(what) else 0.0) + LoadAt(rs[1..], what, t)
  {
    if |rs| > 1 {
      var front := rs[..|rs| - 1];
      LoadFront(front, what, t);
      assert front[1..] == rs[1..][..|rs| - 2];
    }
  }

  lemma {:induction false} OwnLoad(rs: seq<Record>, uid: int, what: Resource, t: int)
    ensures LoadAt(RecordsOfUid(rs, uid), what, t) == UserLoadAt(rs, uid, what, t)
  {
    if rs != [] {
      OwnLoad(rs[1..], uid, what, t);
      if rs[0].uid == uid {
        LoadFront(RecordsOfUid(rs, uid), what, t);
        assert RecordsOfUid(rs, uid)[1..] == RecordsOfUid(rs[1..], uid);
      } else {
        assert RecordsOfUid(rs, uid) == RecordsOfUid(rs[1..], uid);
      }
    }
  }

  lemma {:induction false} OwnUsage(rs: seq<Record>, uid: int, what: Resource, lo: int, hi: int)
    ensures WindowUsage(RecordsOfUid(rs, uid), what, lo, hi) == UserUsage(rs, uid, what, lo, hi)
    decreases hi - lo
  {
    if lo < hi {
      OwnUsage(rs, uid, what, lo, hi - 1);
      OwnLoad(rs, uid, what, hi - 1);
    }
  }

  /** What the pool accepts for a user amounts to all of the user's records in the
      answer, each as often as it is listed; a failed fetch or one malformed
      entry of the user leaves nothing. */
  lemma AcceptedUsage(fetch: AcctFetch, uid: int, what: Resource, lo: int, hi: int)
    ensures WindowUsage(Accepted(fetch, uid), what, lo, hi)
         == if fetch.Answer? && UserWellFormed(fetch.records, uid) then UserUsage(fetch.records, uid, what, lo, hi) else 0.0
  {
    hide RecordsOfUid;
    NoRecords(what, lo, hi);
    if fetch.Answer? {
      OwnUsage(fetch.records, uid, what, lo, hi);
      WellFormedIff(fetch.records, uid);
    }
  }

  lemma WellFormedIff(rs: seq<Record>, uid: int)
    ensures AllWellFormed(RecordsOfUid(rs, uid)) <==> UserWellFormed(rs, uid)
  {
    hide RecordsOfUid;
    if AllWellFormed(RecordsOfUid(rs, uid)) {
      forall i | 0 <= i < |rs| && rs[i].uid == uid
        ensures rs[i].children >= 2
      {
        assert rs[i] in RecordsOfUid(rs, uid);
      }
    }
    if UserWellFormed(rs, uid) {
      forall r | r in RecordsOfUid(rs, uid)
        ensures r.children >= 2
      {
        var i :| 0 <= i < |rs| && rs[i] == r;
      }
    }
  }

  lemma {:induction false} OwnRecords(rs: seq<Record>, uid: int)
    ensures forall r :: multiset(RecordsOfUid(rs, uid))[r] == if r.uid == uid then multiset(rs)[r] else 0
  {
    if rs != [] {
      OwnRecords(rs[1..], uid);
      assert rs == [rs[0]] + rs[1..];
    }
  }

  /** A list of the user's records in an answer, each as often as it is there; none
      if the fetch failed or one of them is malformed. */
  ghost predicate HoldsOwn(own: seq<Record>, fetch: AcctFetch, uid: int) {
    if fetch.Answer? && UserWellFormed(fetch.records, uid)
    then forall r :: multiset(own)[r] == if r.uid == uid then multiset(fetch.records)[r] else 0
    else own == []
  }

  lemma AcceptedIsOwn(fetch: AcctFetch)
    ensures forall uid :: HoldsOwn(Accepted(fetch, uid), fetch, uid)
  {
    hide RecordsOfUid, AllWellFormed;
    forall uid
      ensures HoldsOwn(Accepted(fetch, uid), fetch, uid)
    {
      if fetch.Answer? {
        OwnRecords(fetch.records, uid);
        WellFormedIff(fetch.records, uid);
      }
    }
  }

  function Lookup(objects: map<int, seq<Record>>, uid: int): seq<Record> {
    if uid in objects then objects[uid] else []
  }

  class AcctPool {
    var objects: map<int, seq<Record>>

    constructor ()
      ensures objects == map[]
    {
      objects := map[];
    }

    function Get(uid: int): seq<Record>
      reads this
    {
      Lookup(objects, uid)
    }

    method Flush()
      modifies this
      ensures objects == map[]
    {
      objects := map[];
    }

    method MakeUserObject(uid: int, nodes: seq<Record>)
      modifies this
      ensures objects == if AllWellFormed(nodes) then StdMap.Insert(old(objects), uid, nodes) else old(objects)
    {
      var list: seq<Record> := [];
      for i := 0 to |nodes|
        invariant list == nodes[..i]
        invariant forall j :: 0 <= j < i ==> nodes[j].children >= 2
        invariant objects == old(objects)
      {
        if nodes[i].children < 2 {
          assert nodes[i] in nodes;
          return;
        }
        list := list + [nodes[i]];
      }
      assert list == nodes;
      objects := StdMap.Insert(objects, uid, list);
    }

    /** Flushed before the fetch, so a failure leaves the pool empty. */
    method SetUp(uids: seq<int>, fetch: AcctFetch) returns (rc: int)
      modifies this
      ensures rc == if fetch.Answer? then 0 else -1
      ensures forall uid :: Get(uid) == if uid in uids then Accepted(fetch, uid) else []
      ensures forall uid :: uid in uids ==> HoldsOwn(Get(uid), fetch, uid)
    {
      hide HoldsOwn;
      AcceptedIsOwn(fetch);
      Flush();
      if fetch.Unreachable? || fetch.Refused? {
        return -1;
      }
      for i := 0 to |uids|
        invariant forall uid :: uid in objects ==> uid in uids[..i]
        invariant forall uid :: Get(uid) == if uid in uids[..i] then Accepted(fetch, uid) else []
      {
        var uid := uids[i];
        var nodes := RecordsOfUid(fetch.records, uid);
        assert uids[..i + 1] == uids[..i] + [uid];
        if |nodes| != 0 {
          MakeUserObject(uid, nodes);
        }
      }
      assert uids[..|uids|] == uids;
      rc := 0;
    }

    /** Each user gets, per window, the second-by-second sum of what its
        records used there.  The sums live in arrays of four cells. */
    method EvalUsage(users: seq<User>, span: Span, numPeriods: int) returns (rc: int)
      requires numPeriods <= 3
      requires forall i, j :: 0 <= i < j < |users| ==> users[i] != users[j]
      modifies users
      ensures rc == 0
      ensures Views(users) == Evaluated(old(Views(users)), objects, span, numPeriods + 1)
    {
      hide *;
      var n := numPeriods + 1;
      ghost var was := Views(users);
      for i := 0 to |users|
        invariant forall j :: 0 <= j < i ==> users[j].View() == EvaluatedOne(was[j], objects, span, n)
        invariant forall j :: i <= j < |users| ==> users[j].View() == was[j]
      {
        EvalUser(users[i], span, n);
      }
      rc := 0;
    }

    method EvalUser(user: User, span: Span, n: int)
      requires n <= 4
      modifies user
      ensures user.View() == EvaluatedOne(old(user.View()), objects, span, n)
    {
      var acct := Get(user.userID);
      var sumCpu, sumMem := new real[4], new real[4];
      var k := 0;
      while k < n
        invariant k == 0 || k <= n
        invariant forall j :: 0 <= j < k ==> sumCpu[j] == 0.0 && sumMem[j] == 0.0
        invariant user.View() == old(user.View())
      {
        sumCpu[k], sumMem[k] := 0.0, 0.0;
        k := k + 1;
      }
      forall j | 0 <= j < n
        ensures Cumulative([], Cpu, span, j) == 0.0 && Cumulative([], Memory, span, j) == 0.0
      {
        NoRecords(Cpu, span.timeStart, span.StopOf(j));
        NoRecords(Memory, span.timeStart, span.StopOf(j));
      }
      for i := 0 to |acct|
        invariant SumsFor(sumCpu, acct[..i], Cpu, span, 0, n)
        invariant SumsFor(sumMem, acct[..i], Memory, span, 0, n)
        invariant user.View() == old(user.View())
      {
        AddRecord(acct[..i], acct[i], sumCpu, sumMem, span, n);
        assert acct[..i + 1] == acct[..i] + [acct[i]];
      }
      assert acct[..|acct|] == acct;
      StoreUsage(user, acct, sumCpu, sumMem, span, n);
    }

    /** The loop over periods for one accounting entry. */
    static method AddRecord(ghost done: seq<Record>, r: Record, sumCpu: array<real>, sumMem: array<real>,
                            span: Span, n: int)
      requires n <= 4 == sumCpu.Length == sumMem.Length && sumCpu != sumMem
      requires SumsFor(sumCpu, done, Cpu, span, 0, n) && SumsFor(sumMem, done, Memory, span, 0, n)
      modifies sumCpu, sumMem
      ensures SumsFor(sumCpu, done + [r], Cpu, span, 0, n)
      ensures SumsFor(sumMem, done + [r], Memory, span, 0, n)
    {
      var k := 0;
      while k < n
        invariant 0 <= k && (k == 0 || k <= n)
        invariant SumsFor(sumCpu, done + [r], Cpu, span, 0, k) && SumsFor(sumCpu, done, Cpu, span, k, n)
        invariant SumsFor(sumMem, done + [r], Memory, span, 0, k) && SumsFor(sumMem, done, Memory, span, k, n)
      {
        var stop := span.StopOf(k);
        NextCumulative(done, r, Cpu, span, k);
        NextCumulative(done, r, Memory, span, k);
        AddOverlap(sumCpu, k, r.cpu, r, span.timeStart, stop);
        AddOverlap(sumMem, k, r.memory as real, r, span.timeStart, stop);
        k := k + 1;
      }
    }

    /** Clamp the record to `[timeStart, stop)` and add its load to one window. */
    static method AddOverlap(sums: array<real>, k: nat, load: real, r: Record, timeStart: int, stop: int)
      requires k < sums.Length
      modifies sums
      ensures sums[k] == old(sums[k]) + Spent(load, Overlap(r, timeStart, stop))
      ensures forall j :: 0 <= j < sums.Length && j != k ==> sums[j] == old(sums[j])
    {
      var stopEntry, startEntry := r.stop, r.start;
      if stopEntry == 0 || stopEntry > stop {
        stopEntry := stop;
      }
      if startEntry < timeStart {
        startEntry := timeStart;
      }
      if startEntry < stopEntry {
        SpentIsProduct(load, stopEntry - startEntry);
        sums[k] := sums[k] + load * (stopEntry - startEntry) as real;
      }
    }

    /** Flush the user's figures, then insert the new ones. */
    static method StoreUsage(user: User, ghost acct: seq<Record>, sumCpu: array<real>, sumMem: array<real>,
                             span: Span, n: int)
      requires n <= 4 == sumCpu.Length == sumMem.Length
      requires SumsFor(sumCpu, acct, Cpu, span, 0, n) && SumsFor(sumMem, acct, Memory, span, 0, n)
      modifies user`cpuUsage, user`memoryUsage
      ensures user.cpuUsage == Entries(acct, Cpu, span, n)
      ensures user.memoryUsage == Entries(acct, Memory, span, n)
    {
      hide Entries, Cumulative, Truncate;
      user.FlushUsage();
      NoEntries(acct, span);
      var k := 0;
      while k < n
        invariant 0 <= k && (k == 0 || k <= n)
        invariant user.cpuUsage == Entries(acct, Cpu, span, k)
        invariant user.memoryUsage == Entries(acct, Memory, span, k)
      {
        NextEntry(acct, Cpu, span, k);
        NextEntry(acct, Memory, span, k);
        user.SetCpuUsage(k, Usage(Truncate(sumCpu[k]), span.timeStart, span.timeStop));
        user.SetMemoryUsage(k, Usage(Truncate(sumMem[k]), span.timeStart, span.timeStop));
        k := k + 1;
      }
    }
  }

  /** What an evaluation makes of one user's account. */
  ghost function EvaluatedOne(a: Account, objects: map<int, seq<Record>>, span: Span, n: int): Account {
    a.(cpu := Entries(Lookup(objects, a.uid), Cpu, span, n),
       memory := Entries(Lookup(objects, a.uid), Memory, span, n))
  }

  ghost function Evaluated(was: seq<Account>, objects: map<int, seq<Record>>, span: Span, n: int)
    : (r: seq<Account>)
    ensures |r| == |was|
    ensures forall i :: 0 <= i < |was| ==> r[i] == EvaluatedOne(was[i], objects, span, n)
  {
    if was == [] then [] else [EvaluatedOne(was[0], objects, span, n)] + Evaluated(was[1..], objects, span, n)
  }
}
