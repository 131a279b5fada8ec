/** Concrete cycles in which the queue is not what fair share aims at.  Two users
    hold half of the shares each; the records run through the last second of the
    accounting span. */
module FailingCycles {
  import opened Accounting
  import opened FairShare
  import opened Fairness
  import opened Overtaking
  import opened Pool
  import opened QueueFairness
  import opened Scheduling
  import opened Users
  import opened Wrappers
  import PriorityMap
  import StdMap

  const FIRST := Account(0, 0, 0.5, 10, map[], map[])
  const SECOND := Account(1, 0, 0.5, 10, map[], map[])

  /** Three periods of one second. */
  function Setup(a: Arithmetic): Config {
    Config(1, 1, 3, true, a, x => "0")
  }

  function Used(uid: int, cpu: nat): (r: Record)
    ensures r.uid == uid && r.cpu == cpu as real
  {
    Record(uid, cpu as real, 0, 3, 0, 2)
  }

  function PendingVM(oid: int, uid: int): VM {
    VM(oid, uid, 0, 1, 0, 0, -1, 0, 0, 1.0, 0, "<VM><USER_TEMPLATE></USER_TEMPLATE></VM>", 2)
  }

  /** VM 1 of user `uid` and VM `w` of the other user are pending at second 4. */
  function Cycle(records: seq<Record>, uid: int, w: int): CycleInput {
    CycleInput(Fetch.Snapshot([PendingVM(1, uid), PendingVM(w, 1 - uid)]), Answer(records), 4)
  }

  /** Both users used cpu: the first one second, the second `n`. */
  function Busy(n: nat, w: int): CycleInput {
    Cycle([Used(0, 1), Used(1, n)], 1, w)
  }

  /** Only the first user used cpu. */
  function OneIdle(w: int): CycleInput {
    Cycle([Used(0, 1)], 0, w)
  }

  // ----- what the cycles hold -----

  lemma PoolOfCycle(records: seq<Record>, uid: int, w: int)
    requires w > 1
    ensures PoolOf(Cycle(records, uid, w)) == map[1 := PendingVM(1, uid), w := PendingVM(w, 1 - uid)]
  {
    var vms := [PendingVM(1, uid), PendingVM(w, 1 - uid)];
    var pool := Gather(Pending, vms);
    assert vms[0] in vms && vms[1] in vms;
    assert Enters(Pending, vms[0]) && Enters(Pending, vms[1]);
  }

  lemma Owners(accounts: seq<Account>)
    requires |accounts| == 2 && accounts[0].uid == 0 && accounts[1].uid == 1
    ensures Owner(accounts, 0) == Some(accounts[0]) && Owner(accounts, 1) == Some(accounts[1])
  {
    var front := accounts[..1];
    assert Owner(front[..0], 0) == None;
    assert Owner(front, 0) == Some(accounts[0]);
  }

  lemma CycleIsRegular(a: Arithmetic, records: seq<Record>, uid: int, w: int)
    requires a.Sound() && w > 1 && 0 <= uid <= 1
    requires forall i :: 0 <= i < |records| ==> records[i].cpu >= 0.0
    ensures RegularCycle(Setup(a), [FIRST, SECOND], Cycle(records, uid, w))
  {
    hide Owner, PoolOf, a.HalvingPow, a.BinaryFloat;
    PoolOfCycle(records, uid, w);
    Owners([FIRST, SECOND]);
  }

  lemma LastSecond(uid: int, cpu: nat, hi: int)
    requires 1 <= hi <= 4
    ensures WindowUsage([Used(uid, cpu)], Cpu, 0, hi) == if hi == 4 then cpu as real else 0.0
  {
    hide WindowUsage, Spent;
    var r := Used(uid, cpu);
    assert [] + [r] == [r];
    ClampedIntervalCounts([], r, Cpu, 0, hi);
    NoRecords(Cpu, 0, hi);
    assert Overlap(r, 0, hi) == if hi == 4 then 1 else 0;
    SpentIsProduct(r.cpu, Overlap(r, 0, hi));
  }

  /** Figures of `cpu` seconds, all in the last second of the span. */
  ghost predicate LastOnly(usage: map<int, Usage>, cpu: nat) {
    HasFour(usage) && Row(usage) == [cpu, 0, 0, 0] && DecayedUsage(usage) == cpu as real
  }

  lemma FourFigures(usage: map<int, Usage>, cpu: nat)
    requires forall k :: k in usage <==> 0 <= k < 4
    requires usage[0].usage == cpu && usage[1].usage == usage[2].usage == usage[3].usage == 0
    ensures LastOnly(usage, cpu)
  {
    hide Row;
    RowOfFour(usage);
  }

  lemma EntryAt(rs: seq<Record>, k: int)
    requires 0 <= k < 4
    ensures var usage := Entries(rs, Cpu, SpanAt(4, 1, 1, 3), 4);
            (forall j :: j in usage <==> 0 <= j < 4) && usage[k].usage == Truncate(WindowUsage(rs, Cpu, 0, 4 - k))
  {
    hide WindowUsage, Truncate;
  }

  lemma TruncateWhole(n: nat)
    ensures Truncate(n as real) == n
  {
  }

  lemma Figures(rs: seq<Record>, cpu: nat)
    requires WindowUsage(rs, Cpu, 0, 4) == cpu as real
    requires WindowUsage(rs, Cpu, 0, 3) == WindowUsage(rs, Cpu, 0, 2) == WindowUsage(rs, Cpu, 0, 1) == 0.0
    ensures LastOnly(Entries(rs, Cpu, SpanAt(4, 1, 1, 3), 4), cpu)
  {
    hide WindowUsage, LastOnly, Entries, Truncate, HasFour;
    TruncateWhole(cpu);
    TruncateWhole(0);
    EntryAt(rs, 0);
    EntryAt(rs, 1);
    EntryAt(rs, 2);
    EntryAt(rs, 3);
    FourFigures(Entries(rs, Cpu, SpanAt(4, 1, 1, 3), 4), cpu);
  }

  lemma OneRecord(uid: int, cpu: nat)
    ensures LastOnly(Entries([Used(uid, cpu)], Cpu, SpanAt(4, 1, 1, 3), 4), cpu)
  {
    hide WindowUsage, LastOnly, Used, Entries;
    LastSecond(uid, cpu, 4);
    LastSecond(uid, cpu, 3);
    LastSecond(uid, cpu, 2);
    LastSecond(uid, cpu, 1);
    Figures([Used(uid, cpu)], cpu);
  }

  lemma NoRecord()
    ensures LastOnly(Entries([], Cpu, SpanAt(4, 1, 1, 3), 4), 0)
  {
    hide WindowUsage, LastOnly, Entries;
    NoRecords(Cpu, 0, 4);
    NoRecords(Cpu, 0, 3);
    NoRecords(Cpu, 0, 2);
    NoRecords(Cpu, 0, 1);
    Figures([], 0);
  }

  /** What the two users' figures make of the totals and of usage per share. */
  lemma MeasuredCycle(a: Arithmetic, records: seq<Record>, uid: int, w: int, c: nat, d: nat)
    requires a.Sound() && w > 1 && 0 <= uid <= 1
    requires forall i :: 0 <= i < |records| ==> records[i].cpu >= 0.0
    requires Accepted(Answer(records), 0) == [Used(0, c)]
    requires Accepted(Answer(records), 1) == [Used(1, d)] || (d == 0 && Accepted(Answer(records), 1) == [])
    ensures var input := Cycle(records, uid, w);
            var now := AccountsOf(Setup(a), [FIRST, SECOND], input);
            && RegularCycle(Setup(a), [FIRST, SECOND], input)
            && CpuRows(now) == [[c, 0, 0, 0], [d, 0, 0, 0]]
            && LastOnly(now[0].cpu, c) && LastOnly(now[1].cpu, d)
            && now[0].uid == 0 && now[1].uid == 1 && now[0].share == 0.5 && now[1].share == 0.5
  {
    hide Entries, LastOnly, Row, RegularCycle, Accepted, Used, PoolOf;
    CycleIsRegular(a, records, uid, w);
    OneRecord(0, c);
    OneRecord(1, d);
    NoRecord();
    var now := AccountsOf(Setup(a), [FIRST, SECOND], Cycle(records, uid, w));
    assert LastOnly(now[0].cpu, c) && LastOnly(now[1].cpu, d);
    RowsOf(now, c, d);
  }

  lemma RowsOf(now: seq<Account>, c: nat, d: nat)
    requires |now| == 2 && LastOnly(now[0].cpu, c) && LastOnly(now[1].cpu, d)
    ensures CpuRows(now) == [[c, 0, 0, 0], [d, 0, 0, 0]]
  {
    hide Row;
  }

  /** Divided by the kept total of one second, each user's usage per share is twice its usage. */
  lemma ExponentsOf(a: Arithmetic, records: seq<Record>, uid: int, w: int, d: nat, v: int)
    requires a.Sound() && w > 1 && 0 <= uid <= 1 && (v == 1 || v == w)
    requires forall i :: 0 <= i < |records| ==> records[i].cpu >= 0.0
    requires Accepted(Answer(records), 0) == [Used(0, 1)]
    requires Accepted(Answer(records), 1) == [Used(1, d)] || (d == 0 && Accepted(Answer(records), 1) == [])
    ensures var input, uidOfV := Cycle(records, uid, w), if v == 1 then uid else 1 - uid;
            && RegularCycle(Setup(a), [FIRST, SECOND], input) && v in PoolOf(input)
            && ExponentIn(Kept, Setup(a), [FIRST, SECOND], input, v) == if uidOfV == 0 then 2.0 else 2.0 * d as real
  {
    hide AccountsOf, RegularCycle, Accepted, Used, PoolOf, Gather, Refreshed, DecayedUsage, Row, DecayedTotal,
         KeptTotals, CpuRows, Owner, Quotient;
    var input, config := Cycle(records, uid, w), Setup(a);
    MeasuredCycle(a, records, uid, w, 1, d);
    PoolOfCycle(records, uid, w);
    var now := AccountsOf(config, [FIRST, SECOND], input);
    AccountCount(config, [FIRST, SECOND], input);
    Owners(now);
    CycleReady(Kept, config, [FIRST, SECOND], input);
    KeptTotalIsFirstUser(CpuRows(now));
    HalfShare(now[0].cpu, KeptTotals(CpuRows(now)), 1);
    HalfShare(now[1].cpu, KeptTotals(CpuRows(now)), d);
  }

  lemma HalfShare(usage: map<int, Usage>, totals: map<int, int>, d: nat)
    requires HasFour(usage) && HasFourTotals(totals) && DecayedTotal(totals) == 1.0 && DecayedUsage(usage) == d as real
    ensures Quotient(usage, totals, 0.5) == 2.0 * d as real
  {
    hide DecayedUsage, DecayedTotal;
  }

  lemma FirstRecord(r: Record, rest: seq<Record>, uid: int)
    ensures RecordsOfUid([r] + rest, uid) == (if r.uid == uid then [r] else []) + RecordsOfUid(rest, uid)
  {
    assert ([r] + rest)[1..] == rest;
  }

  lemma LastRecord(r: Record, uid: int)
    ensures RecordsOfUid([r], uid) == if r.uid == uid then [r] else []
  {
    assert [r] == [r] + [];
    FirstRecord(r, [], uid);
  }

  lemma WellFormedRecord(uid: int, cpu: nat)
    ensures AllWellFormed([Used(uid, cpu)])
  {
  }

  lemma BusyRecords(n: nat)
    ensures Accepted(Answer([Used(0, 1), Used(1, n)]), 0) == [Used(0, 1)]
    ensures Accepted(Answer([Used(0, 1), Used(1, n)]), 1) == [Used(1, n)]
  {
    hide AllWellFormed, Used, RecordsOfUid;
    var r, s := Used(0, 1), Used(1, n);
    WellFormedRecord(0, 1);
    WellFormedRecord(1, n);
    LastRecord(s, 0);
    LastRecord(s, 1);
    FirstRecord(r, [s], 0);
    FirstRecord(r, [s], 1);
    assert [r] + [s] == [r, s] && [r] + [] == [r] && [] + [s] == [s];
  }

  lemma IdleRecords()
    ensures Accepted(Answer([Used(0, 1)]), 0) == [Used(0, 1)]
    ensures Accepted(Answer([Used(0, 1)]), 1) == []
  {
    hide AllWellFormed, Used, RecordsOfUid;
    WellFormedRecord(0, 1);
    LastRecord(Used(0, 1), 0);
    LastRecord(Used(0, 1), 1);
    NoneIsWellFormed();
  }

  lemma NoneIsWellFormed()
    ensures AllWellFormed([])
  {
  }

  // ----- the lost running sum -----

  /** The total of a cycle misses the second user altogether, and that user's
      ratio to it is any natural number. */
  lemma TotalMissesSecondUser(a: Arithmetic, n: nat, w: int)
    requires a.Sound() && w > 1
    ensures RegularCycle(Setup(a), [FIRST, SECOND], Busy(n, w))
    ensures var now := AccountsOf(Setup(a), [FIRST, SECOND], Busy(n, w));
            var kept := TotalsOf(Setup(a), [FIRST, SECOND], Busy(n, w));
            && |now| == 2 && HasFour(now[1].cpu) && HasFourTotals(kept)
            && DecayedTotal(kept) == 1.0
            && DecayedTotal(TrueTotals(CpuRows(now))) == 1.0 + n as real
            && Ratio(DecayedUsage(now[1].cpu), DecayedTotal(kept)) == n as real
  {
    hide AccountsOf, RegularCycle, Accepted, Used, DecayedUsage, Row, DecayedTotal, KeptTotals, TrueTotals, CpuRows;
    BusyRecords(n);
    MeasuredCycle(a, [Used(0, 1), Used(1, n)], 1, w, 1, n);
    var now := AccountsOf(Setup(a), [FIRST, SECOND], Busy(n, w));
    AccountCount(Setup(a), [FIRST, SECOND], Busy(n, w));
    KeptTotalIsFirstUser(CpuRows(now));
    DecayIsLinear(CpuRows(now));
    BothUsers(n);
  }

  lemma BothUsers(n: nat)
    ensures AllRegular([[1, 0, 0, 0], [n, 0, 0, 0]])
    ensures TotalDecayed([[1, 0, 0, 0], [n, 0, 0, 0]]) == 1.0 + n as real
  {
    var rows := [[1, 0, 0, 0], [n, 0, 0, 0]];
    TotalStep(rows);
    assert rows[1..] == [[n, 0, 0, 0]];
    TotalStep(rows[1..]);
  }

  // ----- overtaking without bound -----

  lemma {:induction false} UnitsOfUsage(a: Arithmetic, v: int, q: real, k: nat)
    requires a.Sound() && v > 0
    ensures Score(a, v, q + k as real) == Score(a, Doubled(v, k), q)
    decreases k
  {
    hide Score, a.HalvingPow, a.BinaryFloat;
    if k > 0 {
      UnitsOfUsage(a, v, q + 1.0, k - 1);
      UnitOfUsageDoublesId(a, Doubled(v, k - 1), q);
    }
  }

  lemma ScoreOfDoubled(a: Arithmetic, v: int, q: real)
    requires a.Sound() && v > 0
    ensures Score(a, v, q) == 2.0 * Score(a, 2 * v, q) > 0.0
  {
    hide Factor;
    HalfFactor(a, v);
    FactorAntitone(a, 2 * v, 2 * v);
    TwiceTheProduct(a.pow(q), Factor(a, v), Factor(a, 2 * v));
  }

  lemma TwiceTheProduct(p: real, f: real, g: real)
    requires p > 0.0 && g > 0.0 && f == 2.0 * g
    ensures p * f * 1000000000000.0 == 2.0 * (p * g * 1000000000000.0)
    ensures p * g > 0.0
  {
    assert p * (2.0 * g) == 2.0 * (p * g);
  }

  lemma {:induction false} DoublingOutgrows(w: nat)
    requires w >= 2
    ensures Doubled(1, 2 * w - 2) >= 2 * w
  {
    if w > 2 {
      DoublingOutgrows(w - 1);
      assert Doubled(1, 2 * w - 2) == 2 * Doubled(1, 2 * w - 3) == 4 * Doubled(1, 2 * w - 4);
    } else {
      assert Doubled(1, 2) == 2 * Doubled(1, 1) == 4 * Doubled(1, 0);
    }
  }

  /** However much younger `w` is, twice `w` units of usage per share set VM 1 back behind it. */
  lemma SetBackBehind(a: Arithmetic, w: nat)
    requires a.Sound() && w >= 2
    ensures Score(a, 1, 2.0 * w as real) < Score(a, w, 2.0)
  {
    hide Score, Doubled, a.HalvingPow, a.BinaryFloat;
    UnitsOfUsage(a, 1, 2.0, 2 * w - 2);
    DoublingOutgrows(w);
    ScoreOfDoubled(a, w, 2.0);
    OlderNeverRanksLower(a, 2 * w, Doubled(1, 2 * w - 2), 2.0);
    assert 2.0 + (2 * w - 2) as real == 2.0 * w as real;
  }

  /** A cycle in which VM 1, whose owner has half of the shares, is outranked by VM
      `w`, whatever `w` is; with the sums this could not happen from 4 on. */
  lemma KeptTotalsOvertakeFromAfar(a: Arithmetic, w: nat)
    requires a.Sound() && w >= 2
    ensures RegularCycle(Setup(a), [FIRST, SECOND], Busy(w, w)) && 1 in PoolOf(Busy(w, w))
    ensures w in Overtakers(PoolOf(Busy(w, w)), KeysOf(Setup(a), [FIRST, SECOND], Busy(w, w)), 1)
    ensures Moderate(Summed, Setup(a), [FIRST, SECOND], Busy(w, w), 1, 2.0) && Covers(a, 2.0, 4.0)
    ensures w >= 4 ==> w !in Overtakers(PoolOf(Busy(w, w)), KeysIn(Summed, Setup(a), [FIRST, SECOND], Busy(w, w)), 1)
  {
    hide RegularCycle, Accepted, Used, PoolOf, Score, ExponentIn, KeysIn, KeysOf, OwnerUsage, FirstUserUsage, Owner,
         a.HalvingPow, a.BinaryFloat;
    var config, input := Setup(a), Busy(w, w);
    BusyRecords(w);
    ExponentsOf(a, [Used(0, 1), Used(1, w)], 1, w, w, 1);
    ExponentsOf(a, [Used(0, 1), Used(1, w)], 1, w, w, w);
    KeyInCycle(Kept, config, [FIRST, SECOND], input, 1);
    KeyInCycle(Kept, config, [FIRST, SECOND], input, w);
    SetBackBehind(a, w);
    PoolOfCycle([Used(0, 1), Used(1, w)], 1, w);
    Owners([FIRST, SECOND]);
    CycleOwner(config, [FIRST, SECOND], input, 1);
    CoversFour(a);
    OvertakersInRange(Summed, config, [FIRST, SECOND], input, 1, 2.0, 4.0);
  }

  lemma CoversFour(a: Arithmetic)
    ensures Covers(a, 2.0, 4.0)
  {
    assert TwoTo(2) == 2 * TwoTo(1) == 4 * TwoTo(0);
    assert 2.0 <= 2 as real && 4.0 == TwoTo(2) as real;
  }

  /** Starvation: over such cycles VM 1 is outranked by every one of any number of
      younger VMs, while with the sums at most three VMs ever outrank it. */
  lemma KeptTotalsStarve(a: Arithmetic, n: nat)
    requires a.Sound()
    ensures var config, inputs := Setup(a), seq(n, i requires 0 <= i < n => Busy(i + 2, i + 2));
            && RegularRun(config, [FIRST, SECOND], inputs)
            && (forall i :: 0 <= i < n ==> 1 in PoolOf(inputs[i]))
            && (forall w :: 2 <= w < n + 2 ==> w in EverOvertaking(Kept, config, [FIRST, SECOND], inputs, 1))
            && |EverOvertaking(Summed, config, [FIRST, SECOND], inputs, 1)| <= 3
  {
    hide RegularCycle, PoolOf, KeysIn, KeysOf, Moderate, Covers, Busy, Overtakers, a.HalvingPow, a.BinaryFloat;
    var config, inputs := Setup(a), seq(n, i requires 0 <= i < n => Busy(i + 2, i + 2));
    CoversFour(a);
    forall i | 0 <= i < n
      ensures RegularCycle(config, [FIRST, SECOND], inputs[i]) && 1 in PoolOf(inputs[i])
      ensures Moderate(Summed, config, [FIRST, SECOND], inputs[i], 1, 2.0)
      ensures i + 2 in Overtakers(PoolOf(inputs[i]), KeysIn(Kept, config, [FIRST, SECOND], inputs[i]), 1)
    {
      KeptTotalsOvertakeFromAfar(a, i + 2);
    }
    forall w | 2 <= w < n + 2
      ensures w in EverOvertaking(Kept, config, [FIRST, SECOND], inputs, 1)
    {
      var i := w - 2;
      assert w in Overtakers(PoolOf(inputs[i]), KeysIn(Kept, config, [FIRST, SECOND], inputs[i]), 1);
    }
    NoStarvation(Summed, config, [FIRST, SECOND], inputs, 1, 2.0, 4.0);
  }

  // ----- a dropped VM -----

  /** The idle user's VM 4 shares its rounded priority with VM 1 and is not
      published, whether numbers are rounded or exact. */
  lemma IdleUserDropped(a: Arithmetic)
    requires a.Sound()
    ensures RegularCycle(Setup(a), [FIRST, SECOND], OneIdle(4))
    ensures var pool := PoolOf(OneIdle(4));
            4 in pool && PublishedIds(pool, KeysOf(Setup(a), [FIRST, SECOND], OneIdle(4))) == [1]
  {
    hide RegularCycle, Accepted, Used, PoolOf, Score, ExponentIn, KeysIn, KeysOf, PublishedIds, Owner,
         a.HalvingPow, a.BinaryFloat;
    var config, input := Setup(a), OneIdle(4);
    IdleRecords();
    ExponentsOf(a, [Used(0, 1)], 0, 4, 0, 1);
    ExponentsOf(a, [Used(0, 1)], 0, 4, 0, 4);
    KeyInCycle(Kept, config, [FIRST, SECOND], input, 1);
    KeyInCycle(Kept, config, [FIRST, SECOND], input, 4);
    UnitsOfUsage(a, 1, 0.0, 2);
    assert Doubled(1, 2) == 2 * Doubled(1, 1) == 4 * Doubled(1, 0);
    PoolOfCycle([Used(0, 1)], 0, 4);
    OnlyOldestOfEqual(PoolOf(input), KeysIn(Kept, config, [FIRST, SECOND], input), 4);
  }

  lemma YoungerIsNotFirst(ids: seq<int>, key: map<int, real>, v: int, w: int)
    requires StdMap.Ascending(ids) && PriorityMap.Keyed(ids, key)
    requires v in ids && v < w && v in key && w in key && key[v] == key[w]
    ensures !PriorityMap.FirstOfItsKey(ids, key, w)
  {
    hide PriorityMap.FirstOfItsKey;
    PriorityMap.FirstIsSmallest(ids, key, w);
    var k :| 0 <= k < |ids| && ids[k] == v;
  }

  lemma OldestIsFirst(ids: seq<int>, key: map<int, real>, v: int)
    requires StdMap.Ascending(ids) && PriorityMap.Keyed(ids, key)
    requires v in ids && v in key && forall i :: 0 <= i < |ids| ==> v <= ids[i]
    ensures PriorityMap.FirstOfItsKey(ids, key, v)
  {
    hide PriorityMap.FirstOfItsKey;
    PriorityMap.FirstIsSmallest(ids, key, v);
  }

  lemma TopTwo(q: seq<int>, key: map<int, real>)
    requires PriorityMap.Keyed(q, key) && forall i, j :: 0 <= i < j < |q| ==> key[q[i]] > key[q[j]]
    ensures |q| > 1 ==> key[q[0]] > key[q[1]]
  {
  }

  lemma OnlyOldestOfEqual(pool: map<int, VM>, key: map<int, real>, w: int)
    requires key.Keys == pool.Keys == {1, w} && w > 1 && key[1] == key[w]
    ensures PublishedIds(pool, key) == [1]
  {
    hide PriorityMap.Published, StdMap.Traverse, PriorityMap.FirstOfItsKey, PriorityMap.InsertAll, StdMap.Ascending;
    KeysListed(pool);
    TraversalAscending(pool);
    var ids, q := StdMap.Traverse(pool.Keys), PublishedIds(pool, key);
    PriorityMap.QueueContents(ids, key);
    TopTwo(q, key);
    assert forall i :: 0 <= i < |ids| ==> ids[i] in ids;
    OldestIsFirst(ids, key, 1);
    YoungerIsNotFirst(ids, key, 1, w);
    var at := PriorityMap.FirstIsPublished(ids, key, 1);
  }
}
