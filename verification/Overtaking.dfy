/** Bounded overtaking: how many younger VMs a pending VM can be passed by, in one
    cycle and over any number of cycles. */
module Overtaking {
  import opened Accounting
  import opened FairShare
  import opened Fairness
  import opened Pool
  import opened QueueFairness
  import opened Scheduling
  import opened Users
  import opened Wrappers
  import PriorityMap
  import StdMap

  /** What usage is divided by: the sums the loops aim at, or what they keep. */
  datatype Totals = Summed | Kept

  ghost function TotalsIn(t: Totals, config: Config, accounts: seq<Account>, input: CycleInput): map<int, int> {
    if t.Kept? then TotalsOf(config, accounts, input) else TrueTotals(CpuRows(AccountsOf(config, accounts, input)))
  }

  lemma CycleReady(t: Totals, config: Config, accounts: seq<Account>, input: CycleInput)
    requires RegularCycle(config, accounts, input)
    ensures AllReady(PoolOf(input), AccountsOf(config, accounts, input), TotalsIn(t, config, accounts, input), config)
    ensures config.debug && config.arithmetic.Sound()
  {
    hide TotalsOf, AccountsOf, PoolOf, Ready, Supported;
    SupportedIsReady(config, accounts, input);
  }

  /** The rounded priorities of a cycle that divides by these totals; with the kept
      ones these are the priorities the cycle publishes. */
  ghost function KeysIn(t: Totals, config: Config, accounts: seq<Account>, input: CycleInput): (key: map<int, real>)
    requires RegularCycle(config, accounts, input)
    ensures key.Keys == PoolOf(input).Keys
    ensures t.Kept? ==> key == KeysOf(config, accounts, input)
  {
    CycleReady(t, config, accounts, input);
    Keys(PoolOf(input), AccountsOf(config, accounts, input), TotalsIn(t, config, accounts, input), config)
  }

  /** Usage per share of the owner of a pending VM. */
  ghost function ExponentIn(t: Totals, config: Config, accounts: seq<Account>, input: CycleInput, v: int): real
    requires RegularCycle(config, accounts, input) && v in PoolOf(input)
  {
    CycleReady(t, config, accounts, input);
    Exponent(PoolOf(input)[v], AccountsOf(config, accounts, input), TotalsIn(t, config, accounts, input))
  }

  lemma KeyInCycle(t: Totals, config: Config, accounts: seq<Account>, input: CycleInput, v: int)
    requires RegularCycle(config, accounts, input) && v in PoolOf(input)
    ensures v > 0 && v in KeysIn(t, config, accounts, input)
    ensures KeysIn(t, config, accounts, input)[v]
         == Score(config.arithmetic, v, ExponentIn(t, config, accounts, input, v))
  {
    hide AccountsOf, TotalsIn, Exponent, Score, Supported;
    CycleReady(t, config, accounts, input);
  }

  // ----- usage per share -----

  /** The configured share of a VM's owner. */
  function OwnerShare(accounts: seq<Account>, input: CycleInput, v: int): real
    requires v in PoolOf(input) && Owner(accounts, PoolOf(input)[v].uid).Some?
  {
    Owner(accounts, PoolOf(input)[v].uid).value.share
  }

  /** The decayed cpu usage of a VM's owner in this cycle. */
  ghost function OwnerUsage(config: Config, accounts: seq<Account>, input: CycleInput, v: int): real
    requires RegularCycle(config, accounts, input) && v in PoolOf(input)
  {
    CycleReady(Kept, config, accounts, input);
    DecayedUsage(Owner(AccountsOf(config, accounts, input), PoolOf(input)[v].uid).value.cpu)
  }

  lemma CycleOwner(config: Config, accounts: seq<Account>, input: CycleInput, v: int)
    requires RegularCycle(config, accounts, input) && v in PoolOf(input)
    ensures Owner(accounts, PoolOf(input)[v].uid).Some? && OwnerShare(accounts, input, v) > 0.0 && accounts != []
  {
    hide Owner, PoolOf;
    OwnerPresent(accounts, PoolOf(input)[v].uid);
  }

  /** What keeps the usage per share of a VM's owner at or below `x`: with the sums a
      share of at least `1/x`; with the totals as kept at most `x * share` times
      the usage of the first listed user, or that user being idle. */
  ghost predicate Moderate(t: Totals, config: Config, accounts: seq<Account>, input: CycleInput, v: int, x: real)
    requires RegularCycle(config, accounts, input) && v in PoolOf(input)
  {
    CycleOwner(config, accounts, input, v);
    var share := OwnerShare(accounts, input, v);
    if t.Summed? then share * x >= 1.0
    else FirstUserUsage(config, accounts, input) == 0.0
         || OwnerUsage(config, accounts, input, v) <= x * share * FirstUserUsage(config, accounts, input)
  }

  /** The owner's row in the table of figures. */
  lemma OwnerRow(config: Config, accounts: seq<Account>, input: CycleInput, v: int) returns (i: nat, cpu: map<int, Usage>)
    requires RegularCycle(config, accounts, input) && v in PoolOf(input)
    ensures var now := AccountsOf(config, accounts, input);
            && AllRegular(CpuRows(now)) && i < |CpuRows(now)| && CpuRows(now)[i] == Row(cpu)
            && HasFour(cpu) && DecayedRow(Row(cpu)) == DecayedUsage(cpu)
            && Owner(now, PoolOf(input)[v].uid).Some? && cpu == Owner(now, PoolOf(input)[v].uid).value.cpu
  {
    hide AccountsOf, Supported, Owner, CpuRows, DecayedRow, DecayedUsage, AllRegular, Row, RegularRow;
    var now, uid := AccountsOf(config, accounts, input), PoolOf(input)[v].uid;
    CycleRows(config, accounts, input);
    AccountCount(config, accounts, input);
    CycleReady(Kept, config, accounts, input);
    i := OwnerIndex(now, uid);
    cpu := now[i].cpu;
    CycleRow(config, accounts, input, i);
  }

  lemma OwnerExponent(t: Totals, config: Config, accounts: seq<Account>, input: CycleInput, v: int, cpu: map<int, Usage>)
    requires RegularCycle(config, accounts, input) && v in PoolOf(input) && HasFour(cpu)
    requires Owner(AccountsOf(config, accounts, input), PoolOf(input)[v].uid).Some?
    requires cpu == Owner(AccountsOf(config, accounts, input), PoolOf(input)[v].uid).value.cpu
    ensures Owner(accounts, PoolOf(input)[v].uid).Some? && OwnerShare(accounts, input, v) > 0.0
    ensures DecayedUsage(cpu) == OwnerUsage(config, accounts, input, v)
    ensures HasFourTotals(TotalsIn(t, config, accounts, input))
    ensures ExponentIn(t, config, accounts, input, v)
         == Quotient(cpu, TotalsIn(t, config, accounts, input), OwnerShare(accounts, input, v))
  {
    hide AccountsOf, TotalsIn, Supported, Owner, DecayedUsage, Quotient, HasFourTotals;
    CycleOwner(config, accounts, input, v);
    CycleReady(t, config, accounts, input);
    ShareUnchanged(config, accounts, input, PoolOf(input)[v].uid);
  }

  lemma FirstRow(config: Config, accounts: seq<Account>, input: CycleInput)
    requires RegularCycle(config, accounts, input) && accounts != []
    ensures var rows := CpuRows(AccountsOf(config, accounts, input));
            rows != [] && AllRegular(rows) && DecayedRow(rows[0]) == FirstUserUsage(config, accounts, input)
  {
    hide AccountsOf, CpuRows, DecayedRow, AllRegular, Supported;
    CycleRows(config, accounts, input);
    AccountCount(config, accounts, input);
  }

  lemma ShareUnchanged(config: Config, accounts: seq<Account>, input: CycleInput, uid: int)
    requires Owner(accounts, uid).Some?
    ensures Owner(AccountsOf(config, accounts, input), uid).Some?
    ensures Owner(AccountsOf(config, accounts, input), uid).value.share == Owner(accounts, uid).value.share
  {
    hide Owner, MeasuredAll, Entries;
    OwnerMeasured(accounts, uid, input.accounting,
                  SpanAt(input.timestamp, config.managerTimer, config.period, config.nPeriods), config.nPeriods + 1);
  }

  /** From records to exponents: usage per share is never negative, and a moderate
      owner stays at or below `x`; with the totals as kept nobody else does. */
  lemma ExponentAtMost(t: Totals, config: Config, accounts: seq<Account>, input: CycleInput, v: int, x: real)
    requires RegularCycle(config, accounts, input) && v in PoolOf(input) && x >= 0.0
    ensures ExponentIn(t, config, accounts, input, v) >= 0.0
    ensures Moderate(t, config, accounts, input, v, x) ==> ExponentIn(t, config, accounts, input, v) <= x
    ensures t.Kept? && ExponentIn(t, config, accounts, input, v) <= x ==> Moderate(t, config, accounts, input, v, x)
  {
    hide AccountsOf, RegularCycle, PoolOf, ExponentIn, OwnerUsage, FirstUserUsage, OwnerShare, CpuRows, Row,
         DecayedRow, TotalDecayed, DecayedTotal, DecayedUsage, AllRegular, Quotient, HasFour, HasFourTotals, TrueTotals, KeptTotals, Owner;
    var i, cpu := OwnerRow(config, accounts, input, v);
    OwnerExponent(t, config, accounts, input, v, cpu);
    CycleOwner(config, accounts, input, v);
    FirstRow(config, accounts, input);
    var rows := CpuRows(AccountsOf(config, accounts, input));
    var share := OwnerShare(accounts, input, v);
    PartOfTotal(rows, i);
    PartOfTotal(rows, 0);
    if t.Summed? {
      ExponentBound(rows, i, cpu, share);
      if share * x >= 1.0 {
        ReciprocalAtMost(share, x);
      }
    } else {
      KeptTotalIsFirstUser(rows);
      KeptExponentAtMostIff(rows, cpu, share, x);
      QuotientNonNegative(cpu, KeptTotals(rows), share);
    }
  }

  /** The owner's decayed usage over the first listed user's, by the owner's share. */
  ghost function UsagePerShare(config: Config, accounts: seq<Account>, input: CycleInput, v: int): real
    requires RegularCycle(config, accounts, input) && v in PoolOf(input)
  {
    CycleOwner(config, accounts, input, v);
    var first := FirstUserUsage(config, accounts, input);
    (if first == 0.0 then 0.0 else OwnerUsage(config, accounts, input, v) / first) / OwnerShare(accounts, input, v)
  }

  /** `2^-q / v`, scaled, and rounded where the code rounds. */
  function RoundedPriority(a: Arithmetic, q: real, v: int): real
    requires v > 0
  {
    a.float(Times(a.pow(q), a.float(1.0 / v as real)) * 1000000000000.0)
  }

  function Times(x: real, y: real): real {
    x * y
  }

  /** The published priority, spelled out from the decayed usages and the share. */
  lemma PriorityFormula(config: Config, accounts: seq<Account>, input: CycleInput, v: int)
    requires RegularCycle(config, accounts, input) && v in PoolOf(input)
    ensures v > 0 && v in KeysOf(config, accounts, input)
    ensures KeysOf(config, accounts, input)[v]
         == RoundedPriority(config.arithmetic, UsagePerShare(config, accounts, input, v), v)
  {
    hide *;
    KeysAreOfCycle(config, accounts, input);
    KeyInCycle(Kept, config, accounts, input, v);
    KeptExponentIs(config, accounts, input, v);
    ScoreIs(config.arithmetic, v, UsagePerShare(config, accounts, input, v));
  }

  lemma KeysAreOfCycle(config: Config, accounts: seq<Account>, input: CycleInput)
    requires RegularCycle(config, accounts, input)
    ensures Supported(config, accounts, input)
  {
  }

  lemma ScoreIs(a: Arithmetic, v: int, q: real)
    requires v > 0
    ensures Score(a, v, q) == RoundedPriority(a, q, v)
  {
    hide Score, RoundedPriority, Weight, Times;
    WeightIs(a, v, q);
    var x := Weight(a, v, q) * 1000000000000.0;
    ScoreAt(a, v, q, x);
    RoundedAt(a, q, v, x);
  }

  lemma ScoreAt(a: Arithmetic, v: int, q: real, x: real)
    requires v > 0 && x == Weight(a, v, q) * 1000000000000.0
    ensures Score(a, v, q) == a.float(x)
  {
    hide Weight;
  }

  lemma RoundedAt(a: Arithmetic, q: real, v: int, x: real)
    requires v > 0 && x == Times(a.pow(q), a.float(1.0 / v as real)) * 1000000000000.0
    ensures RoundedPriority(a, q, v) == a.float(x)
  {
    hide Times;
  }

  lemma WeightIs(a: Arithmetic, v: int, q: real)
    requires v > 0
    ensures Weight(a, v, q) == Times(a.pow(q), a.float(1.0 / v as real))
  {
  }

  lemma KeptExponentIs(config: Config, accounts: seq<Account>, input: CycleInput, v: int)
    requires RegularCycle(config, accounts, input) && v in PoolOf(input)
    ensures ExponentIn(Kept, config, accounts, input, v) == UsagePerShare(config, accounts, input, v)
  {
    hide *;
    CycleOwner(config, accounts, input, v);
    UsagePerShareIs(config, accounts, input, v);
    var i, cpu := OwnerRow(config, accounts, input, v);
    OwnerExponent(Kept, config, accounts, input, v, cpu);
    FirstRow(config, accounts, input);
    KeptTotalIsFirstUser(CpuRows(AccountsOf(config, accounts, input)));
    KeptTotalsIn(config, accounts, input);
    QuotientIs(cpu, TotalsIn(Kept, config, accounts, input), OwnerShare(accounts, input, v));
  }

  lemma UsagePerShareIs(config: Config, accounts: seq<Account>, input: CycleInput, v: int)
    requires RegularCycle(config, accounts, input) && v in PoolOf(input) && accounts != []
    requires Owner(accounts, PoolOf(input)[v].uid).Some? && OwnerShare(accounts, input, v) > 0.0
    ensures var first := FirstUserUsage(config, accounts, input);
            UsagePerShare(config, accounts, input, v)
            == (if first == 0.0 then 0.0 else OwnerUsage(config, accounts, input, v) / first) / OwnerShare(accounts, input, v)
  {
    hide RegularCycle, PoolOf, Owner, OwnerUsage, FirstUserUsage, OwnerShare;
  }

  lemma KeptTotalsIn(config: Config, accounts: seq<Account>, input: CycleInput)
    ensures TotalsIn(Kept, config, accounts, input) == KeptTotals(CpuRows(AccountsOf(config, accounts, input)))
  {
  }

  lemma QuotientIs(usage: map<int, Usage>, totals: map<int, int>, share: real)
    requires share > 0.0 && HasFour(usage) && HasFourTotals(totals)
    ensures var total := DecayedTotal(totals);
            Quotient(usage, totals, share) == (if total == 0.0 then 0.0 else DecayedUsage(usage) / total) / share
  {
  }

  lemma ReciprocalAtMost(s: real, x: real)
    requires s > 0.0 && s * x >= 1.0
    ensures 1.0 / s <= x
  {
    var y := 1.0 / s;
    assert y * s == 1.0;
    assert y > x ==> y * s > x * s;
  }

  // ----- one cycle -----

  /** A moderate owner's VM is outranked by no VM with an id `b` times as large. */
  lemma FarYoungerRanksNoHigher(t: Totals, config: Config, accounts: seq<Account>, input: CycleInput,
                                v: int, w: int, x: real, b: real)
    requires RegularCycle(config, accounts, input) && v in PoolOf(input) && w in PoolOf(input) && x >= 0.0
    requires Moderate(t, config, accounts, input, v, x) && Covers(config.arithmetic, x, b)
    requires w as real >= v as real * b
    ensures var key := KeysIn(t, config, accounts, input);
            key[v] >= key[w] && (config.arithmetic.Exact() && w as real > v as real * b ==> key[v] > key[w])
  {
    hide Score, Covers, Moderate, ExponentIn, KeysIn, PoolOf;
    KeyInCycle(t, config, accounts, input, v);
    KeyInCycle(t, config, accounts, input, w);
    ExponentAtMost(t, config, accounts, input, v, x);
    ExponentAtMost(t, config, accounts, input, w, x);
    NotOvertakenFromAfar(config.arithmetic, v, ExponentIn(t, config, accounts, input, v),
                         w, ExponentIn(t, config, accounts, input, w), x, b);
  }

  /** In the published order: whenever a VM with an id `b` times as large is
      published, `v`, or an older VM with the same rounded priority, stands before it. */
  lemma ServedBeforeFarYounger(t: Totals, config: Config, accounts: seq<Account>, input: CycleInput,
                               v: int, x: real, b: real, at: nat)
    requires RegularCycle(config, accounts, input) && v in PoolOf(input) && x >= 0.0
    requires Moderate(t, config, accounts, input, v, x) && Covers(config.arithmetic, x, b)
    requires at < |PublishedIds(PoolOf(input), KeysIn(t, config, accounts, input))|
    requires var w := PublishedIds(PoolOf(input), KeysIn(t, config, accounts, input))[at];
             w > v && w as real >= v as real * b
    ensures var key := KeysIn(t, config, accounts, input);
            var q := PublishedIds(PoolOf(input), key);
            exists i :: 0 <= i < at && q[i] in key && q[i] <= v && key[q[i]] == key[v]
  {
    hide Covers, Moderate, KeysIn, PoolOf, PriorityMap.Published, StdMap.Traverse, RegularCycle;
    var pool, key := PoolOf(input), KeysIn(t, config, accounts, input);
    var q, ids := PublishedIds(pool, key), StdMap.Traverse(pool.Keys);
    var w := q[at];
    KeysListed(pool);
    TraversalAscending(pool);
    PriorityMap.QueueContents(ids, key);
    assert w in pool;
    FarYoungerRanksNoHigher(t, config, accounts, input, v, w, x, b);
    assert v in ids && w in ids;
    var i :| 0 <= i < |ids| && ids[i] == v;
    var j :| 0 <= j < |ids| && ids[j] == w;
    PriorityMap.OlderAndNoSmallerComesFirst(ids, key, i, j, at);
  }

  /** The younger VMs with a strictly greater rounded priority. */
  ghost function Overtakers(pool: map<int, VM>, key: map<int, real>, v: int): set<int>
    requires key.Keys == pool.Keys && v in pool
  {
    set w | w in pool && w > v && key[w] > key[v]
  }

  /** Every VM that outranks an older one of a moderate owner has an id less than
      `b` times as large. */
  lemma OvertakersInRange(t: Totals, config: Config, accounts: seq<Account>, input: CycleInput, v: int, x: real, b: real)
    requires RegularCycle(config, accounts, input) && v in PoolOf(input) && x >= 0.0
    requires Moderate(t, config, accounts, input, v, x) && Covers(config.arithmetic, x, b)
    ensures forall w :: w in Overtakers(PoolOf(input), KeysIn(t, config, accounts, input), v)
                    ==> v < w && (w as real) < v as real * b
  {
    hide Covers, Moderate, KeysIn, PoolOf, RegularCycle;
    forall w | w in Overtakers(PoolOf(input), KeysIn(t, config, accounts, input), v)
      ensures v < w && (w as real) < v as real * b
    {
      if w as real >= v as real * b {
        FarYoungerRanksNoHigher(t, config, accounts, input, v, w, x, b);
      }
    }
  }

  // ----- any number of cycles -----

  ghost predicate RegularRun(config: Config, accounts: seq<Account>, inputs: seq<CycleInput>) {
    forall i :: 0 <= i < |inputs| ==> RegularCycle(config, accounts, inputs[i])
  }

  /** The younger VMs that outrank `v` in some cycle of a run in which `v` is pending. */
  ghost function EverOvertaking(t: Totals, config: Config, accounts: seq<Account>, inputs: seq<CycleInput>, v: int): set<int>
    requires RegularRun(config, accounts, inputs)
  {
    set i, w | 0 <= i < |inputs| && v in PoolOf(inputs[i])
               && w in Overtakers(PoolOf(inputs[i]), KeysIn(t, config, accounts, inputs[i]), v) :: w
  }

  /** No starvation.  However long the run and whatever arrives in it, all the VMs
      that ever outrank an older one of a moderate owner have ids below `b * v`: they
      are at most `v * (b - 1)` in all. */
  lemma NoStarvation(t: Totals, config: Config, accounts: seq<Account>, inputs: seq<CycleInput>, v: int, x: real, b: real)
    requires config.arithmetic.Sound() && RegularRun(config, accounts, inputs)
    requires v > 0 && x >= 0.0 && Covers(config.arithmetic, x, b)
    requires forall i :: 0 <= i < |inputs| && v in PoolOf(inputs[i]) ==>
      Moderate(t, config, accounts, inputs[i], v, x)
    ensures forall w :: w in EverOvertaking(t, config, accounts, inputs, v) ==> v < w && (w as real) < v as real * b
    ensures |EverOvertaking(t, config, accounts, inputs, v)| as real <= v as real * (b - 1.0)
  {
    hide Covers, Moderate, KeysIn, PoolOf, RegularCycle, Overtakers;
    forall i | 0 <= i < |inputs| && v in PoolOf(inputs[i])
      ensures forall w :: w in Overtakers(PoolOf(inputs[i]), KeysIn(t, config, accounts, inputs[i]), v)
                      ==> v < w && (w as real) < v as real * b
    {
      OvertakersInRange(t, config, accounts, inputs[i], v, x, b);
    }
    CoversAtLeastOne(config.arithmetic, x, b);
    InRange(EverOvertaking(t, config, accounts, inputs, v), v, b);
  }

  lemma CoversAtLeastOne(a: Arithmetic, x: real, b: real)
    requires a.HalvingPow() && x >= 0.0 && Covers(a, x, b)
    ensures b >= 1.0
  {
    hide TwoTo;
    if a.pow(x) * b >= 1.0 {
      AtLeastOne(a.pow(x), b);
    }
  }

  lemma AtLeastOne(p: real, b: real)
    requires 0.0 < p <= 1.0 && p * b >= 1.0
    ensures b >= 1.0
  {
    var y := p * b;
    assert b < 0.0 ==> y < 0.0;
    assert b >= 0.0 ==> (1.0 - p) * b >= 0.0;
  }

  lemma InRange(s: set<int>, v: int, b: real)
    requires v > 0 && b >= 1.0 && forall w :: w in s ==> v < w && (w as real) < v as real * b
    ensures |s| as real <= v as real * (b - 1.0)
  {
    var reach := v as real * b;
    assert reach >= v as real && v as real * (b - 1.0) == reach - v as real;
    RangeBound(s, v, reach.Floor);
  }

  lemma {:induction false} RangeBound(s: set<int>, lo: int, hi: int)
    requires lo <= hi && forall w :: w in s ==> lo < w <= hi
    ensures |s| <= hi - lo
    decreases hi - lo
  {
    if lo < hi {
      RangeBound(s - {hi}, lo, hi - 1);
    } else if s != {} {
      var w := StdMap.AnyMember(s);
    }
  }

  // ----- exactly when the totals as kept protect -----

  /** With the totals as kept and exact arithmetic, a VM can count on not being
      overtaken by VMs with ids `2^m` times as large exactly when its owner's
      usage is at most `m * share` times the first listed user's, or that user is idle. */
  lemma KeptTotalsProtectIff(config: Config, accounts: seq<Account>, input: CycleInput, v: int, m: nat)
    requires RegularCycle(config, accounts, input) && v in PoolOf(input) && config.arithmetic.Exact()
    ensures accounts != [] && Owner(accounts, PoolOf(input)[v].uid).Some? && v > 0 && v in KeysOf(config, accounts, input)
    ensures (FirstUserUsage(config, accounts, input) == 0.0
             || OwnerUsage(config, accounts, input, v)
                <= m as real * OwnerShare(accounts, input, v) * FirstUserUsage(config, accounts, input))
       <==> forall w, r :: w > 0 && w >= v * TwoTo(m) && r >= 0.0 ==>
              KeysOf(config, accounts, input)[v] >= Score(config.arithmetic, w, r)
  {
    hide Score, ExponentIn, KeysIn, KeysOf, PoolOf, RegularCycle, OwnerUsage, FirstUserUsage, OwnerShare, Owner, TwoTo;
    CycleOwner(config, accounts, input, v);
    KeyInCycle(Kept, config, accounts, input, v);
    ExponentAtMost(Kept, config, accounts, input, v, m as real);
    FarYoungerNeverOvertakeIff(config.arithmetic, v, ExponentIn(Kept, config, accounts, input, v), m);
  }

  // ----- exactly which VMs are dropped -----

  /** In exact arithmetic two VMs of a cycle coincide in priority exactly when the
      ratio of their ids makes up for the difference in usage per share. */
  lemma KeysCoincideIff(config: Config, accounts: seq<Account>, input: CycleInput, u: int, v: int)
    requires RegularCycle(config, accounts, input) && u in PoolOf(input) && v in PoolOf(input)
    requires config.arithmetic.Exact()
    ensures KeysOf(config, accounts, input)[u] == KeysOf(config, accounts, input)[v]
       <==> config.arithmetic.pow(ExponentIn(Kept, config, accounts, input, u)) * v as real
            == config.arithmetic.pow(ExponentIn(Kept, config, accounts, input, v)) * u as real
  {
    hide Score, ExponentIn, KeysIn, KeysOf, PoolOf, RegularCycle;
    KeyInCycle(Kept, config, accounts, input, u);
    KeyInCycle(Kept, config, accounts, input, v);
    ExactOrder(config.arithmetic, u, ExponentIn(Kept, config, accounts, input, u),
               v, ExponentIn(Kept, config, accounts, input, v));
  }

  /** `u` is older than `w`, and its usage per share is greater by just what the
      smaller id gains. */
  ghost predicate Displaces(config: Config, accounts: seq<Account>, input: CycleInput, u: int, w: int)
    requires RegularCycle(config, accounts, input) && u in PoolOf(input) && w in PoolOf(input)
  {
    u < w && config.arithmetic.pow(ExponentIn(Kept, config, accounts, input, u)) * w as real
             == config.arithmetic.pow(ExponentIn(Kept, config, accounts, input, w)) * u as real
  }

  /** In exact arithmetic a pending VM is dropped from the queue exactly when an
      older one stands at the same place. */
  lemma DroppedIff(config: Config, accounts: seq<Account>, input: CycleInput, w: int)
    requires RegularCycle(config, accounts, input) && w in PoolOf(input) && config.arithmetic.Exact()
    ensures w !in PublishedIds(PoolOf(input), KeysOf(config, accounts, input))
       <==> exists u :: u in PoolOf(input) && Displaces(config, accounts, input, u, w)
  {
    hide Score, ExponentIn, KeysIn, KeysOf, PoolOf, RegularCycle, PublishedIds, Displaces;
    var key := KeysIn(Kept, config, accounts, input);
    PublishedIff(PoolOf(input), key, w);
    forall u | u in PoolOf(input)
      ensures Displaces(config, accounts, input, u, w) <==> u < w && key[u] == key[w]
    {
      DisplacesIff(config, accounts, input, u, w);
    }
  }

  lemma DisplacesIff(config: Config, accounts: seq<Account>, input: CycleInput, u: int, w: int)
    requires RegularCycle(config, accounts, input) && u in PoolOf(input) && w in PoolOf(input)
    requires config.arithmetic.Exact()
    ensures Displaces(config, accounts, input, u, w)
       <==> u < w && KeysOf(config, accounts, input)[u] == KeysOf(config, accounts, input)[w]
  {
    hide ExponentIn, KeysOf, PoolOf, RegularCycle;
    KeysCoincideIff(config, accounts, input, u, w);
  }

  /** A pending VM is published exactly when no older one has its rounded priority. */
  lemma PublishedIff(pool: map<int, VM>, key: map<int, real>, w: int)
    requires key.Keys == pool.Keys && w in pool
    ensures w in PublishedIds(pool, key) <==> forall u :: u in pool && u < w ==> key[u] != key[w]
  {
    hide PriorityMap.Published, StdMap.Traverse, PriorityMap.InsertAll, PriorityMap.FirstOfItsKey;
    KeysListed(pool);
    TraversalAscending(pool);
    var ids := StdMap.Traverse(pool.Keys);
    PriorityMap.FirstIsSmallest(ids, key, w);
    PriorityMap.QueueContents(ids, key);
    if PriorityMap.FirstOfItsKey(ids, key, w) {
      var i := PriorityMap.FirstIsPublished(ids, key, w);
      OlderDiffer(ids, key, w);
    } else {
      SomeOlderCoincides(ids, key, w);
    }
  }

  lemma OlderDiffer(ids: seq<int>, key: map<int, real>, w: int)
    requires PriorityMap.Keyed(ids, key) && w in key && forall u :: u in ids <==> u in key
    requires forall i :: 0 <= i < |ids| && key[ids[i]] == key[w] ==> w <= ids[i]
    ensures forall u :: u in key && u < w ==> key[u] != key[w]
  {
    forall u | u in key && u < w
      ensures key[u] != key[w]
    {
      var i :| 0 <= i < |ids| && ids[i] == u;
    }
  }

  lemma SomeOlderCoincides(ids: seq<int>, key: map<int, real>, w: int)
    requires PriorityMap.Keyed(ids, key) && w in key && forall u :: u in ids <==> u in key
    requires !forall i :: 0 <= i < |ids| && key[ids[i]] == key[w] ==> w <= ids[i]
    ensures exists u :: u in key && u < w && key[u] == key[w]
  {
    var i :| 0 <= i < |ids| && key[ids[i]] == key[w] && ids[i] < w;
    assert ids[i] in ids;
  }
}
