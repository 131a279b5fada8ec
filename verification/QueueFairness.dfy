/** Fairness of the published order. */
module QueueFairness {
  import opened Accounting
  import opened FairShare
  import opened Fairness
  import opened Pool
  import opened Scheduling
  import opened Users
  import opened Wrappers
  import PriorityMap
  import StdMap

  /** The plugin works on these VMs, with these totals. */
  ghost predicate PluginCycle(config: Config, pool: map<int, VM>, accounts: seq<Account>, totals: map<int, int>,
                              key: map<int, real>)
  {
    && config.debug && config.arithmetic.Sound()
    && (forall oid :: oid in pool ==> pool[oid].oid == oid)
    && AllReady(pool, accounts, totals, config) && HasFourTotals(totals)
    && key == Keys(pool, accounts, totals, config)
  }

  lemma KeyIsScore(config: Config, pool: map<int, VM>, accounts: seq<Account>, totals: map<int, int>,
                   key: map<int, real>, v: int)
    requires PluginCycle(config, pool, accounts, totals, key) && v in pool
    ensures Ready(pool[v], accounts) && v > 0 && v in key
    ensures key[v] == Score(config.arithmetic, v, Exponent(pool[v], accounts, totals))
  {
    hide Score, Exponent;
  }

  /** Lower usage per share and lower id together never rank lower. */
  lemma LighterAndOlderRanksNoLower(config: Config, pool: map<int, VM>, accounts: seq<Account>,
                                    totals: map<int, int>, key: map<int, real>, v: int, w: int)
    requires PluginCycle(config, pool, accounts, totals, key) && v in pool && w in pool && v <= w
    requires Ready(pool[v], accounts) && Ready(pool[w], accounts)
    requires Exponent(pool[v], accounts, totals) <= Exponent(pool[w], accounts, totals)
    ensures v in key && w in key && key[v] >= key[w]
  {
    hide Score, Exponent, PluginCycle;
    KeyIsScore(config, pool, accounts, totals, key, v);
    KeyIsScore(config, pool, accounts, totals, key, w);
    SoundArithmetic(config, pool, accounts, totals, key);
    LessUsageNeverRanksLower(config.arithmetic, v, Exponent(pool[v], accounts, totals),
                             Exponent(pool[w], accounts, totals));
    OlderNeverRanksLower(config.arithmetic, v, w, Exponent(pool[w], accounts, totals));
  }

  lemma SoundArithmetic(config: Config, pool: map<int, VM>, accounts: seq<Account>, totals: map<int, int>,
                        key: map<int, real>)
    requires PluginCycle(config, pool, accounts, totals, key)
    ensures config.debug && config.arithmetic.Sound() && key.Keys == pool.Keys && HasFourTotals(totals)
  {
  }

  /** A published VM stands behind another one only if that one is older or its
      owner has less usage per share. */
  lemma PrecededOnlyByOlderOrLighter(config: Config, pool: map<int, VM>, accounts: seq<Account>,
                                     totals: map<int, int>, key: map<int, real>, i: nat, j: nat)
    requires PluginCycle(config, pool, accounts, totals, key) && key.Keys == pool.Keys
    requires i < j < |PublishedIds(pool, key)|
    ensures var u, v := PublishedIds(pool, key)[i], PublishedIds(pool, key)[j];
            && u in pool && v in pool && Ready(pool[u], accounts) && Ready(pool[v], accounts)
            && (u < v || Exponent(pool[u], accounts, totals) < Exponent(pool[v], accounts, totals))
  {
    hide Exponent, PluginCycle, PriorityMap.Published, StdMap.Traverse;
    SoundArithmetic(config, pool, accounts, totals, key);
    KeysListed(pool);
    PriorityMap.QueueContents(StdMap.Traverse(pool.Keys), key);
    var u, v := PublishedIds(pool, key)[i], PublishedIds(pool, key)[j];
    KeyIsScore(config, pool, accounts, totals, key, u);
    KeyIsScore(config, pool, accounts, totals, key, v);
    if v <= u && Exponent(pool[v], accounts, totals) <= Exponent(pool[u], accounts, totals) {
      LighterAndOlderRanksNoLower(config, pool, accounts, totals, key, v, u);
    }
  }

  /** Within one user the published order is the order of age. */
  lemma SameUserInIdOrder(config: Config, pool: map<int, VM>, accounts: seq<Account>,
                          totals: map<int, int>, key: map<int, real>, i: nat, j: nat)
    requires PluginCycle(config, pool, accounts, totals, key) && key.Keys == pool.Keys
    requires i < j < |PublishedIds(pool, key)|
    ensures var u, v := PublishedIds(pool, key)[i], PublishedIds(pool, key)[j];
            u in pool && v in pool && (pool[u].uid == pool[v].uid ==> u < v)
  {
    hide PluginCycle, PublishedIds;
    PrecededOnlyByOlderOrLighter(config, pool, accounts, totals, key, i, j);
  }

  // ----- regular cycles -----

  /** Plugin mode, three periods, and no record with negative cpu. */
  ghost predicate RegularCycle(config: Config, accounts: seq<Account>, input: CycleInput) {
    && config.debug && config.nPeriods == 3 && config.arithmetic.Sound() && Supported(config, accounts, input)
    && config.managerTimer * config.period >= 0
    && (input.accounting.Answer? ==> forall i :: 0 <= i < |input.accounting.records| ==> input.accounting.records[i].cpu >= 0.0)
  }

  lemma CycleRow(config: Config, accounts: seq<Account>, input: CycleInput, i: nat)
    requires RegularCycle(config, accounts, input) && i < |accounts|
    ensures var cpu := AccountsOf(config, accounts, input)[i].cpu;
            RegularRow(Row(cpu)) && HasFour(cpu) && DecayedRow(Row(cpu)) == DecayedUsage(cpu)
  {
    hide Row, DecayedRow, DecayedUsage, Entries, Supported;
    var rs := Accepted(input.accounting, accounts[i].uid);
    forall r | r in rs
      ensures r.Load(Cpu) >= 0.0
    {
      var k :| 0 <= k < |input.accounting.records| && input.accounting.records[k] == r;
    }
    EvaluationIsRegular(rs, input.timestamp, config.managerTimer, config.period);
  }

  lemma CycleRows(config: Config, accounts: seq<Account>, input: CycleInput)
    requires RegularCycle(config, accounts, input)
    ensures AllRegular(CpuRows(AccountsOf(config, accounts, input)))
  {
    hide AccountsOf, Row, RegularRow;
    var rows := CpuRows(AccountsOf(config, accounts, input));
    forall i | 0 <= i < |rows|
      ensures RegularRow(rows[i])
    {
      AccountCount(config, accounts, input);
      CycleRow(config, accounts, input, i);
    }
  }

  lemma AccountCount(config: Config, accounts: seq<Account>, input: CycleInput)
    ensures |AccountsOf(config, accounts, input)| == |accounts|
  {
  }

  /** The owner of a pending VM is one of the configured accounts. */
  lemma OwnerIndex(accounts: seq<Account>, uid: int) returns (i: nat)
    requires Owner(accounts, uid).Some?
    ensures i < |accounts| && accounts[i] == Owner(accounts, uid).value
  {
    i :| 0 <= i < |accounts| && accounts[i] == Owner(accounts, uid).value;
  }

  lemma CycleIsPluginCycle(config: Config, accounts: seq<Account>, input: CycleInput, totals: map<int, int>)
    requires RegularCycle(config, accounts, input) && HasFourTotals(totals)
    ensures var pool, now := PoolOf(input), AccountsOf(config, accounts, input);
            && AllReady(pool, now, totals, config)
            && PluginCycle(config, pool, now, totals, Keys(pool, now, totals, config))
            && forall w :: w in pool ==> Ready(pool[w], now)
  {
    hide AccountsOf, Ready, TotalsOf;
    SupportedIsReady(config, accounts, input);
  }

  /** The usage of the first listed user, which the loops leave as the total. */
  ghost function FirstDecayed(rows: seq<seq<int>>): real
    requires AllRegular(rows) && rows != []
  {
    DecayedRow(rows[0])
  }

  /** Decayed cpu usage of the first listed user in this cycle. */
  ghost function FirstUserUsage(config: Config, accounts: seq<Account>, input: CycleInput): real
    requires RegularCycle(config, accounts, input) && accounts != []
  {
    CycleRows(config, accounts, input);
    AccountCount(config, accounts, input);
    FirstDecayed(CpuRows(AccountsOf(config, accounts, input)))
  }

  // ----- fallbacks -----

  ghost predicate AllExponentsZero(pool: map<int, VM>, accounts: seq<Account>, totals: map<int, int>) {
    HasFourTotals(totals)
    && forall w :: w in pool ==> Ready(pool[w], accounts) && Exponent(pool[w], accounts, totals) == 0.0
  }

  /** Without usage the published queue is in the order of age. */
  lemma NoUsageMeansIdOrder(config: Config, pool: map<int, VM>, accounts: seq<Account>, totals: map<int, int>,
                            key: map<int, real>)
    requires PluginCycle(config, pool, accounts, totals, key) && key.Keys == pool.Keys
    requires AllExponentsZero(pool, accounts, totals)
    ensures StdMap.Ascending(PublishedIds(pool, key))
  {
    hide Exponent, PluginCycle, PublishedIds;
    var q := PublishedIds(pool, key);
    forall i, j | 0 <= i < j < |q|
      ensures q[i] < q[j]
    {
      PrecededOnlyByOlderOrLighter(config, pool, accounts, totals, key, i, j);
    }
  }

  /** With exact arithmetic nothing is dropped either: first in, first out. */
  lemma NoUsageExactIsFifo(config: Config, pool: map<int, VM>, accounts: seq<Account>, totals: map<int, int>,
                           key: map<int, real>)
    requires PluginCycle(config, pool, accounts, totals, key) && key.Keys == pool.Keys
    requires AllExponentsZero(pool, accounts, totals) && config.arithmetic.Exact()
    ensures PublishedIds(pool, key) == StdMap.Traverse(pool.Keys)
  {
    hide Exponent, PluginCycle, PublishedIds, StdMap.Traverse;
    NoUsageMeansIdOrder(config, pool, accounts, totals, key);
    forall u, v | u in pool && v in pool && u != v
      ensures key[u] != key[v]
    {
      KeyIsScore(config, pool, accounts, totals, key, u);
      KeyIsScore(config, pool, accounts, totals, key, v);
      DistinctExactScores(config.arithmetic, u, v);
    }
    NothingDroppedIff(pool, key);
    var q, ids := PublishedIds(pool, key), StdMap.Traverse(pool.Keys);
    TraversalAscending(pool);
    SameMultiset(q, ids);
    StdMap.AscendingUnique(q, ids);
  }

  lemma SameMultiset(a: seq<int>, b: seq<int>)
    requires multiset(a) == multiset(b)
    ensures |a| == |b| && forall x :: x in a <==> x in b
  {
    assert |multiset(a)| == |a| && |multiset(b)| == |b|;
    assert forall x :: x in a <==> x in multiset(a);
    assert forall x :: x in b <==> x in multiset(b);
  }

  lemma DistinctExactScores(a: Arithmetic, u: int, v: int)
    requires a.Exact() && u > 0 && v > 0 && u != v
    ensures Score(a, u, 0.0) != Score(a, v, 0.0)
  {
    var x, y := 1.0 / u as real, 1.0 / v as real;
    assert x * u as real == 1.0 && y * v as real == 1.0;
    assert x == y ==> x * u as real == x * v as real;
    assert x > 0.0;
    assert x * (u as real - v as real) == 0.0 ==> u as real == v as real;
  }

  /** If the accounting records cannot be fetched every figure is zero. */
  lemma NoAccountingMeansNoUsage(config: Config, accounts: seq<Account>, input: CycleInput)
    requires Supported(config, accounts, input) && config.debug && !input.accounting.Answer?
    requires accounts != []
    ensures AllExponentsZero(PoolOf(input), AccountsOf(config, accounts, input), TotalsOf(config, accounts, input))
  {
    hide MeasuredAll, KeptTotals, Owner, Entries, Quotient;
    SupportedIsReady(config, accounts, input);
    var pool, now := PoolOf(input), AccountsOf(config, accounts, input);
    var span := SpanAt(input.timestamp, config.managerTimer, config.period, config.nPeriods);
    FourTotals(accounts, input.accounting, span);
    forall w | w in pool
      ensures Ready(pool[w], now) && Exponent(pool[w], now, TotalsOf(config, accounts, input)) == 0.0
    {
      assert Ready(pool[w], now);
      OwnerMeasured(accounts, pool[w].uid, input.accounting, span, 4);
      NothingEntered(span);
      ZeroQuotient(Owner(now, pool[w].uid).value.cpu, TotalsOf(config, accounts, input),
                   Owner(now, pool[w].uid).value.share);
    }
  }

  /** Whenever all exponents of a cycle are zero, its queue is in the order of age,
      and with exact arithmetic it is the whole pool: first in, first out. */
  lemma ZeroExponentsPublishInIdOrder(config: Config, accounts: seq<Account>, input: CycleInput)
    requires config.debug && config.arithmetic.Sound() && Supported(config, accounts, input)
    requires AllExponentsZero(PoolOf(input), AccountsOf(config, accounts, input), TotalsOf(config, accounts, input))
    ensures StdMap.Ascending(PublishedIds(PoolOf(input), KeysOf(config, accounts, input)))
    ensures config.arithmetic.Exact() ==>
      PublishedIds(PoolOf(input), KeysOf(config, accounts, input)) == StdMap.Traverse(PoolOf(input).Keys)
  {
    hide AccountsOf, Ready, TotalsOf, Supported, Exponent, PublishedIds, StdMap.Traverse, StdMap.Ascending, KeyOf, Keys;
    SupportedIsReady(config, accounts, input);
    var pool, now, totals := PoolOf(input), AccountsOf(config, accounts, input), TotalsOf(config, accounts, input);
    var key := KeysOf(config, accounts, input);
    assert PluginCycle(config, pool, now, totals, key);
    NoUsageMeansIdOrder(config, pool, now, totals, key);
    if config.arithmetic.Exact() {
      NoUsageExactIsFifo(config, pool, now, totals, key);
    }
  }

  /** If the accounting records cannot be fetched, the queue falls back to the order of age. */
  lemma AccountingFailureMeansIdOrder(config: Config, accounts: seq<Account>, input: CycleInput)
    requires config.debug && config.arithmetic.Sound() && Supported(config, accounts, input)
    requires !input.accounting.Answer? && accounts != []
    ensures StdMap.Ascending(PublishedIds(PoolOf(input), KeysOf(config, accounts, input)))
    ensures config.arithmetic.Exact() ==>
      PublishedIds(PoolOf(input), KeysOf(config, accounts, input)) == StdMap.Traverse(PoolOf(input).Keys)
  {
    hide *;
    NoAccountingMeansNoUsage(config, accounts, input);
    ZeroExponentsPublishInIdOrder(config, accounts, input);
  }

  /** With the totals as the loops leave them, an idle first user switches fair
      share off for everybody: the queue is in the order of age, whatever the others
      used, and with exact arithmetic it is the whole pool. */
  lemma IdleFirstUserMeansIdOrder(config: Config, accounts: seq<Account>, input: CycleInput)
    requires RegularCycle(config, accounts, input) && accounts != []
    requires FirstUserUsage(config, accounts, input) == 0.0
    ensures StdMap.Ascending(PublishedIds(PoolOf(input), KeysOf(config, accounts, input)))
    ensures config.arithmetic.Exact() ==>
      PublishedIds(PoolOf(input), KeysOf(config, accounts, input)) == StdMap.Traverse(PoolOf(input).Keys)
  {
    hide AccountsOf, TotalsOf, Supported, Exponent, PublishedIds, Ready, Owner, Quotient, FirstDecayed, CpuRows,
         AllRegular, KeysOf;
    var pool, now, totals := PoolOf(input), AccountsOf(config, accounts, input), TotalsOf(config, accounts, input);
    CycleRows(config, accounts, input);
    AccountCount(config, accounts, input);
    IdleTotals(config, accounts, input);
    CycleIsPluginCycle(config, accounts, input, totals);
    forall w | w in pool
      ensures Ready(pool[w], now) && Exponent(pool[w], now, totals) == 0.0
    {
      IdleExponent(config, accounts, input, pool[w]);
    }
    ZeroExponentsPublishInIdOrder(config, accounts, input);
  }

  lemma IdleTotals(config: Config, accounts: seq<Account>, input: CycleInput)
    requires AllRegular(CpuRows(AccountsOf(config, accounts, input))) && AccountsOf(config, accounts, input) != []
    ensures HasFourTotals(TotalsOf(config, accounts, input))
  {
    hide AccountsOf, AllRegular, KeptTotals, Row;
    KeptTotalIsFirstUser(CpuRows(AccountsOf(config, accounts, input)));
  }

  lemma IdleExponent(config: Config, accounts: seq<Account>, input: CycleInput, vm: VM)
    requires AllRegular(CpuRows(AccountsOf(config, accounts, input))) && AccountsOf(config, accounts, input) != []
    requires FirstDecayed(CpuRows(AccountsOf(config, accounts, input))) == 0.0
    requires Ready(vm, AccountsOf(config, accounts, input)) && HasFourTotals(TotalsOf(config, accounts, input))
    ensures Exponent(vm, AccountsOf(config, accounts, input), TotalsOf(config, accounts, input)) == 0.0
  {
    hide AccountsOf, AllRegular, KeptTotals, CpuRows, Owner, Quotient;
    var owner := Owner(AccountsOf(config, accounts, input), vm.uid).value;
    IdleFirstUserDisablesFairShare(CpuRows(AccountsOf(config, accounts, input)), owner.cpu, owner.share);
  }

  lemma NothingEntered(span: Span)
    ensures HasFour(Entries([], Cpu, span, 4)) && DecayedUsage(Entries([], Cpu, span, 4)) == 0.0
  {
    NoRecords(Cpu, span.timeStart, span.StopOf(0));
    NoRecords(Cpu, span.timeStart, span.StopOf(1));
    NoRecords(Cpu, span.timeStart, span.StopOf(2));
    NoRecords(Cpu, span.timeStart, span.StopOf(3));
  }

  lemma ZeroQuotient(usage: map<int, Usage>, totals: map<int, int>, share: real)
    requires share > 0.0 && HasFour(usage) && HasFourTotals(totals) && DecayedUsage(usage) == 0.0
    ensures Quotient(usage, totals, share) == 0.0
  {
    hide DecayedUsage, DecayedTotal;
  }

  /** With the plugin switched off a VM's priority is its id, so the queue runs from
      the youngest to the oldest. */
  lemma PluginOffReversesIds(config: Config, pool: map<int, VM>, accounts: seq<Account>, totals: map<int, int>,
                             key: map<int, real>, i: nat, j: nat)
    requires !config.debug && config.arithmetic.BinaryFloat()
    requires forall oid :: oid in pool ==> pool[oid].oid == oid
    requires key == Keys(pool, accounts, totals, config) && key.Keys == pool.Keys
    requires i < j < |PublishedIds(pool, key)|
    ensures PublishedIds(pool, key)[i] > PublishedIds(pool, key)[j]
    ensures forall oid :: oid in pool ==> key[oid] == config.arithmetic.float(oid as real)
  {
    hide PriorityMap.Published, StdMap.Traverse;
    KeysListed(pool);
    PriorityMap.QueueContents(StdMap.Traverse(pool.Keys), key);
    var u, v := PublishedIds(pool, key)[i], PublishedIds(pool, key)[j];
    assert key[u] == config.arithmetic.float(u as real) && key[v] == config.arithmetic.float(v as real);
    assert u <= v ==> config.arithmetic.float(u as real) <= config.arithmetic.float(v as real);
  }
}
