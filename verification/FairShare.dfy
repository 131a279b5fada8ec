/** The fair-share factor: decayed usage, its normalisation by the total, and
    the priority of a VM (`BasicPlugin.cc`). */
module FairShare {
  import opened Accounting
  import opened Users
  import StdMap

  // ----- machine arithmetic -----

  /** The two rounded operations of the formula: `pow(2, -x)`, and the
      conversion of a double to `float`. */
  datatype Arithmetic = Arithmetic(pow: real -> real, float: real -> real)
  {
    /** `pow` is positive, strictly decreasing, 1 at zero and halves per unit. */
    ghost predicate HalvingPow() {
      && pow(0.0) == 1.0
      && (forall x :: pow(x) > 0.0)
      && (forall x, y :: x < y ==> pow(x) > pow(y))
      && (forall x, y :: y == x + 1.0 ==> pow(x) == 2.0 * pow(y))
    }

    /** `float` is monotone, keeps positive values positive and is exact for a
        change of the binary exponent. */
    ghost predicate BinaryFloat() {
      && (forall x, y :: x <= y ==> float(x) <= float(y))
      && (forall x :: x > 0.0 ==> float(x) > 0.0)
      && (forall x, y :: x == 2.0 * y ==> float(x) == 2.0 * float(y))
    }

    ghost predicate Sound() {
      HalvingPow() && BinaryFloat()
    }

    /** No rounding at all. */
    ghost predicate Exact() {
      HalvingPow() && forall x :: float(x) == x
    }
  }

  /** Powers of two with integer exponents; between them a straight line. */
  function Halving(n: int): real
    decreases if n < 0 then -n else n
  {
    if n == 0 then 1.0 else if n > 0 then Halving(n - 1) / 2.0 else 2.0 * Halving(n + 1)
  }

  function HalvingLine(x: real): real {
    Line(Halving(x.Floor), 1.0 - (x - x.Floor as real) / 2.0)
  }

  function Line(h: real, u: real): real {
    h * u
  }

  lemma {:induction false} HalvingStep(n: int)
    ensures Halving(n) > 0.0 && Halving(n) == 2.0 * Halving(n + 1)
    decreases if n < 0 then -n else n
  {
    if n > 0 {
      HalvingStep(n - 1);
    } else if n < 0 {
      HalvingStep(n + 1);
    }
  }

  lemma {:induction false} HalvingDecreases(m: int, n: int)
    requires m <= n
    ensures 0.0 < Halving(n) <= Halving(m)
    decreases n - m
  {
    HalvingStep(n);
    if m < n {
      HalvingDecreases(m, n - 1);
      HalvingStep(n - 1);
    }
  }

  lemma HalvingLineDecreases(x: real, y: real)
    requires x < y
    ensures HalvingLine(x) > HalvingLine(y) > 0.0
  {
    hide Halving, Line;
    var m, n := x.Floor, y.Floor;
    HalvingDecreases(m, n);
    HalvingStep(m);
    if m < n {
      HalvingDecreases(m + 1, n);
    }
    LineOrder(Halving(m), 1.0 - (x - m as real) / 2.0, Halving(n), 1.0 - (y - n as real) / 2.0);
  }

  lemma LineOrder(h: real, u: real, k: real, v: real)
    requires h > 0.0 && k > 0.0 && 0.5 < u <= 1.0 && 0.5 < v <= 1.0
    requires (h == k && u > v) || k <= h / 2.0
    ensures Line(h, u) > Line(k, v) > 0.0
  {
    hide Line;
    LineValues(h, u);
    LineValues(k, v);
    if h == k && u > v {
      LineFalls(h, u, v);
    }
  }

  lemma LineFalls(h: real, u: real, v: real)
    requires h > 0.0 && u > v
    ensures Line(h, u) > Line(h, v)
  {
    assert h * (u - v) > 0.0;
  }

  lemma LineValues(h: real, u: real)
    requires h > 0.0 && 0.5 < u <= 1.0
    ensures h / 2.0 < Line(h, u) <= h
  {
    assert h * 0.5 < h * u <= h * 1.0;
  }

  lemma OneAtZero()
    ensures HalvingLine(0.0) == 1.0
  {
  }

  /** Such arithmetic exists: exact numbers with a broken line for the power. */
  lemma ExactArithmeticExists() returns (a: Arithmetic)
    ensures a.Exact() && a.Sound()
  {
    hide Halving, Line;
    a := Arithmetic(x => HalvingLine(x), x => x);
    OneAtZero();
    forall x
      ensures a.pow(x) > 0.0
    {
      HalvingLineDecreases(x, x + 1.0);
      HalvingLineDecreases(x - 1.0, x);
    }
    forall x, y | x < y
      ensures a.pow(x) > a.pow(y)
    {
      HalvingLineDecreases(x, y);
    }
    forall x, y | y == x + 1.0
      ensures a.pow(x) == 2.0 * a.pow(y)
    {
      assert y.Floor == x.Floor + 1;
      HalvingStep(x.Floor);
      HalfOfProduct(Halving(x.Floor), Halving(y.Floor), 1.0 - (x - x.Floor as real) / 2.0);
    }
  }

  lemma HalfOfProduct(h: real, k: real, u: real)
    requires h == 2.0 * k
    ensures Line(h, u) == 2.0 * Line(k, u)
  {
    assert (2.0 * k) * u == 2.0 * (k * u);
  }

  // ----- decayed usage -----

  /** Newest period in full, the next at half, the next at a quarter. */
  function Decay(c0: real, c1: real, c2: real, c3: real): real {
    (c0 - c1) + 0.5 * (c1 - c2) + 0.25 * (c2 - c3)
  }

  predicate HasFour(usage: map<int, Usage>) {
    0 in usage && 1 in usage && 2 in usage && 3 in usage
  }

  function DecayedUsage(usage: map<int, Usage>): real
    requires HasFour(usage)
  {
    Decay(usage[0].usage as real, usage[1].usage as real, usage[2].usage as real, usage[3].usage as real)
  }

  predicate HasFourTotals(totals: map<int, int>) {
    0 in totals && 1 in totals && 2 in totals && 3 in totals
  }

  function DecayedTotal(totals: map<int, int>): real
    requires HasFourTotals(totals)
  {
    Decay(totals[0] as real, totals[1] as real, totals[2] as real, totals[3] as real)
  }

  // ----- slots of the accounting window -----

  /** Slot `k` counts back from now: `[now - (k + 1) * period, now - k * period)`. */
  ghost function Slot(rs: seq<Record>, what: Resource, now: int, period: int, k: int): real {
    WindowUsage(rs, what, now - (k + 1) * period, now - k * period)
  }

  ghost function SlotsFrom(rs: seq<Record>, what: Resource, now: int, period: int, k: nat, n: nat): real
    decreases n - k
  {
    if k >= n then 0.0 else Slot(rs, what, now, period, k) + SlotsFrom(rs, what, now, period, k + 1, n)
  }

  /** The span the priority manager asks for. */
  function SpanAt(now: int, managerTimer: int, period: int, nPeriods: int): Span {
    Span(now - managerTimer * period * (nPeriods + 1), now, managerTimer * period)
  }

  /** The slots tile the span: cumulative entry `k` is the sum of slots `k`, `k + 1`, ... */
  lemma {:induction false} SuffixSums(rs: seq<Record>, what: Resource, now: int, managerTimer: int, period: int,
                                      nPeriods: nat, k: nat)
    requires managerTimer * period >= 0 && k <= nPeriods + 1
    ensures Cumulative(rs, what, SpanAt(now, managerTimer, period, nPeriods), k)
         == SlotsFrom(rs, what, now, managerTimer * period, k, nPeriods + 1)
    decreases nPeriods + 1 - k
  {
    var p, n := managerTimer * period, nPeriods + 1;
    if k < n {
      SuffixSums(rs, what, now, managerTimer, period, nPeriods, k + 1);
      Ordered(p, k + 1, n);
      assert k * p <= (k + 1) * p;
      WindowsAdd(rs, what, now - p * n, now - (k + 1) * p, now - k * p);
    } else {
      assert k * p == p * n;
    }
  }

  lemma Ordered(p: nat, k: nat, n: nat)
    requires k <= n
    ensures k * p <= p * n
  {
  }

  ghost function WeightedSlots(rs: seq<Record>, what: Resource, now: int, period: int): real {
    Slot(rs, what, now, period, 0) + 0.5 * Slot(rs, what, now, period, 1) + 0.25 * Slot(rs, what, now, period, 2)
  }

  /** With three periods the decayed usage weighs the three newest slots 1, 1/2
      and 1/4; the oldest slot cancels out. */
  lemma DecayedIsWeightedSlots(rs: seq<Record>, what: Resource, now: int, managerTimer: int, period: int)
    requires managerTimer * period >= 0
    ensures var span := SpanAt(now, managerTimer, period, 3);
            Decay(Cumulative(rs, what, span, 0), Cumulative(rs, what, span, 1),
                  Cumulative(rs, what, span, 2), Cumulative(rs, what, span, 3))
            == WeightedSlots(rs, what, now, managerTimer * period)
  {
    var p := managerTimer * period;
    SuffixSums(rs, what, now, managerTimer, period, 3, 0);
    SuffixSums(rs, what, now, managerTimer, period, 3, 1);
    SuffixSums(rs, what, now, managerTimer, period, 3, 2);
    SuffixSums(rs, what, now, managerTimer, period, 3, 3);
    assert SlotsFrom(rs, what, now, p, 3, 4) == Slot(rs, what, now, p, 3) + SlotsFrom(rs, what, now, p, 4, 4);
  }

  // ----- truncation -----

  lemma TruncateMonotone(x: real, y: real)
    requires x <= y
    ensures Truncate(x) <= Truncate(y)
  {
  }

  lemma {:induction false} EntriesNonincreasing(rs: seq<Record>, what: Resource, span: Span, n: int, j: int, k: int)
    requires NonNegative(rs, what) && span.period >= 0 && 0 <= j <= k < n
    requires span.timeStart <= span.StopOf(k)
    ensures 0 <= Entries(rs, what, span, n)[k].usage <= Entries(rs, what, span, n)[j].usage
  {
    var lo, mid, hi := span.timeStart, span.StopOf(k), span.StopOf(j);
    assert mid <= hi by {
      assert j * span.period <= k * span.period;
    }
    WindowsAdd(rs, what, lo, mid, hi);
    WindowNonNegative(rs, what, mid, hi);
    WindowNonNegative(rs, what, lo, mid);
    TruncateMonotone(Cumulative(rs, what, span, k), Cumulative(rs, what, span, j));
  }

  /** Storing whole seconds never makes the decayed usage negative and moves it
      by less than one. */
  lemma TruncationBound(rs: seq<Record>, what: Resource, now: int, managerTimer: int, period: int)
    requires NonNegative(rs, what) && managerTimer * period >= 0
    ensures var entries := Entries(rs, what, SpanAt(now, managerTimer, period, 3), 4);
            var exact := WeightedSlots(rs, what, now, managerTimer * period);
            DecayedUsage(entries) >= 0.0 && exact - 1.0 < DecayedUsage(entries) < exact + 1.0
  {
    var span, p := SpanAt(now, managerTimer, period, 3), managerTimer * period;
    DecayedIsWeightedSlots(rs, what, now, managerTimer, period);
    assert span.timeStart <= span.StopOf(3);
    EntriesNonincreasing(rs, what, span, 4, 0, 1);
    EntriesNonincreasing(rs, what, span, 4, 1, 2);
    EntriesNonincreasing(rs, what, span, 4, 2, 3);
    forall k | 0 <= k < 4
      ensures Cumulative(rs, what, span, k) >= 0.0
    {
      WindowNonNegative(rs, what, span.timeStart, span.StopOf(k));
    }
  }

  // ----- totals -----

  /** The usage figures of one user in entry order. */
  function Row(usage: map<int, Usage>): (row: seq<int>)
    ensures |row| == |usage|
  {
    var keys := StdMap.Traverse(usage.Keys);
    seq(|keys|, i requires 0 <= i < |keys| => assert keys[i] in keys; usage[keys[i]].usage)
  }

  function CpuRows(accounts: seq<Account>): (rows: seq<seq<int>>)
    ensures |rows| == |accounts|
    ensures forall i :: 0 <= i < |rows| ==> rows[i] == Row(accounts[i].cpu)
  {
    seq(|accounts|, i requires 0 <= i < |accounts| => Row(accounts[i].cpu))
  }

  function MemoryRows(accounts: seq<Account>): (rows: seq<seq<int>>)
    ensures |rows| == |accounts|
    ensures forall i :: 0 <= i < |rows| ==> rows[i] == Row(accounts[i].memory)
  {
    seq(|accounts|, i requires 0 <= i < |accounts| => Row(accounts[i].memory))
  }

  /** One user's row inserted into the totals. */
  function Merge(totals: map<int, int>, row: seq<int>): map<int, int> {
    totals + map c | 0 <= c < |row| && c !in totals :: row[c]
  }

  /** What the loops leave in the totals: the first figure met at an index stays. */
  function KeptTotals(rows: seq<seq<int>>): map<int, int> {
    if rows == [] then map[] else Merge(KeptTotals(rows[..|rows| - 1]), rows[|rows| - 1])
  }

  lemma KeptNone()
    ensures KeptTotals([]) == map[]
  {
  }

  lemma KeptStep(rows: seq<seq<int>>, i: nat)
    requires i < |rows|
    ensures KeptTotals(rows[..i + 1]) == Merge(KeptTotals(rows[..i]), rows[i])
  {
    assert rows[..i + 1][..i] == rows[..i];
  }

  /** What the running sum in the loops aims at. */
  function Accumulated(rows: seq<seq<int>>, c: nat): int {
    if rows == [] then 0 else
      (if c < |rows[0]| then rows[0][c] else 0) + Accumulated(rows[1..], c)
  }

  predicate IsFirstWith(rows: seq<seq<int>>, c: nat, i: nat) {
    i < |rows| && c < |rows[i]| && forall j :: 0 <= j < i ==> |rows[j]| <= c
  }

  /** The kept total at an index is the figure of the first user that has one. */
  lemma {:induction false} KeptIsFirst(rows: seq<seq<int>>, c: nat, i: nat)
    requires IsFirstWith(rows, c, i)
    ensures c in KeptTotals(rows) && KeptTotals(rows)[c] == rows[i][c]
  {
    var front := rows[..|rows| - 1];
    if i < |front| {
      KeptIsFirst(front, c, i);
    } else {
      NotKept(front, c);
    }
  }

  lemma {:induction false} NotKept(rows: seq<seq<int>>, c: int)
    requires forall j :: 0 <= j < |rows| ==> |rows[j]| <= c
    ensures c !in KeptTotals(rows)
  {
    if rows != [] {
      NotKept(rows[..|rows| - 1], c);
    }
  }

  lemma {:induction false} AccumulatedFrom(rows: seq<seq<int>>, c: nat, i: nat)
    requires IsFirstWith(rows, c, i)
    ensures Accumulated(rows, c) == rows[i][c] + Accumulated(rows[i + 1..], c)
  {
    if i > 0 {
      AccumulatedFrom(rows[1..], c, i - 1);
      assert rows[1..][i..] == rows[i + 1..];
    }
  }

  /** The kept total is the sum exactly when the later users' figures cancel out. */
  lemma KeptEqualsAccumulatedIff(rows: seq<seq<int>>, c: nat, i: nat)
    requires IsFirstWith(rows, c, i)
    ensures c in KeptTotals(rows)
    ensures KeptTotals(rows)[c] == Accumulated(rows, c) <==> Accumulated(rows[i + 1..], c) == 0
  {
    KeptIsFirst(rows, c, i);
    AccumulatedFrom(rows, c, i);
  }

  class BasicPlugin {
    var totCpu: map<int, int>
    var totMem: map<int, int>

    constructor ()
      ensures totCpu == map[] && totMem == map[]
    {
      totCpu, totMem := map[], map[];
    }

    /** The user list is passed by value. */
    method EvaluateTotalUsage(users: seq<Account>) returns (ok: bool)
      modifies this
      ensures ok
      ensures totCpu == KeptTotals(CpuRows(users)) && totMem == KeptTotals(MemoryRows(users))
    {
      hide Row, Merge, KeptTotals, CpuRows, MemoryRows;
      KeptNone();
      totCpu, totMem := map[], map[];
      ghost var cpuRows, memoryRows := CpuRows(users), MemoryRows(users);
      for i := 0 to |users|
        invariant cpuRows[..0] == memoryRows[..0] == []
        invariant totCpu == KeptTotals(cpuRows[..i])
        invariant totMem == KeptTotals(memoryRows[..i])
      {
        KeptStep(cpuRows, i);
        KeptStep(memoryRows, i);
        totCpu := AddUser(totCpu, Row(users[i].cpu));
        totMem := AddUser(totMem, Row(users[i].memory));
      }
      assert cpuRows[..|users|] == cpuRows && memoryRows[..|users|] == memoryRows;
      ok := true;
    }

    /** The loop over one user's entries; the running sum `tmp` is lost whenever
        the index is already present. */
    static method AddUser(totals: map<int, int>, row: seq<int>) returns (r: map<int, int>)
      ensures r == Merge(totals, row)
    {
      r := totals;
      for count := 0 to |row|
        invariant r == Merge(totals, row[..count])
      {
        var tmp := if count in r then r[count] + row[count] else row[count];
        r := StdMap.Insert(r, count, tmp);
      }
    }

    /** The priority of one VM, as a double. */
    function UpdatePrio(a: Arithmetic, oid: int, usage: map<int, Usage>, share: real, debug: bool): real
      requires debug ==> oid > 0 && share > 0.0 && HasFour(usage) && HasFourTotals(totCpu)
      reads this
    {
      Prio(a, oid, usage, totCpu, share, debug)
    }
  }

  // ----- the priority -----

  function Ratio(usage: real, total: real): real {
    if total == 0.0 then 0.0 else usage / total
  }

  /** Usage share over configured share: the exponent of the factor. */
  function Quotient(usage: map<int, Usage>, totals: map<int, int>, share: real): real
    requires share > 0.0 && HasFour(usage) && HasFourTotals(totals)
  {
    Ratio(DecayedUsage(usage), DecayedTotal(totals)) / share
  }

  /** The reciprocal of an id, rounded to `float`. */
  function Factor(a: Arithmetic, oid: int): real
    requires oid > 0
  {
    a.float(1.0 / oid as real)
  }

  /** The fair-share factor times the id factor. */
  function Weight(a: Arithmetic, oid: int, q: real): real
    requires oid > 0
  {
    a.pow(q) * Factor(a, oid)
  }

  /** `update_prio`: without the plugin flag simply the VM id. */
  function Prio(a: Arithmetic, oid: int, usage: map<int, Usage>, totals: map<int, int>, share: real, debug: bool): real
    requires debug ==> oid > 0 && share > 0.0 && HasFour(usage) && HasFourTotals(totals)
  {
    if !debug then oid as real
    else Weight(a, oid, Quotient(usage, totals, share)) * 1000000000000.0
  }

  /** The map key of a VM with exponent `q`: the priority rounded to `float`. */
  function Score(a: Arithmetic, oid: int, q: real): real
    requires oid > 0
  {
    a.float(Weight(a, oid, q) * 1000000000000.0)
  }
}
