/** What the priority formula guarantees: normalisation, monotone fairness and
    bounded overtaking. */
module Fairness {
  import opened Accounting
  import opened FairShare
  import opened Users
  import StdMap

  // ----- rows of four figures -----

  /** Four figures, nonnegative and nonincreasing, as an evaluation of
      nonnegative loads leaves them (`EvaluationIsRegular`). */
  ghost predicate RegularRow(row: seq<int>) {
    |row| == 4 && row[0] >= row[1] >= row[2] >= row[3] >= 0
  }

  ghost predicate AllRegular(rows: seq<seq<int>>) {
    forall i :: 0 <= i < |rows| ==> RegularRow(rows[i])
  }

  function DecayedRow(row: seq<int>): real
    requires |row| == 4
  {
    Decay(row[0] as real, row[1] as real, row[2] as real, row[3] as real)
  }

  lemma RowEntry(usage: map<int, Usage>, i: int)
    requires 0 <= i < |Row(usage)|
    ensures StdMap.Traverse(usage.Keys)[i] in usage
    ensures Row(usage)[i] == usage[StdMap.Traverse(usage.Keys)[i]].usage
  {
    assert StdMap.Traverse(usage.Keys)[i] in StdMap.Traverse(usage.Keys);
  }

  /** Entries numbered 0 to 3 are read off in that order. */
  lemma RowOfFour(usage: map<int, Usage>)
    requires forall k :: k in usage <==> 0 <= k < 4
    ensures |Row(usage)| == 4
    ensures forall c :: 0 <= c < 4 ==> Row(usage)[c] == usage[c].usage
  {
    hide Row, StdMap.Traverse;
    StdMap.AscendingRange(StdMap.Traverse(usage.Keys), 0, 4);
    forall c | 0 <= c < 4
      ensures Row(usage)[c] == usage[c].usage
    {
      RowEntry(usage, c);
    }
  }

  lemma EvaluationIsRegular(rs: seq<Record>, now: int, managerTimer: int, period: int)
    requires managerTimer * period >= 0 && NonNegative(rs, Cpu)
    ensures var cpu := Entries(rs, Cpu, SpanAt(now, managerTimer, period, 3), 4);
            RegularRow(Row(cpu)) && HasFour(cpu) && DecayedRow(Row(cpu)) == DecayedUsage(cpu)
  {
    hide Row;
    var span := SpanAt(now, managerTimer, period, 3);
    assert span.timeStart <= span.StopOf(3);
    EntriesNonincreasing(rs, Cpu, span, 4, 0, 1);
    EntriesNonincreasing(rs, Cpu, span, 4, 1, 2);
    EntriesNonincreasing(rs, Cpu, span, 4, 2, 3);
    RowOfFour(Entries(rs, Cpu, span, 4));
  }

  // ----- normalisation -----

  /** The totals the running sum aims at. */
  function TrueTotals(rows: seq<seq<int>>): (totals: map<int, int>)
    ensures HasFourTotals(totals)
  {
    map[0 := Accumulated(rows, 0), 1 := Accumulated(rows, 1), 2 := Accumulated(rows, 2), 3 := Accumulated(rows, 3)]
  }

  ghost function TotalDecayed(rows: seq<seq<int>>): real
    requires AllRegular(rows)
  {
    if rows == [] then 0.0 else DecayedRow(rows[0]) + TotalDecayed(rows[1..])
  }

  ghost function RatioSum(rows: seq<seq<int>>, total: real): real
    requires AllRegular(rows)
  {
    if rows == [] then 0.0 else Ratio(DecayedRow(rows[0]), total) + RatioSum(rows[1..], total)
  }

  /** Decay is linear: decaying the sums is summing the decayed figures. */
  lemma {:induction false} DecayIsLinear(rows: seq<seq<int>>)
    requires AllRegular(rows)
    ensures DecayedTotal(TrueTotals(rows)) == TotalDecayed(rows)
  {
    if rows != [] {
      DecayIsLinear(rows[1..]);
    }
  }

  lemma {:induction false} PartOfTotal(rows: seq<seq<int>>, i: nat)
    requires AllRegular(rows) && i < |rows|
    ensures 0.0 <= DecayedRow(rows[i]) <= TotalDecayed(rows)
  {
    NothingDecayedIff(rows[1..]);
    if i > 0 {
      PartOfTotal(rows[1..], i - 1);
    }
  }

  lemma {:induction false} NothingDecayedIff(rows: seq<seq<int>>)
    requires AllRegular(rows)
    ensures TotalDecayed(rows) >= 0.0
    ensures TotalDecayed(rows) == 0.0 <==> forall i :: 0 <= i < |rows| ==> DecayedRow(rows[i]) == 0.0
  {
    if rows != [] {
      var rest := rows[1..];
      NothingDecayedIff(rest);
      assert rows == [rows[0]] + rest;
    }
  }

  lemma RatioOfZero(total: real)
    ensures Ratio(0.0, total) == 0.0
  {
  }

  lemma RatioAdds(x: real, y: real, total: real)
    ensures Ratio(x + y, total) == Ratio(x, total) + Ratio(y, total)
  {
  }

  lemma RatioOfWhole(total: real)
    ensures Ratio(total, total) == if total == 0.0 then 0.0 else 1.0
  {
  }

  lemma RatioIsOneIff(t: real, rest: real)
    requires t != 0.0
    ensures Ratio(t + rest, t) == 1.0 <==> rest == 0.0
  {
  }

  lemma RatioBounds(x: real, total: real)
    requires 0.0 <= x <= total
    ensures 0.0 <= Ratio(x, total) <= 1.0
  {
    if total > 0.0 {
      var r := x / total;
      assert r * total == x;
      assert r > 1.0 ==> r * total > total;
      assert r < 0.0 ==> r * total < 0.0;
    }
  }

  lemma {:induction false} RatiosSum(rows: seq<seq<int>>, total: real)
    requires AllRegular(rows)
    ensures RatioSum(rows, total) == Ratio(TotalDecayed(rows), total)
  {
    hide Ratio, DecayedRow;
    if rows == [] {
      RatioOfZero(total);
    } else {
      RatiosSum(rows[1..], total);
      RatioAdds(DecayedRow(rows[0]), TotalDecayed(rows[1..]), total);
    }
  }

  /** With true totals every usage ratio lies in [0, 1], and together they make
      up one whole as soon as anybody has decayed usage. */
  lemma RatiosNormalised(rows: seq<seq<int>>)
    requires AllRegular(rows)
    ensures var total := DecayedTotal(TrueTotals(rows));
            && (forall i :: 0 <= i < |rows| ==> 0.0 <= Ratio(DecayedRow(rows[i]), total) <= 1.0)
            && RatioSum(rows, total) == if total == 0.0 then 0.0 else 1.0
  {
    hide Ratio, DecayedRow, DecayedTotal, TrueTotals;
    DecayIsLinear(rows);
    var total := TotalDecayed(rows);
    forall i | 0 <= i < |rows|
      ensures 0.0 <= Ratio(DecayedRow(rows[i]), total) <= 1.0
    {
      PartOfTotal(rows, i);
      RatioBounds(DecayedRow(rows[i]), total);
    }
    RatiosSum(rows, total);
    RatioOfWhole(total);
  }

  // ----- the totals as the loops leave them -----

  /** The total every usage is divided by is the first listed user's usage. */
  lemma KeptTotalIsFirstUser(rows: seq<seq<int>>)
    requires AllRegular(rows) && rows != []
    ensures HasFourTotals(KeptTotals(rows))
    ensures DecayedTotal(KeptTotals(rows)) == DecayedRow(rows[0])
  {
    hide KeptTotals;
    KeptIsFirst(rows, 0, 0);
    KeptIsFirst(rows, 1, 0);
    KeptIsFirst(rows, 2, 0);
    KeptIsFirst(rows, 3, 0);
  }

  /** At each index the kept total is the true one exactly when the users after
      the first used nothing there. */
  lemma KeptTotalIsTrueIff(rows: seq<seq<int>>, c: nat)
    requires AllRegular(rows) && rows != [] && c < 4
    ensures c in KeptTotals(rows)
    ensures KeptTotals(rows)[c] == TrueTotals(rows)[c] <==> forall i :: 1 <= i < |rows| ==> rows[i][c] == 0
  {
    hide KeptTotals, Accumulated;
    KeptEqualsAccumulatedIff(rows, c, 0);
    LaterUsersUsedNothingIff(rows, c);
  }

  lemma LaterUsersUsedNothingIff(rows: seq<seq<int>>, c: nat)
    requires AllRegular(rows) && rows != [] && c < 4
    ensures Accumulated(rows[1..], c) == 0 <==> forall i :: 1 <= i < |rows| ==> rows[i][c] == 0
  {
    hide Accumulated;
    var rest := rows[1..];
    NothingAccumulatedIff(rest, c);
    assert rows == [rows[0]] + rest;
  }

  lemma {:induction false} NothingAccumulatedIff(rows: seq<seq<int>>, c: nat)
    requires AllRegular(rows) && c < 4
    ensures Accumulated(rows, c) >= 0
    ensures Accumulated(rows, c) == 0 <==> forall i :: 0 <= i < |rows| ==> rows[i][c] == 0
  {
    if rows != [] {
      var rest := rows[1..];
      NothingAccumulatedIff(rest, c);
      assert rows == [rows[0]] + rest;
    }
  }

  /** Divided by the kept total the ratios add up to what they should, one or, if
      nobody has decayed usage, zero, exactly when nobody but the first listed
      user has decayed usage. */
  lemma KeptRatiosNormalisedIff(rows: seq<seq<int>>)
    requires AllRegular(rows) && rows != []
    ensures HasFourTotals(KeptTotals(rows))
    ensures RatioSum(rows, DecayedTotal(KeptTotals(rows)))
              == (if DecayedTotal(TrueTotals(rows)) == 0.0 then 0.0 else 1.0)
       <==> forall i :: 1 <= i < |rows| ==> DecayedRow(rows[i]) == 0.0
  {
    hide KeptTotals, TrueTotals, DecayedTotal, DecayedRow, RatioSum, TotalDecayed;
    KeptTotalIsFirstUser(rows);
    DecayIsLinear(rows);
    PartOfTotal(rows, 0);
    if DecayedRow(rows[0]) == 0.0 {
      RatiosSum(rows, 0.0);
      TotalStep(rows);
    } else {
      RatiosOfFirst(rows);
    }
    LaterUsersIdleIff(rows);
  }

  lemma RatiosOfFirst(rows: seq<seq<int>>)
    requires AllRegular(rows) && rows != [] && DecayedRow(rows[0]) != 0.0
    ensures RatioSum(rows, DecayedRow(rows[0])) == 1.0 <==> TotalDecayed(rows[1..]) == 0.0
  {
    hide DecayedRow, Ratio, RatioSum, TotalDecayed;
    var t := DecayedRow(rows[0]);
    RatiosSum(rows, t);
    TotalStep(rows);
    RatioIsOneIff(t, TotalDecayed(rows[1..]));
  }

  lemma TotalStep(rows: seq<seq<int>>)
    requires AllRegular(rows) && rows != []
    ensures TotalDecayed(rows) == DecayedRow(rows[0]) + TotalDecayed(rows[1..])
  {
    hide DecayedRow;
  }

  lemma LaterUsersIdleIff(rows: seq<seq<int>>)
    requires AllRegular(rows) && rows != []
    ensures TotalDecayed(rows[1..]) == 0.0 <==> forall i :: 1 <= i < |rows| ==> DecayedRow(rows[i]) == 0.0
  {
    hide DecayedRow;
    var rest := rows[1..];
    NothingDecayedIff(rest);
    assert rows == [rows[0]] + rest;
  }

  /** With an idle first user nobody's usage counts: every exponent is zero. */
  lemma IdleFirstUserDisablesFairShare(rows: seq<seq<int>>, usage: map<int, Usage>, share: real)
    requires AllRegular(rows) && rows != [] && DecayedRow(rows[0]) == 0.0
    requires HasFour(usage) && share > 0.0
    ensures HasFourTotals(KeptTotals(rows)) && Quotient(usage, KeptTotals(rows), share) == 0.0
  {
    hide KeptTotals, DecayedTotal, DecayedRow, DecayedUsage;
    KeptTotalIsFirstUser(rows);
  }

  // ----- the order of scores -----

  lemma ProductMonotone(x: real, y: real, u: real, v: real)
    requires 0.0 <= x <= y && 0.0 <= u <= v
    ensures x * u <= y * v
  {
    assert x * u <= y * u <= y * v;
  }

  lemma ReciprocalAntitone(v: int, w: int)
    requires 0 < v <= w
    ensures 0.0 < 1.0 / w as real <= 1.0 / v as real
  {
    ReciprocalOrder(v as real, w as real);
  }

  lemma ReciprocalOrder(v: real, w: real)
    requires 0.0 < v <= w
    ensures 0.0 < 1.0 / w <= 1.0 / v
  {
    var x, y := 1.0 / v, 1.0 / w;
    assert x * v == 1.0 && y * w == 1.0;
    assert x > 0.0 && y > 0.0;
    assert x * (w - v) >= 0.0;
    assert y > x ==> (y - x) * w > 0.0;
  }

  /** At the same id, less usage per share never ranks lower. */
  lemma LessUsageNeverRanksLower(a: Arithmetic, oid: int, q: real, r: real)
    requires a.Sound() && oid > 0 && q <= r
    ensures Score(a, oid, q) >= Score(a, oid, r)
  {
    hide Score, Factor;
    FactorAntitone(a, oid, oid);
    ProductMonotone(a.pow(r), a.pow(q), Factor(a, oid), Factor(a, oid));
    ScoreOrder(a, oid, q, oid, r);
  }

  /** At the same usage per share, the older VM never ranks lower. */
  lemma OlderNeverRanksLower(a: Arithmetic, v: int, w: int, q: real)
    requires a.Sound() && 0 < v <= w
    ensures Score(a, v, q) >= Score(a, w, q)
  {
    hide Score, Factor;
    FactorAntitone(a, v, w);
    ProductMonotone(a.pow(q), a.pow(q), Factor(a, w), Factor(a, v));
    ScoreOrder(a, v, q, w, q);
  }

  function TwoTo(m: nat): (r: nat)
    ensures r >= 1
  {
    if m == 0 then 1 else 2 * TwoTo(m - 1)
  }

  lemma {:induction false} PowAt(a: Arithmetic, m: nat)
    requires a.HalvingPow()
    ensures a.pow(m as real) * TwoTo(m) as real == 1.0
  {
    if m > 0 {
      PowAt(a, m - 1);
      var x, y := a.pow((m - 1) as real), a.pow(m as real);
      assert x == 2.0 * y;
      var n := TwoTo(m - 1);
      assert TwoTo(m) as real == 2.0 * n as real;
      assert y * (2.0 * n as real) == (2.0 * y) * n as real;
    }
  }

  /** `v` doubled `m` times. */
  function Doubled(v: int, m: nat): (r: int)
    requires v > 0
    ensures r > 0
  {
    if m == 0 then v else 2 * Doubled(v, m - 1)
  }

  lemma DoubledProduct(v: int, n: int)
    ensures v * (2 * n) == 2 * (v * n)
  {
  }

  lemma {:induction false} DoubledIsMultiple(v: int, m: nat)
    requires v > 0
    ensures Doubled(v, m) == v * TwoTo(m)
  {
    if m > 0 {
      DoubledIsMultiple(v, m - 1);
      DoubledProduct(v, TwoTo(m - 1));
    }
  }

  /** Doubling an id halves its factor, rounding included. */
  lemma {:induction false} FactorOfDoubled(a: Arithmetic, v: int, m: nat)
    requires a.BinaryFloat() && v > 0
    ensures Factor(a, v) == TwoTo(m) as real * Factor(a, Doubled(v, m))
  {
    hide Factor, a.BinaryFloat;
    if m > 0 {
      FactorOfDoubled(a, v, m - 1);
      HalfFactor(a, Doubled(v, m - 1));
      MoveFactor(TwoTo(m - 1) as real, TwoTo(m) as real, Factor(a, Doubled(v, m - 1)), Factor(a, Doubled(v, m)));
    }
  }

  lemma HalfFactor(a: Arithmetic, u: int)
    requires a.BinaryFloat() && u > 0
    ensures Factor(a, u) == 2.0 * Factor(a, 2 * u)
  {
    HalfReciprocal(u);
    var x, y := 1.0 / u as real, 1.0 / (2 * u) as real;
    assert x == 2.0 * y;
  }

  lemma FactorAntitone(a: Arithmetic, v: int, w: int)
    requires a.BinaryFloat() && 0 < v <= w
    ensures 0.0 < Factor(a, w) <= Factor(a, v)
  {
    ReciprocalAntitone(v, w);
  }

  lemma HalfReciprocal(u: int)
    requires u > 0
    ensures 1.0 / u as real == 2.0 * (1.0 / (2 * u) as real)
  {
    var r := u as real;
    assert (2 * u) as real == 2.0 * r;
    var y := 1.0 / (2.0 * r);
    assert y * (2.0 * r) == 1.0;
    assert (2.0 * y) * r == 1.0;
    assert 1.0 / r == 2.0 * y;
  }

  /** Each further unit of usage per share counts like a doubled id. */
  lemma UnitOfUsageDoublesId(a: Arithmetic, oid: int, q: real)
    requires a.Sound() && oid > 0
    ensures Score(a, oid, q + 1.0) == Score(a, 2 * oid, q)
  {
    hide Score, Factor;
    HalfFactor(a, oid);
    MoveFactor(a.pow(q + 1.0), a.pow(q), Factor(a, oid), Factor(a, 2 * oid));
    SameWeightSameScore(a, oid, q + 1.0, 2 * oid, q);
  }

  lemma SameWeightSameScore(a: Arithmetic, v: int, q: real, w: int, r: real)
    requires v > 0 && w > 0 && Weight(a, v, q) == Weight(a, w, r)
    ensures Score(a, v, q) == Score(a, w, r)
  {
    hide Weight;
  }

  lemma MoveFactor(p: real, r: real, f: real, g: real)
    requires r == 2.0 * p && f == 2.0 * g
    ensures p * f == r * g
  {
    assert p * (2.0 * g) == (2.0 * p) * g;
  }

  /** Factors by which a usage per share of at most `x` can set a VM back: any `b`
      with `b >= 2^x` if arithmetic is exact, with rounding a power of two. */
  ghost predicate Covers(a: Arithmetic, x: real, b: real) {
    (a.Exact() && a.pow(x) * b >= 1.0) || exists m: nat :: x <= m as real && b == TwoTo(m) as real
  }

  /** Bounded overtaking.  A VM with usage per share at most `x` is not overtaken
      by any VM with an id `b` times as large, whatever that one's usage; in exact
      arithmetic it stands strictly higher as soon as the id is larger still. */
  lemma NotOvertakenFromAfar(a: Arithmetic, v: int, q: real, w: int, r: real, x: real, b: real)
    requires a.Sound() && v > 0 && q <= x && r >= 0.0 && Covers(a, x, b) && w as real >= v as real * b
    ensures w > 0 && Score(a, v, q) >= Score(a, w, r)
    ensures a.Exact() && w as real > v as real * b ==> Score(a, v, q) > Score(a, w, r)
  {
    hide Score, TwoTo;
    if a.Exact() {
      CoversExact(a, x, b);
      ExactFactor(a.pow(q), a.pow(x), b, v, w);
      StandsIff(a, v, q, w);
    } else {
      var m: nat :| x <= m as real && b == TwoTo(m) as real;
      NotOvertakenRounded(a, v, q, w, r, m);
    }
  }

  lemma CoversExact(a: Arithmetic, x: real, b: real)
    requires a.Exact() && Covers(a, x, b)
    ensures a.pow(x) * b >= 1.0
  {
    hide TwoTo;
    if a.pow(x) * b < 1.0 {
      var m: nat :| x <= m as real && b == TwoTo(m) as real;
      PowAt(a, m);
      ProductMonotone(a.pow(m as real), a.pow(x), b, b);
    }
  }

  lemma ExactFactor(p: real, least: real, b: real, v: int, w: int)
    requires p >= least > 0.0 && least * b >= 1.0 && v > 0 && w as real >= v as real * b
    ensures w > 0 && p * w as real >= v as real
    ensures w as real > v as real * b ==> p * w as real > v as real
  {
    var x, reach := v as real, v as real * b;
    Reach(least, b, x);
    LeftFactor(least, p, reach);
    RightFactor(p, reach, w as real);
  }

  lemma Reach(least: real, b: real, x: real)
    requires least > 0.0 && least * b >= 1.0 && x > 0.0
    ensures x * b > 0.0 && least * (x * b) >= x
  {
    var k := least * b;
    assert b <= 0.0 ==> k <= 0.0;
    assert x * b > 0.0;
    assert (k - 1.0) * x >= 0.0;
    assert least * (x * b) == k * x;
  }

  lemma LeftFactor(least: real, p: real, y: real)
    requires least <= p && y > 0.0
    ensures least * y <= p * y
  {
  }

  lemma RightFactor(p: real, y: real, z: real)
    requires p > 0.0 && y <= z
    ensures p * y <= p * z && (y < z ==> p * y < p * z)
  {
  }

  /** The two exact scores compare like `2^-q * w` and `2^-r * v`. */
  lemma ExactOrder(a: Arithmetic, v: int, q: real, w: int, r: real)
    requires a.Exact() && v > 0 && w > 0
    ensures Score(a, v, q) >= Score(a, w, r) <==> a.pow(q) * w as real >= a.pow(r) * v as real
    ensures Score(a, v, q) > Score(a, w, r) <==> a.pow(q) * w as real > a.pow(r) * v as real
  {
    hide Score, a.HalvingPow;
    ExactScore(a, v, q);
    ExactScore(a, w, r);
    CrossMultiply(a.pow(q), v as real, a.pow(r), w as real);
  }

  lemma ExactScore(a: Arithmetic, v: int, q: real)
    requires a.Exact() && v > 0
    ensures Score(a, v, q) == a.pow(q) * (1.0 / v as real) * 1000000000000.0
  {
    hide a.HalvingPow;
  }

  lemma CrossMultiply(p: real, v: real, s: real, w: real)
    requires v > 0.0 && w > 0.0
    ensures p * (1.0 / v) >= s * (1.0 / w) <==> p * w >= s * v
    ensures p * (1.0 / v) > s * (1.0 / w) <==> p * w > s * v
  {
    var x, y, vw := p * (1.0 / v), s * (1.0 / w), v * w;
    assert x * v == p && y * w == s;
    assert x * vw == p * w by {
      assert x * vw == (x * v) * w;
    }
    assert y * vw == s * v by {
      assert y * vw == (y * w) * v;
    }
    assert vw > 0.0;
    assert x > y ==> x * vw > y * vw;
    assert x < y ==> x * vw < y * vw;
  }

  /** In exact arithmetic one VM can count on not being overtaken by another,
      whatever that one's usage, exactly when the ratio of the ids makes up for
      its own usage per share. */
  lemma StandsIff(a: Arithmetic, v: int, q: real, w: int)
    requires a.Exact() && v > 0 && w > 0
    ensures (forall r :: r >= 0.0 ==> Score(a, v, q) >= Score(a, w, r)) <==> a.pow(q) * w as real >= v as real
    ensures (forall r :: r >= 0.0 ==> Score(a, v, q) > Score(a, w, r)) <==> a.pow(q) * w as real > v as real
  {
    hide Score;
    ExactOrder(a, v, q, w, 0.0);
    forall r | r >= 0.0
      ensures a.pow(q) * w as real >= v as real ==> Score(a, v, q) >= Score(a, w, r)
      ensures a.pow(q) * w as real > v as real ==> Score(a, v, q) > Score(a, w, r)
    {
      ExactOrder(a, v, q, w, r);
      ProductMonotone(a.pow(r), 1.0, v as real, v as real);
    }
  }

  /** A usage per share of at most `m` is exactly what keeps a VM from being
      overtaken by VMs with ids `2^m` times as large. */
  lemma FarYoungerNeverOvertakeIff(a: Arithmetic, v: int, q: real, m: nat)
    requires a.Exact() && v > 0
    ensures q <= m as real
       <==> forall w, r :: w > 0 && w >= v * TwoTo(m) && r >= 0.0 ==> Score(a, v, q) >= Score(a, w, r)
  {
    hide Score, TwoTo;
    var b := TwoTo(m) as real;
    if q <= m as real {
      forall w, r | w > 0 && w >= v * TwoTo(m) && r >= 0.0
        ensures Score(a, v, q) >= Score(a, w, r)
      {
        NotOvertakenFromAfar(a, v, q, w, r, m as real, b);
      }
    } else {
      var w := v * TwoTo(m);
      PowAt(a, m);
      TooHeavy(a.pow(q), a.pow(m as real), v, TwoTo(m));
      ExactOrder(a, v, q, w, 0.0);
    }
  }

  lemma TooHeavy(p: real, at: real, v: int, b: nat)
    requires 0.0 < p < at && at * b as real == 1.0 && v > 0 && b >= 1
    ensures v * b > 0 && p * (v * b) as real < v as real
  {
    var x, c := v as real, b as real;
    assert (v * b) as real == x * c;
    assert p * (x * c) == (p * c) * x;
    var y := p * c;
    assert y < at * c;
    assert (1.0 - y) * x > 0.0;
  }

  lemma NotOvertakenRounded(a: Arithmetic, v: int, q: real, w: int, r: real, m: nat)
    requires a.Sound() && v > 0 && q <= m as real && r >= 0.0 && w as real >= v as real * TwoTo(m) as real
    ensures w > 0 && Score(a, v, q) >= Score(a, w, r)
  {
    hide Score, TwoTo, Doubled, Factor, Weight;
    ReachesDoubled(v, w, m);
    FactorOfDoubled(a, v, m);
    FactorAntitone(a, Doubled(v, m), w);
    PowAt(a, m);
    FarWeight(a, v, q, w, r, m);
    ScoreOrder(a, v, q, w, r);
  }

  lemma ReachesDoubled(v: int, w: int, m: nat)
    requires v > 0 && w as real >= v as real * TwoTo(m) as real
    ensures w >= Doubled(v, m)
  {
    hide TwoTo, Doubled;
    DoubledIsMultiple(v, m);
    assert (v * TwoTo(m)) as real == v as real * TwoTo(m) as real;
  }

  lemma FarWeight(a: Arithmetic, v: int, q: real, w: int, r: real, m: nat)
    requires a.Sound() && v > 0 && w > 0 && q <= m as real && r >= 0.0
    requires a.pow(m as real) * TwoTo(m) as real == 1.0
    requires Factor(a, v) == TwoTo(m) as real * Factor(a, Doubled(v, m))
    requires 0.0 < Factor(a, w) <= Factor(a, Doubled(v, m))
    ensures Weight(a, v, q) >= Weight(a, w, r)
  {
    hide TwoTo, Doubled, Factor;
    FarFactor(a.pow(q), a.pow(m as real), TwoTo(m) as real, Factor(a, Doubled(v, m)), a.pow(r), Factor(a, w));
  }

  lemma ScoreOrder(a: Arithmetic, v: int, q: real, w: int, r: real)
    requires a.BinaryFloat() && v > 0 && w > 0
    requires Weight(a, v, q) >= Weight(a, w, r)
    ensures Score(a, v, q) >= Score(a, w, r)
  {
    hide Weight;
  }

  lemma FarFactor(p: real, least: real, b: real, f: real, s: real, g: real)
    requires p >= least && least * b == 1.0 && b > 0.0
    requires 0.0 < s <= 1.0 && 0.0 < g <= f
    ensures p * (b * f) >= s * g
  {
    ProductMonotone(least, p, b * f, b * f);
    assert least * (b * f) == (least * b) * f == f;
    ProductMonotone(s, 1.0, g, f);
  }

  /** With true totals the exponent is at most the reciprocal of the share. */
  lemma ExponentBound(rows: seq<seq<int>>, i: nat, usage: map<int, Usage>, share: real)
    requires AllRegular(rows) && i < |rows| && rows[i] == Row(usage)
    requires HasFour(usage) && DecayedRow(Row(usage)) == DecayedUsage(usage) && share > 0.0
    ensures 0.0 <= Quotient(usage, TrueTotals(rows), share) <= 1.0 / share
  {
    hide Ratio, DecayedRow, DecayedTotal, DecayedUsage, TrueTotals, Row;
    RatiosNormalised(rows);
    QuotientBound(Ratio(DecayedUsage(usage), DecayedTotal(TrueTotals(rows))), share);
  }

  lemma QuotientBound(r: real, s: real)
    requires 0.0 <= r <= 1.0 && s > 0.0
    ensures 0.0 <= r / s <= 1.0 / s
  {
    var q, m := r / s, 1.0 / s;
    assert q * s == r && m * s == 1.0;
    assert q > m ==> q * s > m * s;
    assert q < 0.0 ==> q * s < 0.0;
  }

  /** Divided by the kept total, the exponent is at most `x` exactly when the user's
      decayed usage is at most `x * share` times that of the first listed user, or
      that one is idle. */
  lemma KeptExponentAtMostIff(rows: seq<seq<int>>, usage: map<int, Usage>, share: real, x: real)
    requires AllRegular(rows) && rows != [] && HasFour(usage) && share > 0.0 && x >= 0.0
    ensures HasFourTotals(KeptTotals(rows))
    ensures Quotient(usage, KeptTotals(rows), share) <= x
       <==> DecayedRow(rows[0]) == 0.0 || DecayedUsage(usage) <= x * share * DecayedRow(rows[0])
  {
    hide KeptTotals, DecayedRow, DecayedTotal, DecayedUsage, HasFour, HasFourTotals, TotalDecayed;
    KeptTotalIsFirstUser(rows);
    PartOfTotal(rows, 0);
    if DecayedRow(rows[0]) == 0.0 {
      IdleFirstUserDisablesFairShare(rows, usage, share);
    } else {
      QuotientAtMostIff(DecayedUsage(usage), DecayedRow(rows[0]), share, x);
    }
  }

  lemma QuotientAtMostIff(h: real, t: real, s: real, x: real)
    requires t > 0.0 && s > 0.0
    ensures h / t / s <= x <==> h <= x * s * t
  {
    var r := h / t;
    var q := r / s;
    assert r * t == h && q * s == r;
    assert q <= x ==> q * s <= x * s;
    assert q > x ==> q * s > x * s;
    assert r <= x * s ==> r * t <= (x * s) * t;
    assert r > x * s ==> r * t > (x * s) * t;
  }

  lemma QuotientNonNegative(usage: map<int, Usage>, totals: map<int, int>, share: real)
    requires share > 0.0 && HasFour(usage) && HasFourTotals(totals)
    requires DecayedUsage(usage) >= 0.0 && DecayedTotal(totals) >= 0.0
    ensures Quotient(usage, totals, share) >= 0.0
  {
    hide DecayedUsage, DecayedTotal;
    if DecayedTotal(totals) > 0.0 {
      var r := DecayedUsage(usage) / DecayedTotal(totals);
      assert r >= 0.0;
    }
  }
}
