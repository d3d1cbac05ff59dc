/** The scheduler's cycle accounts: the proportional budget split, the report loop, and how often it reports. */
module Accounting {
  import opened Words
  import opened Sums

  const DPA_FREQ_HZ: nat := 1_800_000_000
  const BUDGET: nat := 1_800_000    // DPA_FREQ_HZ / 1000: one millisecond of one core

  // ---- the budget split of sch_ctx_init ----

  /** A tenant's proportional share, rounded down. */
  function Share(weight: nat, total: nat): nat
    requires total > 0
  {
    (BUDGET * weight) / total
  }

  function Shares(weights: seq<nat>, total: nat): (r: seq<nat>)
    requires total > 0
    ensures |r| == |weights|
  {
    seq(|weights|, k requires 0 <= k < |weights| => Share(weights[k], total))
  }

  lemma ShareBounds(weight: nat, total: nat)
    requires total > 0
    ensures Share(weight, total) * total <= BUDGET * weight < (Share(weight, total) + 1) * total
  {
    var x := BUDGET * weight;
    assert x == total * (x / total) + x % total;
  }

  lemma AddProducts(x: nat, y: nat, n: nat)
    ensures (x + y) * n == x * n + y * n
  {
  }

  /** Rounding down loses less than one cycle per tenant. */
  lemma {:induction false} SharesBounds(weights: seq<nat>, total: nat)
    requires total > 0
    ensures Sum(Shares(weights, total)) * total <= BUDGET * Sum(weights)
    ensures weights != [] ==> BUDGET * Sum(weights) < (Sum(Shares(weights, total)) + |weights|) * total
  {
    if weights != [] {
      var n := |weights| - 1;
      var rest, s := Sum(Shares(weights[..n], total)), Share(weights[n], total);
      SharesBounds(weights[..n], total);
      ShareBounds(weights[n], total);
      assert Shares(weights, total)[..n] == Shares(weights[..n], total);
      AddProducts(rest, s, total);
      AddProducts(rest + n, s + 1, total);
    }
  }

  /** The running remainder never underflows: no prefix of the shares exceeds the budget. */
  lemma PrefixFits(weights: seq<nat>, k: nat)
    requires Sum(weights) > 0 && k <= |weights|
    ensures Sum(Shares(weights, Sum(weights))[..k]) <= BUDGET
  {
    var total := Sum(weights);
    assert Shares(weights, total)[..k] == Shares(weights[..k], total);
    SharesBounds(weights[..k], total);
    SumPrefixGrows(weights, k);
    CancelMul(Sum(Shares(weights[..k], total)), BUDGET, total);
  }

  /** The targets the split has to reach. */
  ghost predicate Split(weights: seq<nat>, target: seq<nat>) {
    && |target| == |weights|
    && (weights == [] || Sum(weights) == 0 ==> forall t | 0 <= t < |target| :: target[t] == 0)
    && (Sum(weights) > 0 ==>
          && Sum(target) == BUDGET
          && forall t | 0 <= t < |weights| - 1 :: target[t] == Share(weights[t], Sum(weights)))
  }

  /** The last tenant gets its exact share and less than a cycle for each other tenant's rounding. */
  lemma LastTargetExcess(weights: seq<nat>, target: seq<nat>)
    requires Split(weights, target) && Sum(weights) > 0
    ensures var n, total := |weights| - 1, Sum(weights);
            && n >= 0
            && BUDGET * weights[n] <= target[n] * total
            && (if n == 0 then target[n] == BUDGET else target[n] * total < BUDGET * weights[n] + n * total)
  {
    var n, total := |weights| - 1, Sum(weights);
    var shares := Shares(weights[..n], total);
    assert target[..n] == shares;
    SharesBounds(weights[..n], total);
    Remainder(total, Sum(shares), Sum(weights[..n]), weights[n], target[n], n);
  }

  lemma Remainder(total: nat, given: nat, others: nat, weight: nat, last: nat, n: nat)
    requires total == others + weight && given + last == BUDGET
    requires given * total <= BUDGET * others && (n > 0 ==> BUDGET * others < (given + n) * total)
    ensures BUDGET * weight <= last * total
    ensures n > 0 ==> last * total < BUDGET * weight + n * total
  {
    assert (given + last) * total == given * total + last * total;
    assert (given + n) * total == given * total + n * total;
  }

  /** The products and the sum of the weights fit their 64-bit words, whatever the 32-bit weights are. */
  lemma NoOverflow(weights: seq<nat>, k: nat)
    requires |weights| < WORD32 && k < |weights| && forall t | 0 <= t < |weights| :: weights[t] < WORD32
    ensures Sum(weights[..k]) + weights[k] < WORD64
    ensures BUDGET * weights[k] < WORD64
  {
    SumBound(weights[..k + 1], WORD32 - 1);
    SumPrefix(weights, k);
    MulMonotone(k + 1, WORD32 - 1, WORD32 - 1);
  }

  /** The budget part of sch_ctx_init, in 64-bit words. */
  method SplitBudget(n: nat, weights: array<nat>, used: array<nat>, target: array<nat>)
    requires n <= weights.Length && n <= used.Length && n <= target.Length && n < WORD32
    requires forall t | 0 <= t < n :: weights[t] < WORD32
    requires weights != used && weights != target && used != target
    modifies used, target
    ensures forall t | 0 <= t < n :: used[t] == 0
    ensures Split(weights[..n], target[..n])
    ensures Sum(weights[..n]) > 0 ==> Sum(target[..n]) == 1_800_000
    ensures used[n..] == old(used[n..]) && target[n..] == old(target[n..])
  {
    ghost var w := weights[..n];
    var totalWeight := 0;
    for t := 0 to n
      invariant totalWeight == Sum(w[..t])
      invariant forall k | 0 <= k < t :: used[k] == 0 && target[k] == 0
      invariant used[n..] == old(used[n..]) && target[n..] == old(target[n..])
    {
      NoOverflow(w, t);
      SumPrefix(w, t);
      totalWeight := (totalWeight + weights[t]) % WORD64;
      used[t], target[t] := 0, 0;
    }
    assert w[..n] == w;
    if n > 0 && totalWeight > 0 {
      AssignTargets(n, weights, target, totalWeight);
    } else if n == 0 {
      assert w == [];
    }
  }

  /** One turn of the split: the product does not wrap, and the remainder covers the share. */
  lemma ShareStep(weights: seq<nat>, t: nat)
    requires |weights| < WORD32 && t < |weights| && forall k | 0 <= k < |weights| :: weights[k] < WORD32
    requires Sum(weights) > 0
    ensures var total, shares := Sum(weights), Shares(weights, Sum(weights));
            && ((BUDGET * weights[t]) % WORD64) / total == shares[t]
            && Sum(shares[..t + 1]) == Sum(shares[..t]) + shares[t] <= BUDGET
  {
    hide Sum;
    NoOverflow(weights, t);
    Fits64(BUDGET * weights[t]);
    PrefixFits(weights, t + 1);
    SumPrefix(Shares(weights, Sum(weights)), t);
  }

  lemma Fits64(x: nat)
    requires x < WORD64
    ensures x % WORD64 == x
  {
  }

  method AssignTargets(n: nat, weights: array<nat>, target: array<nat>, totalWeight: nat)
    requires 0 < n <= weights.Length && n <= target.Length && n < WORD32 && weights != target
    requires forall t | 0 <= t < n :: weights[t] < WORD32
    requires totalWeight == Sum(weights[..n]) && totalWeight > 0
    modifies target
    ensures Split(weights[..n], target[..n])
    ensures target[n..] == old(target[n..])
  {
    ghost var w := weights[..n];
    ghost var shares := Shares(w, totalWeight);
    var remaining: nat := DPA_FREQ_HZ / 1000;
    assert Sum(shares[..0]) == 0;
    hide Sum, Share;
    for t := 0 to n
      invariant forall k | 0 <= k < t && k < n - 1 :: target[k] == shares[k]
      invariant t < n ==> remaining == BUDGET - Sum(shares[..t])
      invariant t == n ==> target[n - 1] == BUDGET - Sum(shares[..n - 1])
      invariant target[n..] == old(target[n..])
    {
      if t == n - 1 {
        target[t] := remaining;
      } else {
        var share := ((BUDGET * weights[t]) % WORD64) / totalWeight;
        ShareStep(w, t);
        remaining := (remaining + (WORD64 - share)) % WORD64;
        target[t] := share;
      }
    }
    assert target[..n] == shares[..n - 1] + [target[n - 1]];
    SumSnoc(shares[..n - 1], target[n - 1]);
  }

  // ---- the report loop ----

  /** The cycles of the queues j with j % tenants == t. */
  function TenantTotal(cycles: seq<nat>, tenants: nat, t: nat): nat
    requires tenants > 0
  {
    if cycles == [] then 0
    else
      var j := |cycles| - 1;
      TenantTotal(cycles[..j], tenants, t) + if j % tenants == t then cycles[j] else 0
  }

  /** The tenants' totals add up to the cycles of all queues. */
  lemma {:induction false} TotalsPartition(cycles: seq<nat>, tenants: nat)
    requires tenants > 0
    ensures Sum(seq(tenants, t requires 0 <= t < tenants => TenantTotal(cycles, tenants, t))) == Sum(cycles)
  {
    var totals := seq(tenants, t requires 0 <= t < tenants => TenantTotal(cycles, tenants, t));
    if cycles == [] {
      assert totals == seq(tenants, _ => 0);
      SumZeros(tenants);
    } else {
      var j := |cycles| - 1;
      var before := seq(tenants, t requires 0 <= t < tenants => TenantTotal(cycles[..j], tenants, t));
      TotalsPartition(cycles[..j], tenants);
      assert totals == before[j % tenants := before[j % tenants] + cycles[j]];
      SumUpdate(before, j % tenants, before[j % tenants] + cycles[j]);
    }
  }

  /** tenant_cycle_used[j % tenants] += cycles, in a 64-bit word. */
  function Charge(used: seq<nat>, j: nat, cycles: nat): (r: seq<nat>)
    requires |used| > 0
    ensures |r| == |used|
  {
    used[j % |used| := (used[j % |used|] + cycles) % WORD64]
  }

  /** `used` holds what the queues' drained cycles, in queue order, charge each tenant with. */
  ghost predicate Charged(used: seq<nat>, cycles: seq<nat>) {
    forall t | 0 <= t < |used| :: used[t] == TenantTotal(cycles, |used|, t) % WORD64
  }

  lemma TenantTotalStep(cycles: seq<nat>, c: nat, tenants: nat, t: nat)
    requires tenants > 0
    ensures TenantTotal(cycles + [c], tenants, t)
            == TenantTotal(cycles, tenants, t) + if |cycles| % tenants == t then c else 0
  {
    assert (cycles + [c])[..|cycles|] == cycles;
  }

  lemma AddWraps64(x: nat, y: nat)
    ensures (x % WORD64 + y) % WORD64 == (x + y) % WORD64
  {
    DivModUnique(x + y, WORD64, x / WORD64 + (x % WORD64 + y) / WORD64, (x % WORD64 + y) % WORD64);
  }

  /** Draining one more queue charges its tenant, and only it. */
  lemma ChargeKeeps(used: seq<nat>, cycles: seq<nat>, c: nat)
    requires |used| > 0 && Charged(used, cycles)
    ensures Charged(Charge(used, |cycles|, c), cycles + [c])
  {
    forall t | 0 <= t < |used|
      ensures Charge(used, |cycles|, c)[t] == TenantTotal(cycles + [c], |used|, t) % WORD64
    {
      TenantTotalStep(cycles, c, |used|, t);
      AddWraps64(TenantTotal(cycles, |used|, t), c);
    }
  }

  lemma {:induction false} SumWraps(xs: seq<nat>, ys: seq<nat>)
    requires |xs| == |ys| && forall k | 0 <= k < |xs| :: ys[k] == xs[k] % WORD64
    ensures Sum(ys) <= Sum(xs) && (Sum(xs) - Sum(ys)) % WORD64 == 0
  {
    if xs != [] {
      var n := |xs| - 1;
      SumWraps(xs[..n], ys[..n]);
      var q := (Sum(xs[..n]) - Sum(ys[..n])) / WORD64;
      DivModUnique(Sum(xs) - Sum(ys), WORD64, q + xs[n] / WORD64, 0);
    }
  }

  /** The charges add up to the drained cycles, up to 64-bit wraps, and exactly while those fit a word. */
  lemma ChargesAddUp(used: seq<nat>, cycles: seq<nat>)
    requires |used| > 0 && Charged(used, cycles)
    ensures (Sum(cycles) - Sum(used)) % WORD64 == 0
    ensures Sum(cycles) < WORD64 ==> Sum(used) == Sum(cycles)
  {
    TotalsPartition(cycles, |used|);
    SumWraps(seq(|used|, t requires 0 <= t < |used| => TenantTotal(cycles, |used|, t)), used);
  }

  /** One report: clear the tenants, then drain each queue's counter into its tenant. */
  method Report(first: nat, queues: nat, tenants: nat, busy: array<nat>, used: array<nat>)
    requires first + queues <= busy.Length && 0 < tenants <= used.Length && busy != used
    modifies busy, used
    ensures Charged(used[..tenants], old(busy[first..first + queues]))
    ensures forall k | 0 <= k < busy.Length :: busy[k] == if first <= k < first + queues then 0 else old(busy[k])
    ensures used[tenants..] == old(used[tenants..])
  {
    ghost var cycles := busy[first..first + queues];
    for t := 0 to tenants
      invariant forall k | 0 <= k < t :: used[k] == 0
      invariant busy[..] == old(busy[..])
      invariant used[tenants..] == old(used[tenants..])
    {
      used[t] := 0;
    }
    assert cycles[..0] == [];
    for j := 0 to queues
      invariant Charged(used[..tenants], cycles[..j])
      invariant forall k | 0 <= k < busy.Length :: busy[k] == if first <= k < first + j then 0 else old(busy[k])
      invariant used[tenants..] == old(used[tenants..])
    {
      var tenantId := j % tenants;
      var threadCycles := busy[first + j];
      busy[first + j] := 0;
      assert cycles[..j + 1] == cycles[..j] + [threadCycles];
      ChargeKeeps(used[..tenants], cycles[..j], threadCycles);
      ghost var before := used[..tenants];
      used[tenantId] := (used[tenantId] + threadCycles) % WORD64;
      assert used[..tenants] == Charge(before, j, threadCycles);
    }
    assert cycles[..queues] == cycles;
  }

  // ---- how often one activation reports ----

  const ACTIVATION_S: nat := 15   // time_interval

  /** s * DPA_FREQ_HZ. */
  function Seconds(s: nat): nat {
    s * 1_800_000_000
  }

  predicate Monotone(clock: seq<nat>) {
    forall a, b | 0 <= a <= b < |clock| :: clock[a] <= clock[b]
  }

  /** The times of the reports from the k-th clock reading on: `next` is the next report's due time, and the loop test
      sees the reading before the one the iteration makes. */
  function ReportsFrom(clock: seq<nat>, k: nat, next: nat, stop: nat): seq<nat>
    requires 1 <= k <= |clock|
    decreases |clock| - k
  {
    if k == |clock| || clock[k - 1] >= stop then []
    else if clock[k] >= next then [clock[k]] + ReportsFrom(clock, k + 1, clock[k] + DPA_FREQ_HZ, stop)
    else ReportsFrom(clock, k + 1, next, stop)
  }

  /** Reports not due before `next`, an interval apart, and only the last of them after the activation's end. */
  ghost predicate Spaced(r: seq<nat>, next: nat, stop: nat) {
    && (forall a | 0 <= a < |r| :: r[a] >= next + Seconds(a))
    && (forall a | 0 <= a < |r| - 1 :: r[a] < stop && r[a + 1] >= r[a] + 1_800_000_000)
  }

  lemma SpacedCons(t: nat, rest: seq<nat>, next: nat, stop: nat)
    requires t >= next && Spaced(rest, t + DPA_FREQ_HZ, stop) && (rest != [] ==> t < stop)
    ensures Spaced([t] + rest, next, stop)
  {
    var r := [t] + rest;
    forall a | 0 <= a < |r| - 1
      ensures r[a] < stop && r[a + 1] >= r[a] + DPA_FREQ_HZ
    {
      assert r[a + 1] == rest[a];
    }
  }

  lemma {:induction false} ReportsSpaced(clock: seq<nat>, k: nat, next: nat, stop: nat)
    requires 1 <= k <= |clock|
    ensures Spaced(ReportsFrom(clock, k, next, stop), next, stop)
    decreases |clock| - k
  {
    hide Spaced;
    if k == |clock| || clock[k - 1] >= stop {
      NoneSpaced(next, stop);
    } else if clock[k] >= next {
      ReportsSpaced(clock, k + 1, clock[k] + DPA_FREQ_HZ, stop);
      SpacedCons(clock[k], ReportsFrom(clock, k + 1, clock[k] + DPA_FREQ_HZ, stop), next, stop);
    } else {
      ReportsSpaced(clock, k + 1, next, stop);
    }
  }

  lemma NoneSpaced(next: nat, stop: nat)
    ensures Spaced([], next, stop)
  {
  }

  /** No report is overdue at time `now`: it is before the first due time, or less than an interval after a report. */
  ghost predicate UpToDate(r: seq<nat>, now: nat, next: nat) {
    now < next || exists a :: 0 <= a < |r| && r[a] <= now < r[a] + 1_800_000_000
  }

  /** No due report is missed: none is overdue at any reading m that the loop makes. */
  lemma {:induction false} NoReportMissed(clock: seq<nat>, k: nat, next: nat, stop: nat, m: nat)
    requires 1 <= k <= m < |clock| && Monotone(clock) && clock[m - 1] < stop
    ensures UpToDate(ReportsFrom(clock, k, next, stop), clock[m], next)
    decreases m - k
  {
    var r := ReportsFrom(clock, k, next, stop);
    if clock[k] >= next {
      var rest := ReportsFrom(clock, k + 1, clock[k] + DPA_FREQ_HZ, stop);
      assert r == [clock[k]] + rest;
      assert r[0] == clock[k] && clock[k] <= clock[m];
      if m > k {
        NoReportMissed(clock, k + 1, clock[k] + DPA_FREQ_HZ, stop, m);
        if clock[m] >= clock[k] + DPA_FREQ_HZ {
          var a :| 0 <= a < |rest| && rest[a] <= clock[m] < rest[a] + DPA_FREQ_HZ;
          assert r[a + 1] == rest[a];
        }
      }
    } else if m > k {
      NoReportMissed(clock, k + 1, next, stop, m);
    }
  }

  /** Every report is made at a reading of the loop. */
  lemma {:induction false} ReportsAreReadings(clock: seq<nat>, k: nat, next: nat, stop: nat, a: nat) returns (m: nat)
    requires 1 <= k <= |clock| && a < |ReportsFrom(clock, k, next, stop)|
    ensures k <= m < |clock| && clock[m - 1] < stop && ReportsFrom(clock, k, next, stop)[a] == clock[m]
    decreases |clock| - k
  {
    if clock[k] < next {
      m := ReportsAreReadings(clock, k + 1, next, stop, a);
    } else if a == 0 {
      m := k;
    } else {
      m := ReportsAreReadings(clock, k + 1, clock[k] + DPA_FREQ_HZ, stop, a - 1);
    }
  }

  /** One activation makes at most 15 reports, for any monotone clock. */
  lemma AtMostFifteenReports(clock: seq<nat>)
    requires |clock| >= 3 && Monotone(clock)
    ensures |ReportsFrom(clock, 3, clock[1] + 1_800_000_000, clock[0] + 27_000_000_000)| <= 15
  {
    var r := ReportsFrom(clock, 3, clock[1] + DPA_FREQ_HZ, clock[0] + Seconds(ACTIVATION_S));
    ReportsSpaced(clock, 3, clock[1] + DPA_FREQ_HZ, clock[0] + Seconds(ACTIVATION_S));
    var fifteenth := if |r| >= 15 then r[14] else 0;
  }

  /** A clock that is read once a second. */
  function EverySecond(): (clock: seq<nat>)
    ensures |clock| == 3 + ACTIVATION_S
    ensures Monotone(clock)
  {
    seq(3 + ACTIVATION_S, i => if i < 3 then 0 else Seconds(i - 2))
  }

  /** With such a clock there are exactly 15. */
  lemma {:induction false} FifteenReportsHappen(m: nat)
    requires m <= 15
    ensures |ReportsFrom(EverySecond(), 3 + m, Seconds(m + 1), 27_000_000_000)| == 15 - m
    decreases 15 - m
  {
    if m < 15 {
      FifteenReportsHappen(m + 1);
    }
  }

  /** The clock side of the dispatch loop, over the readings it makes: `clock` lists them in order, as far as they go.
      The clock is read again after the loop test, so the last report may come later than the activation's end. */
  method Timeline(clock: seq<nat>, tenants: nat) returns (reports: seq<nat>)
    requires |clock| >= 3 && Monotone(clock)
    ensures reports == if tenants == 0 then []
                       else ReportsFrom(clock, 3, clock[1] + 1_800_000_000, clock[0] + 27_000_000_000)
    ensures |reports| <= 15
    ensures tenants > 0 ==> Spaced(reports, clock[1] + 1_800_000_000, clock[0] + 27_000_000_000)
    ensures forall m | 3 <= m < |clock| && clock[m - 1] < clock[0] + 27_000_000_000 ::
              tenants > 0 ==> UpToDate(reports, clock[m], clock[1] + 1_800_000_000)
  {
    hide Spaced, UpToDate;
    reports := [];
    var rescheduleCycle: nat := clock[0] + Seconds(ACTIVATION_S);
    var nextReport: nat := clock[1] + DPA_FREQ_HZ;
    var now, k := clock[2], 3;
    while now < rescheduleCycle && k < |clock|
      invariant 3 <= k <= |clock| && now == clock[k - 1]
      invariant tenants == 0 ==> reports == []
      invariant tenants > 0 ==> reports + ReportsFrom(clock, k, nextReport, rescheduleCycle)
                                == ReportsFrom(clock, 3, clock[1] + DPA_FREQ_HZ, rescheduleCycle)
    {
      now := clock[k];
      k := k + 1;
      if now >= nextReport && tenants > 0 {
        assert forall rest: seq<nat> :: reports + ([now] + rest) == (reports + [now]) + rest;
        reports := reports + [now];
        nextReport := now + DPA_FREQ_HZ;
      }
    }
    AtMostFifteenReports(clock);
    ReportsSpaced(clock, 3, clock[1] + DPA_FREQ_HZ, rescheduleCycle);
    forall m | 3 <= m < |clock| && clock[m - 1] < rescheduleCycle
      ensures UpToDate(ReportsFrom(clock, 3, clock[1] + DPA_FREQ_HZ, rescheduleCycle), clock[m], clock[1] + DPA_FREQ_HZ)
    {
      NoReportMissed(clock, 3, clock[1] + DPA_FREQ_HZ, rescheduleCycle, m);
    }
  }
}
