/** Per-instance billing of clusterman/simulator/simulator.py: the posting loop that jumps from
    price breakpoint to price breakpoint, against a reference that walks every billing point. */
module Billing {
  import opened Piecewise

  /** Walks the billing points start, start + freq, ... up to the last one at or before t. */
  ghost function BillingPoint(start: int, freq: int, t: int): (b: int)
    requires freq > 0
    decreases t - start
  {
    if t < start + freq then start else BillingPoint(start + freq, freq, t)
  }

  /** Walks the billing points to the last one strictly before end, or start if there is none. */
  ghost function LastPoint(start: int, freq: int, end: int): int
    requires freq > 0
    decreases end - start
  {
    if end <= start + freq then start else LastPoint(start + freq, freq, end)
  }

  /** c is one of the billing points. */
  ghost predicate OnGrid(start: int, freq: int, c: int)
    requires freq > 0
  {
    start <= c && BillingPoint(start, freq, c) == c
  }

  lemma {:induction false} PointBounds(start: int, freq: int, t: int)
    requires freq > 0 && start <= t
    ensures start <= BillingPoint(start, freq, t) <= t < BillingPoint(start, freq, t) + freq
    decreases t - start
  {
    if t >= start + freq { PointBounds(start + freq, freq, t); }
  }

  /** Walking on from a billing point is walking from the start. */
  lemma {:induction false} PointRestart(start: int, freq: int, c: int, t: int)
    requires freq > 0 && OnGrid(start, freq, c) && c <= t
    ensures BillingPoint(start, freq, t) == BillingPoint(c, freq, t)
    decreases c - start
  {
    if c >= start + freq {
      PointBounds(start + freq, freq, c);
      PointRestart(start + freq, freq, c, t);
    }
  }

  /** The next point after a billing point is a billing point. */
  lemma NextOnGrid(start: int, freq: int, c: int)
    requires freq > 0 && OnGrid(start, freq, c)
    ensures OnGrid(start, freq, c + freq)
  {
    PointRestart(start, freq, c, c + freq);
  }

  lemma {:induction false} LastPointIs(start: int, freq: int, end: int, c: int)
    requires freq > 0 && OnGrid(start, freq, c)
    requires end <= c + freq && (c == start || c < end)
    ensures LastPoint(start, freq, end) == c
    decreases c - start
  {
    if c > start {
      PointBounds(start + freq, freq, c);
      LastPointIs(start + freq, freq, end, c);
    }
  }

  /** The number of billing periods, max(1, ceil((end - start) / freq)). */
  function Periods(start: int, freq: int, end: int): (k: int)
    requires freq > 0
  {
    Max(1, CeilDiv(end - start, freq))
  }

  /** The last billing point starts the last of the billing periods. */
  lemma {:induction false} LastPointClosed(start: int, freq: int, end: int)
    requires freq > 0
    ensures LastPoint(start, freq, end) == GridKey(start, freq, Periods(start, freq, end) - 1)
    decreases end - start
  {
    if end <= start + freq {
      CeilUnique(end - start, freq);
    } else {
      LastPointClosed(start + freq, freq, end);
      CeilStep(end - start, freq);
      GridKeyShift(start, freq, Periods(start + freq, freq, end) - 1);
    }
  }

  lemma CeilUnique(w: int, freq: int)
    requires freq > 0 && w <= freq
    ensures CeilDiv(w, freq) <= 1
  {
    var n := CeilDiv(w, freq);
    assert n >= 2 ==> (n - 1) * freq >= freq;
  }

  lemma CeilStep(w: int, freq: int)
    requires freq > 0 && freq < w
    ensures CeilDiv(w, freq) == CeilDiv(w - freq, freq) + 1 >= 2
  {
    var n, m := CeilDiv(w, freq), CeilDiv(w - freq, freq);
    var nf, mf := n * freq, m * freq;
    ProductStep(n, freq, nf);
    ProductStep(m, freq, mf);
    SmallerFactor(n - 1, m + 1, freq);
    SmallerFactor(m, n, freq);
    SmallerFactor(0, m, freq);
  }

  lemma ProductStep(n: int, freq: int, nf: int)
    requires nf == n * freq
    ensures (n - 1) * freq == nf - freq && (n + 1) * freq == nf + freq
  {
  }

  lemma SmallerFactor(a: int, b: int, freq: int)
    requires freq > 0
    ensures a * freq < b * freq ==> a < b
  {
    if b <= a { NotSmaller(a, b, freq, a - b); }
  }

  lemma NotSmaller(a: int, b: int, freq: int, gap: nat)
    requires freq > 0 && gap == a - b
    ensures b * freq <= a * freq
  {
    assert gap * freq >= 0;
    assert gap * freq == a * freq - b * freq;
  }

  lemma {:induction false} GridKeyShift(start: int, freq: int, n: nat)
    ensures GridKey(start + freq, freq, n) == GridKey(start, freq, n + 1)
  {
    if n > 0 { GridKeyShift(start, freq, n - 1); }
  }

  /** What one instance costs per hour at time t, sampled at the billing points. The last period
      is billed only when it is charged; when it is not, what stays posted there is the price at
      its start minus the price at `end`, if the instance ended exactly on a billing point. */
  ghost function Charge(p: StepFn, start: int, freq: int, end: int, charged: bool, t: int): real
    requires freq > 0 && Sorted(p.bps)
  {
    var c := LastPoint(start, freq, end);
    if t < start || c + freq <= t then 0.0
    else if t < c || charged then Call(p, BillingPoint(start, freq, t))
    else Call(p, c) - Call(p, if end == c + freq then end else c)
  }

  /** The function posted so far: samples up to the end of the current period, then a constant. */
  ghost function Posted(p: StepFn, start: int, freq: int, curr: int, last: real, t: int): real
    requires freq > 0 && Sorted(p.bps)
  {
    if t < start then 0.0
    else if t < curr + freq then Call(p, BillingPoint(start, freq, t))
    else last
  }

  lemma CallFlat(p: StepFn, a: int, b: int)
    requires Sorted(p.bps) && a <= b && NoneBetween(p.bps, a, b)
    ensures Call(p, b) == Call(p, a)
  {
    BisectMonotone(p.bps, a, b);
    CallAt(p, b, Bisect(p.bps, a));
  }

  /** Jumping from curr to a later billing point next: every sample on the way is the price v
      that holds since prev. */
  lemma PostedJump(p: StepFn, start: int, freq: int, curr: int, last: real, prev: int, next: int, v: real, t: int)
    requires freq > 0 && Sorted(p.bps)
    requires OnGrid(start, freq, curr) && OnGrid(start, freq, next) && curr <= next
    requires start <= prev <= curr + freq && v == Call(p, prev)
    requires curr < next ==> NoneBetween(p.bps, prev, next)
    ensures Posted(p, start, freq, next, v, t) ==
            Posted(p, start, freq, curr, last, t) + (if curr + freq <= t then v - last else 0.0)
  {
    if curr + freq <= t < next + freq {
      var b := BillingPoint(start, freq, t);
      NextOnGrid(start, freq, curr);
      PointRestart(start, freq, curr + freq, t);
      PointBounds(curr + freq, freq, t);
      if t >= next {
        PointRestart(start, freq, next, t);
      }
      assert b <= next;
      CallFlat(p, prev, b);
    }
  }

  /** The billing point strictly before t, by the loop's divmod arithmetic. */
  method StepBefore(ghost start: int, curr: int, freq: int, t: int) returns (next: int)
    requires freq > 0 && OnGrid(start, freq, curr) && curr + freq <= t
    ensures OnGrid(start, freq, next) && curr <= next < t <= next + freq
    ensures next == curr || curr + freq <= next
  {
    var jumps, remainder := (t - curr) / freq, (t - curr) % freq;
    assert jumps * freq + remainder == t - curr;
    assert jumps <= 0 ==> jumps * freq <= 0;
    if remainder == 0 {
      jumps := jumps - 1;
      assert jumps * freq == t - curr - freq;
    }
    next := curr + jumps * freq;
    GridAdvance(start, freq, curr, jumps);
  }

  lemma {:induction false} GridAdvance(start: int, freq: int, curr: int, n: nat)
    requires freq > 0 && OnGrid(start, freq, curr)
    ensures OnGrid(start, freq, curr + n * freq)
    ensures n > 0 ==> curr + freq <= curr + n * freq
  {
    if n > 0 {
      GridAdvance(start, freq, curr, n - 1);
      NextOnGrid(start, freq, curr + (n - 1) * freq);
      assert curr + (n - 1) * freq + freq == curr + n * freq;
    }
  }


  /** The state of the posting loop after the price breakpoints up to prev. */
  ghost predicate LoopState(p: StepFn, start: int, freq: int, curr: int, delta: real, last: real, prev: int)
    requires freq > 0 && Sorted(p.bps)
  {
    && OnGrid(start, freq, curr) && (curr == start || curr < prev)
    && curr <= prev <= curr + freq
    && delta + last == Call(p, prev)
    && (prev < curr + freq ==> last == Call(p, curr))
  }

  /** cost is base plus what has been posted so far. */
  ghost predicate PostedOn(base: StepFn, cost: StepFn, p: StepFn, start: int, freq: int, curr: int, last: real)
    requires freq > 0 && Sorted(p.bps) && Sorted(base.bps) && Sorted(cost.bps)
  {
    forall t :: Call(cost, t) == Call(base, t) + Posted(p, start, freq, curr, last, t)
  }

  /** If t is at or past the next billing point, posts the pending delta there and steps to the
      billing point strictly before t. */
  method PostUpTo(cost: PiecewiseConstantFunction, ghost base: StepFn, ghost p: StepFn, ghost start: int, freq: int,
                  curr0: int, delta: real, last0: real, ghost prev: int, t: int)
    returns (curr: int, last: real)
    requires cost.Valid() && freq > 0 && Sorted(p.bps) && Sorted(base.bps)
    requires LoopState(p, start, freq, curr0, delta, last0, prev)
    requires prev <= t && (prev < t ==> NoneBetween(p.bps, prev, t - 1))
    requires PostedOn(base, cost.Fn(), p, start, freq, curr0, last0)
    modifies cost
    ensures cost.Valid() && PostedOn(base, cost.Fn(), p, start, freq, curr, last)
    ensures OnGrid(start, freq, curr) && (curr == start || curr < t) && curr <= t <= curr + freq
    ensures t < curr + freq ==> last == Call(p, curr)
    ensures t == curr + freq ==> last == Call(p, prev)
  {
    curr, last := curr0, last0;
    if t >= curr + freq {
      cost.AddDelta(curr + freq, delta);
      curr := StepBefore(start, curr, freq, t);
      last := last + delta;
      if curr0 < curr {
        CallFlat(p, prev, curr);
      }
      forall x ensures Call(cost.Fn(), x) == Call(base, x) + Posted(p, start, freq, curr, last, x) {
        PostedJump(p, start, freq, curr0, last0, prev, curr, last, x);
      }
    }
  }

  /** Posts the cost of one instance: the cost function changes by exactly the sampled charge. */
  method ComputeInstanceCost(cost: PiecewiseConstantFunction, prices: StepFn, start: int, end: int, freq: int,
                             charged: bool)
    requires cost.Valid() && Sorted(prices.bps) && freq > 0 && start <= end
    modifies cost
    ensures cost.Valid()
    ensures forall t :: Call(cost.Fn(), t) == old(Call(cost.Fn(), t)) + Charge(prices, start, freq, end, charged, t)
  {
    ghost var base := cost.Fn();
    var curr, delta, last := start, 0.0, Call(prices, start);
    cost.AddDelta(curr, last);
    assert PostedOn(base, cost.Fn(), prices, start, freq, curr, last);
    ghost var prev;
    curr, delta, last, prev := PostBreakpoints(cost, base, prices, start, end, freq, last);
    CallFlat(prices, prev, end);
    curr, last := PostUpTo(cost, base, prices, start, freq, curr, delta, last, prev, end);
    Settle(cost, base, prices, start, freq, end, charged, curr, last);
  }

  /** The loop over the price breakpoints in [start, end]. */
  method PostBreakpoints(cost: PiecewiseConstantFunction, ghost base: StepFn, prices: StepFn, start: int, end: int,
                         freq: int, first: real)
    returns (curr: int, delta: real, last: real, ghost prev: int)
    requires cost.Valid() && Sorted(base.bps) && Sorted(prices.bps) && freq > 0 && start <= end
    requires first == Call(prices, start) && PostedOn(base, cost.Fn(), prices, start, freq, start, first)
    modifies cost
    ensures cost.Valid() && PostedOn(base, cost.Fn(), prices, start, freq, curr, last)
    ensures LoopState(prices, start, freq, curr, delta, last, prev)
    ensures prev <= end && NoneBetween(prices.bps, prev, end)
  {
    curr, delta, last, prev := start, 0.0, first, start;
    var i, hi := FirstKey(prices, start), Bisect(prices.bps, end);
    BisectMonotone(prices.bps, start - 1, end);
    while i < hi
      invariant cost.Valid() && i <= hi
      invariant LoopState(prices, start, freq, curr, delta, last, prev) && prev <= end
      invariant PostedOn(base, cost.Fn(), prices, start, freq, curr, last)
      invariant i > 0 ==> prices.bps[i - 1].x <= prev
      invariant i < |prices.bps| ==> prev <= prices.bps[i].x
    {
      var t := prices.bps[i].x;
      KeyFacts(prices, i, prev, end);
      curr, last := PostUpTo(cost, base, prices, start, freq, curr, delta, last, prev, t);
      delta := prices.bps[i].y - last;
      prev, i := t, i + 1;
    }
    NoneBefore(prices.bps, prev, end, hi);
  }

  /** What the loop needs to know about the i-th breakpoint. */
  lemma KeyFacts(p: StepFn, i: nat, prev: int, end: int)
    requires Sorted(p.bps) && i < Bisect(p.bps, end)
    requires i > 0 ==> p.bps[i - 1].x <= prev
    ensures p.bps[i].x <= end && Call(p, p.bps[i].x) == p.bps[i].y
    ensures NoneBetween(p.bps, prev, p.bps[i].x - 1)
    ensures i + 1 < |p.bps| ==> p.bps[i].x <= p.bps[i + 1].x
  {
    KeyOrder(p.bps, i, Bisect(p.bps, end) - 1);
    NextKey(p.bps, i);
    CallAt(p, p.bps[i].x, i + 1);
    NoneBefore(p.bps, prev, p.bps[i].x - 1, i);
  }

  /** The closing posting, at the end of the last period or, if it is refunded, at its start. */
  method Settle(cost: PiecewiseConstantFunction, ghost base: StepFn, ghost p: StepFn, ghost start: int, freq: int,
                ghost end: int, charged: bool, curr: int, last: real)
    requires cost.Valid() && freq > 0 && Sorted(p.bps) && Sorted(base.bps)
    requires OnGrid(start, freq, curr) && (curr == start || curr < end) && curr <= end <= curr + freq
    requires last == Call(p, if end == curr + freq then end else curr)
    requires PostedOn(base, cost.Fn(), p, start, freq, curr, last)
    modifies cost
    ensures cost.Valid()
    ensures forall t :: Call(cost.Fn(), t) == Call(base, t) + Charge(p, start, freq, end, charged, t)
  {
    LastPointIs(start, freq, end, curr);
    var cut := if charged then curr + freq else curr;
    cost.AddDelta(cut, -last);
    forall t ensures Posted(p, start, freq, curr, last, t) + (if cut <= t then -last else 0.0) ==
                     Charge(p, start, freq, end, charged, t)
    {
      if curr <= t { PointRestart(start, freq, curr, t); }
    }
  }

  /** The index of the first key at or after x. */
  function FirstKey(p: StepFn, x: int): (k: nat)
    requires Sorted(p.bps)
    ensures k <= |p.bps|
    ensures k > 0 ==> p.bps[k - 1].x < x
    ensures k < |p.bps| ==> x <= p.bps[k].x
  {
    Bisect(p.bps, x - 1)
  }

  /** A charged instance costs, in period k, the price at the start of that period, for every one
      of its max(1, ceil((end - start) / freq)) periods, and nothing outside them. */
  lemma ChargeSamples(p: StepFn, start: int, freq: int, end: int, k: nat, t: int)
    requires freq > 0 && Sorted(p.bps)
    requires k < Periods(start, freq, end) && GridKey(start, freq, k) <= t < GridKey(start, freq, k + 1)
    ensures Charge(p, start, freq, end, true, t) == Call(p, GridKey(start, freq, k))
  {
    LastPointClosed(start, freq, end);
    GridKeyMonotone(start, freq, k, Periods(start, freq, end) - 1);
    GridKeyMonotone(start, freq, 0, k);
    PointInPeriod(start, freq, k, t);
  }

  lemma {:induction false} PointInPeriod(start: int, freq: int, k: nat, t: int)
    requires freq > 0 && GridKey(start, freq, k) <= t < GridKey(start, freq, k + 1)
    ensures BillingPoint(start, freq, t) == GridKey(start, freq, k)
    decreases k
  {
    if k > 0 {
      GridKeyShift(start, freq, k - 1);
      GridKeyShift(start, freq, k);
      GridKeyMonotone(start + freq, freq, 0, k - 1);
      PointInPeriod(start + freq, freq, k - 1, t);
    }
  }

  /** In every branch the posted deltas cancel: nothing is left outside the billed periods. */
  lemma NothingOutside(p: StepFn, start: int, freq: int, end: int, charged: bool, t: int)
    requires freq > 0 && Sorted(p.bps)
    requires t < start || GridKey(start, freq, Periods(start, freq, end)) <= t
    ensures Charge(p, start, freq, end, charged, t) == 0.0
  {
    LastPointClosed(start, freq, end);
  }

  /** An outbid instance is refunded its last period exactly when it did not end on a billing
      point, or the price at that point is the price the last period started with. */
  lemma RefundExact(p: StepFn, start: int, freq: int, end: int)
    requires freq > 0 && Sorted(p.bps) && start <= end
    ensures var c := LastPoint(start, freq, end);
            (forall t :: c <= t < c + freq ==> Charge(p, start, freq, end, false, t) == 0.0) <==>
            (end != c + freq || Call(p, end) == Call(p, c))
  {
    var c := LastPoint(start, freq, end);
    LastPointClosed(start, freq, end);
    GridKeyMonotone(start, freq, 0, Periods(start, freq, end) - 1);
    assert Charge(p, start, freq, end, false, c) == Call(p, c) - Call(p, if end == c + freq then end else c);
  }

  /** Periods before the last one are billed whether or not the last one is. */
  lemma EarlierPeriodsBilled(p: StepFn, start: int, freq: int, end: int, t: int)
    requires freq > 0 && Sorted(p.bps) && t < LastPoint(start, freq, end)
    ensures Charge(p, start, freq, end, false, t) == Charge(p, start, freq, end, true, t)
  {
  }

  /** The price change at t = 10, where the second 10-second period would start, is what remains
      posted on the refunded first one. */
  lemma RefundLeavesResidue()
    ensures var p := StepFn(1.0, [Breakpoint(10, 3.0)]);
            Sorted(p.bps) && Charge(p, 0, 10, 10, false, 5) == -2.0
  {
    var p := StepFn(1.0, [Breakpoint(10, 3.0)]);
    CallAt(p, 10, 1);
    CallAt(p, 0, 0);
  }

  /** The sum of the sampled prices of the first n periods. */
  ghost function SampleSum(p: StepFn, start: int, freq: int, n: nat): real
    requires Sorted(p.bps) && freq > 0
  {
    if n == 0 then 0.0 else SampleSum(p, start, freq, n - 1) + Times(Call(p, GridKey(start, freq, n - 1)), freq)
  }

  /** The bill of a charged instance, as the integral of the posted cost, is the sum over its
      periods of the period length times the price at the period's start. */
  lemma {:induction false} BillTotal(g: StepFn, p: StepFn, start: int, freq: int, end: int, n: nat)
    requires freq > 0 && Sorted(p.bps) && Sorted(g.bps) && n <= Periods(start, freq, end)
    requires forall t :: Call(g, t) == Charge(p, start, freq, end, true, t)
    ensures start <= GridKey(start, freq, n)
    ensures Area(g, start, GridKey(start, freq, n)) == SampleSum(p, start, freq, n)
    decreases n
  {
    if n > 0 {
      BillTotal(g, p, start, freq, end, n - 1);
      var a, b := GridKey(start, freq, n - 1), GridKey(start, freq, n);
      forall t | a <= t < b ensures Call(g, t) == Call(p, a) {
        ChargeSamples(p, start, freq, end, n - 1, t);
      }
      AreaConstant(g, a, b, Call(p, a));
      AreaSplit(g, start, a, b);
    }
  }
}
