/** The simulator's event clock, CPU timelines and cost timeline (clusterman/simulator/simulator.py).
    The timelines are step functions updated by deltas; the ledger of instances says what they mean. */
module Simulation {
  import opened Piecewise
  import opened Billing
  import opened Wrappers

  type Market = int

  /** How an instance was billed: until when, at which prices, and whether its last period counts. */
  datatype Bill = Bill(end: int, prices: StepFn, charged: bool)

  datatype Instance = Instance(market: Market, start: int, join: int, cpus: real, bid: Option<real>,
                               end: Option<int>, bill: Option<Bill>)

  // ---- what the ledger says the timelines are -------------------------------------------

  function AwsShare(i: Instance, t: int): real {
    if i.start <= t && (i.end.None? || t < i.end.value) then i.cpus else 0.0
  }

  function MesosShare(i: Instance, t: int): real {
    if i.join <= t && (i.end.None? || t < Max(i.join, i.end.value)) then i.cpus else 0.0
  }

  ghost function CostShare(i: Instance, freq: int, t: int): real
    requires freq > 0 && BillSorted(i)
  {
    if i.bill.None? then 0.0
    else Charge(i.bill.value.prices, i.start, freq, i.bill.value.end, i.bill.value.charged, t)
  }

  ghost predicate BillSorted(i: Instance) {
    i.bill.Some? ==> Sorted(i.bill.value.prices.bps)
  }

  function AwsAt(s: seq<Instance>, t: int): real {
    if s == [] then 0.0 else AwsAt(s[..|s| - 1], t) + AwsShare(s[|s| - 1], t)
  }

  function MesosAt(s: seq<Instance>, t: int): real {
    if s == [] then 0.0 else MesosAt(s[..|s| - 1], t) + MesosShare(s[|s| - 1], t)
  }

  ghost function CostAt(s: seq<Instance>, freq: int, t: int): real
    requires freq > 0 && forall i :: 0 <= i < |s| ==> BillSorted(s[i])
  {
    if s == [] then 0.0 else CostAt(s[..|s| - 1], freq, t) + CostShare(s[|s| - 1], freq, t)
  }

  lemma {:induction false} AwsUpdate(s: seq<Instance>, k: nat, i: Instance, t: int)
    requires k < |s|
    ensures AwsAt(s[k := i], t) == AwsAt(s, t) + AwsShare(i, t) - AwsShare(s[k], t)
  {
    var n := |s| - 1;
    if k < n {
      AwsUpdate(s[..n], k, i, t);
      assert s[k := i][..n] == s[..n][k := i];
    } else {
      assert s[k := i][..n] == s[..n];
    }
  }

  lemma {:induction false} MesosUpdate(s: seq<Instance>, k: nat, i: Instance, t: int)
    requires k < |s|
    ensures MesosAt(s[k := i], t) == MesosAt(s, t) + MesosShare(i, t) - MesosShare(s[k], t)
  {
    var n := |s| - 1;
    if k < n {
      MesosUpdate(s[..n], k, i, t);
      assert s[k := i][..n] == s[..n][k := i];
    } else {
      assert s[k := i][..n] == s[..n];
    }
  }

  lemma {:induction false} CostUpdate(s: seq<Instance>, freq: int, k: nat, i: Instance, t: int)
    requires k < |s| && freq > 0 && BillSorted(i)
    requires forall j :: 0 <= j < |s| ==> BillSorted(s[j])
    ensures CostAt(s[k := i], freq, t) == CostAt(s, freq, t) + CostShare(i, freq, t) - CostShare(s[k], freq, t)
  {
    var n := |s| - 1;
    if k < n {
      CostUpdate(s[..n], freq, k, i, t);
      assert s[k := i][..n] == s[..n][k := i];
    } else {
      assert s[k := i][..n] == s[..n];
    }
  }

  ghost predicate Within(i: Instance) {
    forall t :: MesosShare(i, t) <= AwsShare(i, t)
  }

  /** An instance is in the cluster only while AWS provides it exactly when its join delay is not
      negative. */
  lemma WithinIff(i: Instance)
    requires i.cpus > 0.0 && (i.end.Some? ==> i.start <= i.end.value)
    ensures Within(i) <==> i.start <= i.join
  {
    if i.join < i.start {
      assert MesosShare(i, i.join) == i.cpus && AwsShare(i, i.join) == 0.0;
    }
  }

  /** The ledger's instances end after they start. */
  ghost predicate Ordered(s: seq<Instance>) {
    forall i :: 0 <= i < |s| ==> s[i].cpus > 0.0 && (s[i].end.Some? ==> s[i].start <= s[i].end.value)
  }

  /** If no join delay is negative, the cluster never has more CPUs than AWS provides. */
  lemma MesosWithinAws(s: seq<Instance>, t: int)
    requires forall i :: 0 <= i < |s| ==> s[i].start <= s[i].join && s[i].cpus >= 0.0
    ensures 0.0 <= MesosAt(s, t) <= AwsAt(s, t)
  {
    forall i | 0 <= i < |s| ensures Within(s[i]) {
      if s[i].cpus > 0.0 && (s[i].end.Some? ==> s[i].start <= s[i].end.value) { WithinIff(s[i]); }
    }
    WithinTotal(s, t);
  }

  lemma {:induction false} WithinTotal(s: seq<Instance>, t: int)
    requires forall i :: 0 <= i < |s| ==> Within(s[i]) && s[i].cpus >= 0.0
    ensures 0.0 <= MesosAt(s, t) <= AwsAt(s, t)
  {
    if s != [] {
      WithinTotal(s[..|s| - 1], t);
      assert Within(s[|s| - 1]);
    }
  }

  /** The instances of a ledger that the marks select. */
  function Part(s: seq<Instance>, marks: seq<bool>): seq<Instance>
    requires |s| == |marks|
  {
    if s == [] then []
    else
      var n := |s| - 1;
      Part(s[..n], marks[..n]) + (if marks[n] then [s[n]] else [])
  }

  ghost predicate PartWithin(s: seq<Instance>, marks: seq<bool>) {
    |s| == |marks| && forall t :: MesosAt(Part(s, marks), t) <= AwsAt(Part(s, marks), t)
  }

  /** The bound holds for every part of a ledger exactly when no join delay in it is negative; in a
      ledger as a whole a negative delay may be made up for by other instances. */
  lemma PartsWithinIff(s: seq<Instance>)
    requires Ordered(s)
    ensures (forall marks: seq<bool> :: |marks| == |s| ==> PartWithin(s, marks)) <==>
            (forall i :: 0 <= i < |s| ==> s[i].start <= s[i].join)
  {
    if forall i :: 0 <= i < |s| ==> s[i].start <= s[i].join {
      forall marks: seq<bool> | |marks| == |s| ensures PartWithin(s, marks) {
        PartOrdered(s, marks);
        forall t ensures MesosAt(Part(s, marks), t) <= AwsAt(Part(s, marks), t) {
          MesosWithinAws(Part(s, marks), t);
        }
      }
    } else {
      var i: nat :| i < |s| && s[i].join < s[i].start;
      AloneExceeds(s, i);
    }
  }

  lemma {:induction false} PartOrdered(s: seq<Instance>, marks: seq<bool>)
    requires |marks| == |s| && Ordered(s) && forall i :: 0 <= i < |s| ==> s[i].start <= s[i].join
    ensures Ordered(Part(s, marks))
    ensures forall i :: 0 <= i < |Part(s, marks)| ==> Part(s, marks)[i].start <= Part(s, marks)[i].join
  {
    if s != [] { PartOrdered(s[..|s| - 1], marks[..|s| - 1]); }
  }

  function Only(n: nat, k: nat): (marks: seq<bool>)
    ensures |marks| == n && forall i :: 0 <= i < n ==> marks[i] == (i == k)
  {
    seq(n, i => i == k)
  }

  lemma {:induction false} PartOnly(s: seq<Instance>, k: nat)
    ensures Part(s, Only(|s|, k)) == if k < |s| then [s[k]] else []
  {
    if s != [] {
      assert Only(|s|, k)[..|s| - 1] == Only(|s| - 1, k);
      PartOnly(s[..|s| - 1], k);
    }
  }

  lemma AloneExceeds(s: seq<Instance>, k: nat)
    requires Ordered(s) && k < |s| && s[k].join < s[k].start
    ensures !PartWithin(s, Only(|s|, k))
  {
    PartOnly(s, k);
    var part := [s[k]];
    assert part[..0] == [];
    assert MesosAt(part, s[k].join) == s[k].cpus && AwsAt(part, s[k].join) == 0.0;
  }

  /** A negative join delay can put more CPUs into the cluster than AWS provides. */
  lemma NegativeDelayExceeds()
    ensures var s := [Instance(0, 10, 5, 1.0, None, None, None)]; AwsAt(s, 7) < MesosAt(s, 7)
  {
  }

  // ---- the simulator --------------------------------------------------------------------

  class Simulator {
    const endTime: int
    const billingFrequency: int
    const refundOutbid: bool
    const awsCpus: PiecewiseConstantFunction
    const mesosCpus: PiecewiseConstantFunction
    const costPerHour: PiecewiseConstantFunction
    var currentTime: int
    var eventQueue: multiset<int>
    var instancePrices: map<Market, StepFn>
    var instances: seq<Instance>

    ghost predicate Valid()
      reads this, awsCpus, mesosCpus, costPerHour
    {
      && billingFrequency > 0
      && awsCpus != mesosCpus && awsCpus != costPerHour && mesosCpus != costPerHour
      && awsCpus.Valid() && mesosCpus.Valid() && costPerHour.Valid()
      && currentTime <= endTime
      && (forall t :: t in eventQueue ==> currentTime <= t <= endTime)
      && (forall m :: m in instancePrices ==> Sorted(instancePrices[m].bps))
      && Ledger()
      && AwsMatches() && MesosMatches() && CostMatches()
    }

    /** Instances start and end in the past; removed ones are billed. */
    ghost predicate Ledger()
      reads this
    {
      forall i :: 0 <= i < |instances| ==>
        && BillSorted(instances[i])
        && instances[i].start <= currentTime
        && (instances[i].end.Some? ==> instances[i].bill.Some? && instances[i].start <= instances[i].end.value)
    }

    ghost predicate AwsMatches()
      requires awsCpus.Valid()
      reads this, awsCpus
    {
      forall t :: Call(awsCpus.Fn(), t) == AwsAt(instances, t)
    }

    ghost predicate MesosMatches()
      requires mesosCpus.Valid()
      reads this, mesosCpus
    {
      forall t :: Call(mesosCpus.Fn(), t) == MesosAt(instances, t)
    }

    ghost predicate CostMatches()
      requires costPerHour.Valid() && billingFrequency > 0 && Ledger()
      reads this, costPerHour
    {
      forall t :: Call(costPerHour.Fn(), t) == CostAt(instances, billingFrequency, t)
    }

    constructor (startTime: int, endTime: int, billingFrequency: int, refundOutbid: bool)
      requires startTime <= endTime && billingFrequency > 0
      ensures Valid() && instances == [] && currentTime == startTime
      ensures fresh(awsCpus) && fresh(mesosCpus) && fresh(costPerHour)
      ensures eventQueue == multiset{startTime, endTime}
    {
      this.endTime, this.billingFrequency, this.refundOutbid := endTime, billingFrequency, refundOutbid;
      awsCpus := new PiecewiseConstantFunction();
      mesosCpus := new PiecewiseConstantFunction();
      costPerHour := new PiecewiseConstantFunction();
      currentTime := startTime;
      eventQueue := multiset{startTime, endTime};
      instancePrices := map[];
      instances := [];
    }

    /** Events outside the remaining simulation time are dropped. */
    method AddEvent(time: int)
      requires Valid()
      modifies this`eventQueue
      ensures Valid()
      ensures eventQueue == if currentTime <= time < endTime then old(eventQueue) + multiset{time} else old(eventQueue)
    {
      if time >= endTime {
        return;
      } else if time < currentTime {
        return;
      }
      eventQueue := eventQueue + multiset{time};
    }

    /** The clock moves to the earliest queued event, and never backwards. */
    method PopEvent() returns (time: int)
      requires Valid() && eventQueue != multiset{}
      modifies this`eventQueue, this`currentTime
      ensures Valid() && currentTime == time && old(currentTime) <= time
      ensures time in old(eventQueue) && forall t :: t in old(eventQueue) ==> time <= t
      ensures eventQueue == old(eventQueue) - multiset{time}
    {
      assert (forall t :: t !in eventQueue) ==> eventQueue == multiset{};
      time :| time in eventQueue;
      while exists t :: t in eventQueue && t < time
        invariant time in eventQueue
        decreases time - currentTime
      {
        var earlier :| earlier in eventQueue && earlier < time;
        time := earlier;
      }
      eventQueue := eventQueue - multiset{time};
      currentTime := time;
    }

    function Prices(m: Market): StepFn
      reads this
    {
      if m in instancePrices then instancePrices[m] else StepFn(0.0, [])
    }

    /** A price change takes effect now and up to the next breakpoint already in the future. */
    method ChangePrice(m: Market, price: real)
      requires Valid()
      modifies this`instancePrices
      ensures Valid()
      ensures Sorted(Prices(m).bps)
      ensures forall t :: Call(Prices(m), t) ==
                          if currentTime <= t && NoneBetween(old(Prices(m)).bps, currentTime, t) then price
                          else Call(old(Prices(m)), t)
      ensures forall k :: k != m ==> Prices(k) == old(Prices(k))
    {
      var p := Prices(m);
      SetKeySorted(p.bps, currentTime, price);
      forall t ensures Call(p.(bps := SetKey(p.bps, currentTime, price)), t) ==
                       if currentTime <= t && NoneBetween(p.bps, currentTime, t) then price else Call(p, t)
      {
        SetKeyCall(p, currentTime, price, t);
      }
      if Call(p, currentTime) == price {
        forall t | currentTime <= t && NoneBetween(p.bps, currentTime, t) ensures Call(p, t) == price {
          CallFlat(p, currentTime, t);
        }
      } else {
        instancePrices := instancePrices[m := p.(bps := SetKey(p.bps, currentTime, price))];
      }
    }

    /** A new instance adds its CPUs to AWS now and to the cluster when it joins. */
    method AddInstance(m: Market, cpus: real, bid: Option<real>, joinDelay: int) returns (id: nat)
      requires Valid()
      modifies this`instances, awsCpus, mesosCpus
      ensures Valid() && id == |old(instances)|
      ensures instances == old(instances) + [Instance(m, currentTime, currentTime + joinDelay, cpus, bid, None, None)]
    {
      var i := Instance(m, currentTime, currentTime + joinDelay, cpus, bid, None, None);
      id := |instances|;
      awsCpus.AddDelta(currentTime, cpus);
      mesosCpus.AddDelta(i.join, cpus);
      instances := instances + [i];
      assert instances[..id] == old(instances);
    }

    /** Whether the last period of an instance that ends now is charged. */
    function ChargesLast(i: Instance): bool
      requires Sorted(Prices(i.market).bps)
      reads this
    {
      i.bid.None? || !refundOutbid || i.bid.value > Call(Prices(i.market), currentTime)
    }

    /** A removed instance gives its CPUs back, to the cluster no earlier than it joined, and is billed;
        only an outbid spot instance under refunds is not charged for its last period. */
    method RemoveInstance(id: nat)
      requires Valid() && id < |instances| && instances[id].end.None? && instances[id].bill.None?
      modifies this`instances, awsCpus, mesosCpus, costPerHour
      ensures Valid()
      ensures var i := old(instances[id]);
              instances == old(instances)[id := i.(end := Some(currentTime),
                                                   bill := Some(Bill(currentTime, Prices(i.market), ChargesLast(i))))]
      ensures var i := instances[id];
              !i.bill.value.charged <==>
              i.bid.Some? && refundOutbid && i.bid.value <= Call(Prices(i.market), currentTime)
    {
      var i := instances[id];
      awsCpus.AddDelta(currentTime, -i.cpus);
      mesosCpus.AddDelta(Max(i.join, currentTime), -i.cpus);
      var gone := i.(end := Some(currentTime), bill := Some(Bill(currentTime, Prices(i.market), ChargesLast(i))));
      ComputeInstanceCost(costPerHour, Prices(i.market), i.start, currentTime, billingFrequency, ChargesLast(i));
      forall t ensures AwsAt(instances[id := gone], t) ==
                       AwsAt(instances, t) + (if currentTime <= t then -i.cpus else 0.0)
      {
        AwsUpdate(instances, id, gone, t);
      }
      forall t ensures MesosAt(instances[id := gone], t) ==
                       MesosAt(instances, t) + (if Max(i.join, currentTime) <= t then -i.cpus else 0.0)
      {
        MesosUpdate(instances, id, gone, t);
      }
      forall t ensures CostAt(instances[id := gone], billingFrequency, t) ==
                       CostAt(instances, billingFrequency, t) + CostShare(gone, billingFrequency, t)
      {
        CostUpdate(instances, billingFrequency, id, gone, t);
      }
      instances := instances[id := gone];
    }

    /** At the end of a run every instance still there is billed up to the final time. */
    method ChargeRemaining()
      requires Valid()
      modifies this`instances, costPerHour
      ensures Valid() && |instances| == |old(instances)|
      ensures forall k :: 0 <= k < |instances| ==>
                var i := old(instances)[k];
                instances[k] == if i.bill.Some? then i
                                else i.(bill := Some(Bill(currentTime, Prices(i.market), ChargesLast(i))))
      ensures forall k :: 0 <= k < |instances| && old(instances)[k].bill.None? ==>
                var i := instances[k];
                !i.bill.value.charged <==>
                i.bid.Some? && refundOutbid && i.bid.value <= Call(Prices(i.market), currentTime)
    {
      var k := 0;
      while k < |instances|
        invariant Valid() && k <= |instances| == |old(instances)|
        invariant forall j :: k <= j < |instances| ==> instances[j] == old(instances)[j]
        invariant forall j :: 0 <= j < k ==>
                    var i := old(instances)[j];
                    instances[j] == if i.bill.Some? then i
                                    else i.(bill := Some(Bill(currentTime, Prices(i.market), ChargesLast(i))))
      {
        if instances[k].bill.None? {
          BillInPlace(k);
        }
        k := k + 1;
      }
    }

    method BillInPlace(k: nat)
      requires Valid() && k < |instances| && instances[k].bill.None?
      modifies this`instances, costPerHour
      ensures Valid()
      ensures var i := old(instances[k]);
              instances == old(instances)[k := i.(bill := Some(Bill(currentTime, Prices(i.market), ChargesLast(i))))]
    {
      var i := instances[k];
      var billed := i.(bill := Some(Bill(currentTime, Prices(i.market), ChargesLast(i))));
      ComputeInstanceCost(costPerHour, Prices(i.market), i.start, currentTime, billingFrequency, ChargesLast(i));
      forall t ensures AwsAt(instances[k := billed], t) == AwsAt(instances, t) {
        AwsUpdate(instances, k, billed, t);
      }
      forall t ensures MesosAt(instances[k := billed], t) == MesosAt(instances, t) {
        MesosUpdate(instances, k, billed, t);
      }
      forall t ensures CostAt(instances[k := billed], billingFrequency, t) ==
                       CostAt(instances, billingFrequency, t) + CostShare(billed, billingFrequency, t)
      {
        CostUpdate(instances, billingFrequency, k, billed, t);
      }
      instances := instances[k := billed];
    }
  }
}
