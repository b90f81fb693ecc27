/** The diversified refill of a simulated spot fleet
    (clusterman/simulator/simulated_spot_fleet_resource_group.py). */
module SpotFleet {
  import opened Piecewise
  import opened Sorting
  import opened SimulatedCluster

  datatype MarketConfig = MarketConfig(market: Market, bid: real, weight: real)

  /** An available market with the capacity it lacks and its current price. */
  datatype Residual = Residual(market: Market, amount: real, weight: real, price: real)

  predicate ByResidual(a: Residual, b: Residual) {
    a.amount < b.amount || (a.amount == b.amount && a.price <= b.price)
  }

  lemma ByResidualTotal()
    ensures TotalPreorder(ByResidual)
  {
  }

  // ---- sums ------------------------------------------------------------------------------

  /** The residuals from position i on. */
  ghost function Lacking(rs: seq<Residual>, i: nat): real
    requires i <= |rs|
    decreases |rs| - i
  {
    if i == |rs| then 0.0 else rs[i].amount + Lacking(rs, i + 1)
  }

  /** The capacity of the instances added to the first i markets. */
  ghost function Gained(rs: seq<Residual>, added: seq<nat>, i: nat): real
    requires i <= |added| <= |rs|
  {
    if i == 0 then 0.0 else Gained(rs, added, i - 1) + Times(rs[i - 1].weight, added[i - 1])
  }

  lemma {:induction false} TimesSum(u: real, v: real, n: nat)
    ensures Times(u + v, n) == Times(u, n) + Times(v, n)
  {
    if n > 0 { TimesSum(u, v, n - 1); }
  }

  lemma {:induction false} GainedPrefix(rs: seq<Residual>, a: seq<nat>, b: seq<nat>, i: nat)
    requires i <= |a| <= |b| <= |rs| && a == b[..|a|]
    ensures Gained(rs, a, i) == Gained(rs, b, i)
  {
    if i > 0 { GainedPrefix(rs, a, b, i - 1); }
  }

  /** In ascending order, what is lacking beyond the correction is at least what the first one lacks. */
  lemma {:induction false} LackingAtLeast(rs: seq<Residual>, i: nat, c: real)
    requires i < |rs| && c <= rs[i].amount
    requires forall j :: i <= j < |rs| ==> rs[i].amount <= rs[j].amount
    ensures Lacking(rs, i) - Times(c, |rs| - i) >= rs[i].amount - c
    decreases |rs| - i
  {
    LackingAbove(rs, i + 1, c);
  }

  lemma {:induction false} LackingAbove(rs: seq<Residual>, i: nat, c: real)
    requires i <= |rs| && forall j :: i <= j < |rs| ==> c <= rs[j].amount
    ensures Lacking(rs, i) >= Times(c, |rs| - i)
    decreases |rs| - i
  {
    if i < |rs| { LackingAbove(rs, i + 1, c); }
  }

  // ---- the two divisions of the loop -----------------------------------------------------

  /** Enough instances of one weight to cover an amount, and by how much they overflow it. */
  method Cover(amount: real, weight: real) returns (num: nat, overflow: real)
    requires amount >= 0.0 && weight > 0.0
    ensures Times(weight, num) == amount + overflow && 0.0 <= overflow < weight
  {
    var quotient := amount / weight;
    assert quotient * weight == amount;
    FloorRemainder(amount, weight, quotient);
    var q := quotient.Floor;
    var remainder := amount - q as real * weight;
    num, overflow := q, 0.0;
    if remainder > 0.0 {
      num := num + 1;
      overflow := num as real * weight - amount;
    }
    TimesClosed(weight, num);
  }

  lemma FloorRemainder(a: real, w: real, z: real)
    requires a >= 0.0 && w > 0.0 && z * w == a
    ensures z.Floor >= 0
    ensures z.Floor as real * w <= a
    ensures a < z.Floor as real * w + w
  {
    assert z < 0.0 ==> z * w < 0.0;
    FloorProduct(a, w, z, z.Floor as real);
  }

  lemma FloorProduct(a: real, w: real, z: real, q: real)
    requires w > 0.0 && z * w == a && q <= z < q + 1.0
    ensures q * w <= a
    ensures a < q * w + w
  {
    ProductBelow(q, z, w);
    ProductAbove(a, w, z, q);
  }

  lemma ProductBelow(q: real, z: real, w: real)
    requires q <= z && w > 0.0
    ensures q * w <= z * w
  {
    var e := z - q;
    ProductSign(e, w);
    ProductDifference(e, z, q, w);
  }

  lemma ProductAbove(a: real, w: real, z: real, q: real)
    requires w > 0.0 && z * w == a && z < q + 1.0
    ensures a < q * w + w
  {
    ProductOver(a, w, z, q + 1.0);
    ProductPlusOne(q, w, (q + 1.0) * w);
  }

  lemma ProductOver(a: real, w: real, z: real, next: real)
    requires w > 0.0 && z * w == a && z < next
    ensures a < next * w
  {
    var e := next - z;
    ProductSign(e, w);
    ProductDifference(e, next, z, w);
  }

  lemma ProductPlusOne(q: real, w: real, product: real)
    requires product == (q + 1.0) * w
    ensures product == q * w + w
  {
  }

  /** An overflow divided evenly among the remaining markets. */
  method Share(overflow: real, remaining: nat) returns (each: real)
    requires remaining > 0 && overflow >= 0.0
    ensures Times(each, remaining) == overflow && each >= 0.0
  {
    each := overflow / remaining as real;
    TimesClosed(each, remaining);
  }

  // ---- the refill loop -------------------------------------------------------------------

  /** The running account: what was added plus what the remaining markets still lack beyond the
      correction is the total residual; after the last market everything is covered. */
  ghost predicate Account(rs: seq<Residual>, added: seq<nat>, c: real)
    requires |added| <= |rs|
  {
    var i := |added|;
    if i < |rs| then Gained(rs, added, i) + Lacking(rs, i) - Times(c, |rs| - i) == Lacking(rs, 0)
    else |rs| > 0 ==> Gained(rs, added, i) >= Lacking(rs, 0)
  }

  /** Market i gets the fewest instances that cover its residual less the correction, and the
      correction grows by what they exceed it by, spread evenly over the markets still to come. */
  ghost predicate FewestAt(rs: seq<Residual>, added: seq<nat>, cs: seq<real>, i: nat)
    requires i < |added| <= |rs| && |cs| == |added| + 1
  {
    var over := Times(rs[i].weight, added[i]) - (rs[i].amount - cs[i]);
    && over >= 0.0 && (added[i] > 0 ==> over < rs[i].weight)
    && (i + 1 < |rs| ==> Times(cs[i + 1] - cs[i], |rs| - (i + 1)) == over)
  }

  /** The instances added so far, with the corrections they were computed under. */
  ghost predicate Fewest(rs: seq<Residual>, added: seq<nat>, cs: seq<real>) {
    && |added| <= |rs| && |cs| == |added| + 1 && cs[0] == 0.0
    && (forall i: nat {:trigger FewestAt(rs, added, cs, i)} :: i < |added| ==> FewestAt(rs, added, cs, i))
  }

  lemma FewestNext(rs: seq<Residual>, added: seq<nat>, cs: seq<real>, num: nat, c: real)
    requires Fewest(rs, added, cs) && |added| < |rs|
    requires var i, cs' := |added|, cs + [c]; FewestAt(rs, added + [num], cs', i)
    ensures Fewest(rs, added + [num], cs + [c])
  {
    var added', cs' := added + [num], cs + [c];
    forall i: nat | i < |added'| ensures FewestAt(rs, added', cs', i) {
      if i < |added| { assert FewestAt(rs, added, cs, i); }
    }
  }

  /** The conditions determine the instances. */
  lemma {:induction false} FewestUnique(rs: seq<Residual>, a: seq<nat>, b: seq<nat>, cs: seq<real>, ds: seq<real>,
                                        i: nat)
    requires Fewest(rs, a, cs) && Fewest(rs, b, ds) && |a| == |b| == |rs| && i < |rs|
    requires forall j :: 0 <= j < |rs| ==> rs[j].weight > 0.0
    ensures cs[i] == ds[i] && a[i] == b[i]
  {
    if i > 0 {
      var k := i - 1;
      FewestUnique(rs, a, b, cs, ds, k);
      assert FewestAt(rs, a, cs, k) && FewestAt(rs, b, ds, k);
      assert cs[k + 1] == cs[i] && ds[k + 1] == ds[i];
      TimesInjective(cs[i] - cs[k], ds[i] - ds[k], |rs| - (k + 1));
    }
    assert FewestAt(rs, a, cs, i) && FewestAt(rs, b, ds, i);
    TimesApart(rs[i].weight, a[i], b[i]);
    TimesApart(rs[i].weight, b[i], a[i]);
  }

  lemma TimesInjective(u: real, v: real, n: nat)
    requires Times(u, n) == Times(v, n) && n > 0
    ensures u == v
  {
    if u < v {
      TimesOrdered(u, v, n);
    } else if v < u {
      TimesOrdered(v, u, n);
    }
  }

  lemma {:induction false} TimesOrdered(u: real, v: real, n: nat)
    requires u < v && n > 0
    ensures Times(u, n) < Times(v, n)
  {
    if n > 1 { TimesOrdered(u, v, n - 1); }
  }

  /** More instances hold at least one more weight. */
  lemma {:induction false} TimesApart(w: real, m: nat, n: nat)
    requires w > 0.0
    ensures m < n ==> Times(w, m) + w <= Times(w, n)
  {
    if m < n { TimesApart(w, m, n - 1); }
  }

  /** The number of instances to add per market, in ascending order of residual: the fewest that do.
      The added capacity covers the total residual and exceeds it by less than the largest weight,
      and a market that gets instances exceeds its own residual by less than its own weight. */
  method Refill(rs: seq<Residual>, ghost maxWeight: real) returns (added: seq<nat>, ghost cs: seq<real>)
    requires forall i :: 0 <= i < |rs| ==> 0.0 < rs[i].weight <= maxWeight
    requires Ordered(rs, ByResidual)
    ensures |added| == |rs| && Fewest(rs, added, cs)
    ensures rs != [] ==> Gained(rs, added, |rs|) >= Lacking(rs, 0)
    ensures Lacking(rs, 0) > -maxWeight ==> Gained(rs, added, |rs|) < Lacking(rs, 0) + maxWeight
    ensures forall i :: 0 <= i < |rs| && added[i] > 0 ==> Times(rs[i].weight, added[i]) < rs[i].amount + rs[i].weight
  {
    var correction := 0.0;
    added, cs := [], [0.0];
    TimesZero(|rs|);
    while |added| < |rs|
      invariant |added| <= |rs| && correction >= 0.0
      invariant Account(rs, added, correction)
      invariant Fewest(rs, added, cs) && cs[|added|] == correction
      invariant Lacking(rs, 0) > -maxWeight ==> Gained(rs, added, |added|) < Lacking(rs, 0) + maxWeight
      invariant forall i :: 0 <= i < |added| && added[i] > 0 ==>
                  Times(rs[i].weight, added[i]) < rs[i].amount + rs[i].weight
    {
      var num;
      num, correction := FillOne(rs, added, correction, maxWeight);
      GainedPrefix(rs, added, added + [num], |added|);
      FewestNext(rs, added, cs, num, correction);
      added, cs := added + [num], cs + [correction];
    }
  }

  lemma {:induction false} TimesZero(n: nat)
    ensures Times(0.0, n) == 0.0
  {
    if n > 0 { TimesZero(n - 1); }
  }

  /** One round of the refill loop. */
  method FillOne(rs: seq<Residual>, added: seq<nat>, c: real, ghost maxWeight: real) returns (num: nat, c': real)
    requires |added| < |rs| && c >= 0.0 && Account(rs, added, c)
    requires forall i :: 0 <= i < |rs| ==> 0.0 < rs[i].weight <= maxWeight
    requires Ordered(rs, ByResidual)
    ensures c' >= c
    ensures Account(rs, added + [num], c')
    ensures var r, over := rs[|added|], Times(rs[|added|].weight, num) - (rs[|added|].amount - c);
      && over >= 0.0 && (num > 0 ==> over < r.weight)
      && (|added| + 1 < |rs| ==> Times(c' - c, |rs| - (|added| + 1)) == over)
    ensures num > 0 ==> Gained(rs, added, |added|) + Times(rs[|added|].weight, num) < Lacking(rs, 0) + maxWeight
  {
    var i, remaining := |added|, |rs| - (|added| + 1);
    var each := 0.0;
    num, c' := 0, c;
    if rs[i].amount < c {
      if remaining > 0 {
        each := Share(c - rs[i].amount, remaining);
      }
    } else {
      var overflow;
      num, overflow := Cover(rs[i].amount - c, rs[i].weight);
      if overflow > 0.0 && remaining > 0 {
        each := Share(overflow, remaining);
      }
      LackingAtLeast(rs, i, c);
    }
    c' := c + each;
    TimesZero(remaining);
    AccountNext(rs, added, c, num, each);
  }

  /** Adding num instances and passing the rest on to the remaining markets keeps the account. */
  lemma AccountNext(rs: seq<Residual>, added: seq<nat>, c: real, num: nat, each: real)
    requires |added| < |rs| && Account(rs, added, c)
    requires var i := |added|; var over := Times(rs[i].weight, num) - rs[i].amount + c;
      if i + 1 < |rs| then Times(each, |rs| - (i + 1)) == over else over >= 0.0
    ensures Account(rs, added + [num], c + each)
  {
    var i := |added|;
    TimesSum(c, each, |rs| - (i + 1));
    GainedPrefix(rs, added, added + [num], i);
    assert Lacking(rs, i) == rs[i].amount + Lacking(rs, i + 1);
    assert Times(c, |rs| - i) == Times(c, |rs| - (i + 1)) + c;
    assert Gained(rs, added + [num], i + 1) == Gained(rs, added, i) + Times(rs[i].weight, num);
  }

  // ---- residuals -------------------------------------------------------------------------

  /** The markets whose bid covers the current price. */
  function Available(types: seq<MarketConfig>, price: Market -> real): seq<MarketConfig> {
    if types == [] then []
    else
      var rest := Available(types[..|types| - 1], price);
      var last := types[|types| - 1];
      if last.bid >= price(last.market) then rest + [last] else rest
  }

  /** The capacity a list of markets holds. */
  ghost function Capacity(types: seq<MarketConfig>, index: Index): real {
    if types == [] then 0.0
    else Capacity(types[..|types| - 1], index) + Held(types[|types| - 1], index)
  }

  ghost function Held(c: MarketConfig, index: Index): real {
    Times(c.weight, |Ids(index, c.market)|)
  }

  /** The share of a market minus what it holds; Piecewise.TimesClosed shows Times to be the product. */
  function ResidualOf(c: MarketConfig, perMarket: real, index: Index, price: Market -> real): Residual {
    Residual(c.market, perMarket - Times(c.weight, |Ids(index, c.market)|), c.weight, price(c.market))
  }

  function Residuals(avail: seq<MarketConfig>, perMarket: real, index: Index, price: Market -> real): (r: seq<Residual>)
    ensures |r| == |avail|
  {
    if avail == [] then []
    else Residuals(avail[..|avail| - 1], perMarket, index, price) +
         [ResidualOf(avail[|avail| - 1], perMarket, index, price)]
  }

  ghost predicate Distinct(types: seq<MarketConfig>) {
    forall i, j :: 0 <= i < j < |types| ==> types[i].market != types[j].market
  }

  ghost function MaxWeight(types: seq<MarketConfig>): real {
    if types == [] then 0.0
    else
      var w := MaxWeight(types[..|types| - 1]);
      if w < types[|types| - 1].weight then types[|types| - 1].weight else w
  }

  lemma {:induction false} MaxWeightBound(types: seq<MarketConfig>, i: nat)
    requires i < |types|
    ensures types[i].weight <= MaxWeight(types)
  {
    if i < |types| - 1 { MaxWeightBound(types[..|types| - 1], i); }
  }

  ghost predicate PositiveWeights(types: seq<MarketConfig>) {
    forall i :: 0 <= i < |types| ==> types[i].weight > 0.0
  }

  /** Every available market is one of the configured ones, each at most once. */
  lemma {:induction false} AvailableFrom(types: seq<MarketConfig>, price: Market -> real, i: nat)
    requires i < |Available(types, price)|
    ensures Available(types, price)[i] in types
    ensures Available(types, price)[i].bid >= price(Available(types, price)[i].market)
  {
    var n := |types| - 1;
    var rest := Available(types[..n], price);
    if i < |rest| { AvailableFrom(types[..n], price, i); }
  }

  /** The markets whose bid covers the price are all available, each as often as it is configured. */
  lemma {:induction false} AvailableIs(types: seq<MarketConfig>, price: Market -> real, c: MarketConfig)
    ensures multiset(Available(types, price))[c] == if c.bid >= price(c.market) then multiset(types)[c] else 0
  {
    if types != [] {
      var p, last := types[..|types| - 1], types[|types| - 1];
      AvailableIs(p, price, c);
      assert types == p + [last];
    }
  }

  /** How many configured markets have a bid that covers their price. */
  ghost function Affordable(types: seq<MarketConfig>, price: Market -> real): nat {
    if types == [] then 0
    else
      var last := types[|types| - 1];
      Affordable(types[..|types| - 1], price) + if last.bid >= price(last.market) then 1 else 0
  }

  /** The capacity those markets hold. */
  ghost function AffordableCapacity(types: seq<MarketConfig>, price: Market -> real, index: Index): real {
    if types == [] then 0.0
    else
      var last := types[|types| - 1];
      AffordableCapacity(types[..|types| - 1], price, index) +
      if last.bid >= price(last.market) then Times(last.weight, |Ids(index, last.market)|) else 0.0
  }

  /** The largest weight among them. */
  ghost function HeaviestAffordable(types: seq<MarketConfig>, price: Market -> real): real {
    if types == [] then 0.0
    else
      var last, heaviest := types[|types| - 1], HeaviestAffordable(types[..|types| - 1], price);
      if last.bid >= price(last.market) && heaviest < last.weight then last.weight else heaviest
  }

  lemma {:induction false} AvailableSums(types: seq<MarketConfig>, price: Market -> real, index: Index)
    ensures |Available(types, price)| == Affordable(types, price)
    ensures Capacity(Available(types, price), index) == AffordableCapacity(types, price, index)
    ensures MaxWeight(Available(types, price)) == HeaviestAffordable(types, price)
  {
    if types != [] {
      var p, last := types[..|types| - 1], types[|types| - 1];
      AvailableSums(p, price, index);
      var a := Available(p, price);
      assert (a + [last])[..|a|] == a;
    }
  }

  lemma {:induction false} AvailableDistinct(types: seq<MarketConfig>, price: Market -> real)
    requires Distinct(types)
    ensures Distinct(Available(types, price))
  {
    if types != [] {
      var p := types[..|types| - 1];
      AvailableDistinct(p, price);
      forall i | 0 <= i < |Available(p, price)|
        ensures Available(p, price)[i].market != types[|types| - 1].market
      {
        AvailableFrom(p, price, i);
      }
    }
  }

  lemma {:induction false} TimesNonNegative(v: real, n: nat)
    requires v >= 0.0
    ensures Times(v, n) >= 0.0
  {
    if n > 0 { TimesNonNegative(v, n - 1); }
  }

  lemma {:induction false} AffordableWithin(types: seq<MarketConfig>, price: Market -> real, index: Index)
    requires PositiveWeights(types)
    ensures 0.0 <= AffordableCapacity(types, price, index) <= Capacity(types, index)
  {
    if types != [] {
      var p, last := types[..|types| - 1], types[|types| - 1];
      AffordableWithin(p, price, index);
      TimesNonNegative(last.weight, |Ids(index, last.market)|);
    }
  }

  // ---- the sums of the residual list -----------------------------------------------------

  ghost function Amounts(): Residual -> real {
    (r: Residual) => r.amount
  }

  ghost function HeldIn(index: Index): Residual -> real {
    (r: Residual) => Times(r.weight, |Ids(index, r.market)|)
  }

  /** Together the available markets lack the target minus what they hold. */
  lemma {:induction false} ResidualSums(avail: seq<MarketConfig>, perMarket: real, index: Index, price: Market -> real)
    ensures SumOf(Residuals(avail, perMarket, index, price), HeldIn(index)) == Capacity(avail, index)
    ensures SumOf(Residuals(avail, perMarket, index, price), Amounts()) ==
            Times(perMarket, |avail|) - Capacity(avail, index)
  {
    if avail != [] {
      var p, last := avail[..|avail| - 1], avail[|avail| - 1];
      ResidualSums(p, perMarket, index, price);
      var rs := Residuals(avail, perMarket, index, price);
      assert rs[..|p|] == Residuals(p, perMarket, index, price);
    }
  }

  lemma {:induction false} LackingIsSum(rs: seq<Residual>, i: nat)
    requires i <= |rs|
    ensures SumOf(rs[..i], Amounts()) + Lacking(rs, i) == Lacking(rs, 0)
  {
    if i > 0 {
      LackingIsSum(rs, i - 1);
      assert rs[..i][..i - 1] == rs[..i - 1];
    } else {
      assert rs[..0] == [];
    }
  }

  lemma {:induction false} TimesAdd(v: real, a: nat, b: nat)
    ensures Times(v, a + b) == Times(v, a) + Times(v, b)
  {
    if b > 0 { TimesAdd(v, a, b - 1); }
  }

  /** Adding the instances raises what the markets hold by exactly what was gained. */
  lemma {:induction false} HeldAfter(rs: seq<Residual>, added: seq<nat>, before: Index, after: Index, i: nat)
    requires i <= |added| <= |rs|
    requires forall j :: 0 <= j < |added| ==> |Ids(after, rs[j].market)| == |Ids(before, rs[j].market)| + added[j]
    ensures SumOf(rs[..i], HeldIn(after)) == SumOf(rs[..i], HeldIn(before)) + Gained(rs, added, i)
  {
    if i > 0 {
      HeldAfter(rs, added, before, after, i - 1);
      assert rs[..i][..i - 1] == rs[..i - 1];
      TimesAdd(rs[i - 1].weight, |Ids(before, rs[i - 1].market)|, added[i - 1]);
    }
  }

  // ---- the plan --------------------------------------------------------------------------

  ghost predicate DistinctMarkets(rs: seq<Residual>) {
    forall i, j :: 0 <= i < j < |rs| ==> rs[i].market != rs[j].market
  }

  lemma {:induction false} InsertDistinct(s: seq<Residual>, x: Residual)
    requires DistinctMarkets(s) && forall i :: 0 <= i < |s| ==> s[i].market != x.market
    ensures DistinctMarkets(Insert(s, x, ByResidual))
  {
    if s != [] && !ByResidual(s[|s| - 1], x) {
      var p, last := s[..|s| - 1], s[|s| - 1];
      InsertDistinct(p, x);
      InsertMultiset(p, x, ByResidual);
      var r := Insert(p, x, ByResidual);
      forall i | 0 <= i < |r| ensures r[i].market != last.market {
        assert r[i] in multiset(p) + multiset{x};
        if r[i] != x { assert r[i] in p; }
      }
    }
  }

  /** The sorted residuals: ordered, one per available market. */
  lemma {:induction false} SortedResiduals(rs: seq<Residual>)
    requires DistinctMarkets(rs)
    ensures DistinctMarkets(SortBy(rs, ByResidual)) && Ordered(SortBy(rs, ByResidual), ByResidual)
    ensures forall r :: r in SortBy(rs, ByResidual) <==> r in rs
  {
    ByResidualTotal();
    SortByCorrect(rs, ByResidual);
    forall r ensures r in SortBy(rs, ByResidual) <==> r in rs {
      assert r in multiset(SortBy(rs, ByResidual)) <==> r in multiset(rs);
    }
    if rs != [] {
      var p, x := rs[..|rs| - 1], rs[|rs| - 1];
      SortedResiduals(p);
      forall i | 0 <= i < |p| ensures SortBy(p, ByResidual)[i].market != x.market {
        assert SortBy(p, ByResidual)[i] in p;
      }
      InsertDistinct(SortBy(p, ByResidual), x);
    }
  }

  lemma {:induction false} ResidualsAt(avail: seq<MarketConfig>, perMarket: real, index: Index, price: Market -> real,
                                       i: nat)
    requires i < |avail|
    ensures Residuals(avail, perMarket, index, price)[i] == ResidualOf(avail[i], perMarket, index, price)
  {
    var n := |avail| - 1;
    if i < n { ResidualsAt(avail[..n], perMarket, index, price, i); }
  }

  /** None of the first n residuals is of this market. */
  ghost predicate NotAmong(rs: seq<Residual>, n: nat, m: Market)
    requires n <= |rs|
  {
    forall j :: 0 <= j < n ==> rs[j].market != m
  }

  /** The j-th residual's market gets its instances on top of those it has. */
  ghost predicate PlannedAt(rs: seq<Residual>, added: seq<nat>, index: Index, counts: map<Market, int>, j: nat)
    requires j < |rs| == |added|
  {
    Count(counts, rs[j].market) == |Ids(index, rs[j].market)| + added[j]
  }

  /** A market none of the first n residuals is of keeps what it has. */
  ghost predicate KeptAt(rs: seq<Residual>, index: Index, counts: map<Market, int>, n: nat, m: Market)
    requires n <= |rs|
  {
    NotAmong(rs, n, m) ==> Count(counts, m) == |Ids(index, m)|
  }

  /** The plan for the first n residuals. */
  ghost predicate Planned(rs: seq<Residual>, added: seq<nat>, index: Index, counts: map<Market, int>, n: nat)
    requires n <= |rs| == |added|
  {
    && (forall j: nat {:trigger PlannedAt(rs, added, index, counts, j)} ::
          j < n ==> PlannedAt(rs, added, index, counts, j))
    && (forall m :: KeptAt(rs, index, counts, n, m))
  }

  /** What a refill plan promises for the sorted residuals of the available markets. */
  ghost predicate PlanFor(rs: seq<Residual>, added: seq<nat>, index: Index, counts: map<Market, int>) {
    |added| == |rs| && Planned(rs, added, index, counts, |rs|)
  }

  function Count(counts: map<Market, int>, m: Market): int {
    if m in counts then counts[m] else 0
  }

  /** Assigning the next count extends the plan. */
  lemma PlannedAssign(rs: seq<Residual>, added: seq<nat>, index: Index, counts: map<Market, int>, n: nat)
    requires n < |rs| == |added| && DistinctMarkets(rs) && Planned(rs, added, index, counts, n)
    ensures Planned(rs, added, index, counts[rs[n].market := |Ids(index, rs[n].market)| + added[n]], n + 1)
  {
    var k := rs[n].market;
    var after := counts[k := |Ids(index, k)| + added[n]];
    forall j: nat | j < n + 1 ensures PlannedAt(rs, added, index, after, j) {
      if j < n { assert PlannedAt(rs, added, index, counts, j) && rs[j].market != k; }
    }
    var next := n + 1;
    forall m ensures KeptAt(rs, index, after, next, m) {
      assert KeptAt(rs, index, counts, n, m);
      NotAmongNext(rs, n, m);
    }
  }

  lemma NotAmongNext(rs: seq<Residual>, n: nat, m: Market)
    requires n < |rs|
    ensures NotAmong(rs, n + 1, m) <==> NotAmong(rs, n, m) && rs[n].market != m
  {
  }

  /** So does leaving it alone when nothing is added. */
  lemma PlannedSkip(rs: seq<Residual>, added: seq<nat>, index: Index, counts: map<Market, int>, n: nat)
    requires n < |rs| == |added| && DistinctMarkets(rs) && Planned(rs, added, index, counts, n) && added[n] == 0
    ensures Planned(rs, added, index, counts, n + 1)
  {
    assert KeptAt(rs, index, counts, n, rs[n].market) && NotAmong(rs, n, rs[n].market);
    forall j: nat | j < n + 1 ensures PlannedAt(rs, added, index, counts, j) {}
    var next := n + 1;
    forall m ensures KeptAt(rs, index, counts, next, m) {
      assert KeptAt(rs, index, counts, n, m);
      NotAmongNext(rs, n, m);
    }
  }

  /** The loop's assignments to the new market counts. */
  method Plan(rs: seq<Residual>, added: seq<nat>, index: Index) returns (counts: map<Market, int>)
    requires |added| == |rs| && DistinctMarkets(rs)
    ensures PlanFor(rs, added, index, counts)
  {
    counts := map m | m in index :: |index[m]|;
    var j := 0;
    while j < |rs|
      invariant j <= |rs| && Planned(rs, added, index, counts, j)
    {
      if added[j] != 0 {
        PlannedAssign(rs, added, index, counts, j);
        counts := counts[rs[j].market := |Ids(index, rs[j].market)| + added[j]];
      } else {
        PlannedSkip(rs, added, index, counts, j);
      }
      j := j + 1;
    }
  }

  /** An equal share of the target for each of n markets. */
  function PerMarket(target: real, n: nat): real {
    if n == 0 then 0.0 else target / n as real
  }

  lemma PerMarketShares(target: real, n: nat)
    requires n > 0
    ensures Times(PerMarket(target, n), n) == target
  {
    TimesClosed(PerMarket(target, n), n);
  }

  /** The residual of some configured market whose bid covers its price: its share minus what it holds. */
  ghost predicate ResidualFrom(types: seq<MarketConfig>, price: Market -> real, perMarket: real, index: Index,
                               r: Residual)
  {
    exists i :: 0 <= i < |types| && types[i].bid >= price(types[i].market) &&
                r.market == types[i].market && r.weight == types[i].weight && r.price == price(types[i].market) &&
                r.amount == perMarket - Times(types[i].weight, |Ids(index, types[i].market)|)
  }

  /** In order of residual, and cheaper ones first among equals. */
  ghost predicate Ascending(rs: seq<Residual>) {
    forall i, j :: 0 <= i < j < |rs| ==>
      rs[i].amount < rs[j].amount || (rs[i].amount == rs[j].amount && rs[i].price <= rs[j].price)
  }

  /** One residual for every configured market whose bid covers its price, for equal shares of the target. */
  ghost predicate ResidualsFor(types: seq<MarketConfig>, price: Market -> real, target: real, index: Index,
                               rs: seq<Residual>)
  {
    && |rs| == Affordable(types, price) && DistinctMarkets(rs) && Ascending(rs)
    && (forall r :: r in rs ==> ResidualFrom(types, price, PerMarket(target, Affordable(types, price)), index, r))
  }

  lemma ResidualsAre(types: seq<MarketConfig>, price: Market -> real, target: real, index: Index)
    requires Distinct(types)
    ensures var avail := Available(types, price);
      ResidualsFor(types, price, target, index,
                   SortBy(Residuals(avail, PerMarket(target, |avail|), index, price), ByResidual))
  {
    var avail := Available(types, price);
    var perMarket := PerMarket(target, |avail|);
    var rs := SortBy(Residuals(avail, perMarket, index, price), ByResidual);
    AvailableSums(types, price, index);
    AvailableDistinct(types, price);
    DistinctResiduals(avail, perMarket, index, price);
    SortedResiduals(Residuals(avail, perMarket, index, price));
    OrderedAscending(rs);
    forall r | r in rs ensures ResidualFrom(types, price, perMarket, index, r) {
      ResidualIsFrom(types, price, perMarket, index, r);
    }
  }

  lemma OrderedAscending(rs: seq<Residual>)
    requires Ordered(rs, ByResidual)
    ensures Ascending(rs)
  {
    forall i, j | 0 <= i < j < |rs|
      ensures rs[i].amount < rs[j].amount || (rs[i].amount == rs[j].amount && rs[i].price <= rs[j].price)
    {
      assert ByResidual(rs[i], rs[j]);
    }
  }

  lemma ResidualIsFrom(types: seq<MarketConfig>, price: Market -> real, perMarket: real, index: Index, r: Residual)
    requires r in SortBy(Residuals(Available(types, price), perMarket, index, price), ByResidual)
    ensures ResidualFrom(types, price, perMarket, index, r)
  {
    var avail := Available(types, price);
    var unsorted := Residuals(avail, perMarket, index, price);
    SortByMember(unsorted, ByResidual, r);
    var k :| 0 <= k < |unsorted| && unsorted[k] == r;
    ResidualsAt(avail, perMarket, index, price, k);
    AvailableFrom(types, price, k);
    var c := avail[k];
    var i :| 0 <= i < |types| && types[i] == c;
    ConfigResidual(types, price, perMarket, index, i);
  }

  lemma ConfigResidual(types: seq<MarketConfig>, price: Market -> real, perMarket: real, index: Index, i: nat)
    requires i < |types| && types[i].bid >= price(types[i].market)
    ensures ResidualFrom(types, price, perMarket, index, ResidualOf(types[i], perMarket, index, price))
  {
  }

  /** The instances added to the j-th market. */
  ghost predicate RaisedAt(rs: seq<Residual>, added: seq<nat>, before: Index, after: Index, j: nat)
    requires j < |rs| == |added|
  {
    |Ids(after, rs[j].market)| == |Ids(before, rs[j].market)| + added[j]
  }

  /** A market without a residual keeps its size. */
  ghost predicate UnchangedAt(rs: seq<Residual>, before: Index, after: Index, m: Market) {
    NotAmong(rs, |rs|, m) ==> |Ids(after, m)| == |Ids(before, m)|
  }

  /** The refill: in order of residual every affordable market gets the fewest instances that cover its
      corrected residual, and no other market changes. */
  ghost predicate RefillPlan(types: seq<MarketConfig>, price: Market -> real, target: real, before: Index, after: Index,
                             rs: seq<Residual>, added: seq<nat>, cs: seq<real>)
  {
    && ResidualsFor(types, price, target, before, rs) && |added| == |rs| && Fewest(rs, added, cs)
    && (forall j: nat {:trigger RaisedAt(rs, added, before, after, j)} ::
          j < |rs| ==> RaisedAt(rs, added, before, after, j))
    && (forall m :: UnchangedAt(rs, before, after, m))
  }

  /** The markets before and after a refill to a target. No market shrinks and only affordable ones grow,
      together to the target and past it by less than the largest weight among them; a market that grows
      ends below its equal share plus its own weight. */
  ghost predicate Refilled(types: seq<MarketConfig>, price: Market -> real, target: real, before: Index, after: Index) {
    var n := Affordable(types, price);
    && (forall m :: |Ids(before, m)| <= |Ids(after, m)|)
    && (n > 0 ==> target <= AffordableCapacity(types, price, after))
    && (n > 0 && AffordableCapacity(types, price, before) < target ==>
          AffordableCapacity(types, price, after) < target + HeaviestAffordable(types, price))
    && (forall m :: |Ids(before, m)| < |Ids(after, m)| ==>
          exists i :: 0 <= i < |types| && types[i].market == m && types[i].bid >= price(m) &&
                      Held(types[i], after) < PerMarket(target, n) + types[i].weight)
    && (exists rs, added, cs :: RefillPlan(types, price, target, before, after, rs, added, cs))
  }

  /** A plan made from the sorted residuals, once carried out, is a refill. */
  lemma PlanRefills(types: seq<MarketConfig>, price: Market -> real, target: real, before: Index, after: Index,
                    rs: seq<Residual>, added: seq<nat>, cs: seq<real>, counts: map<Market, int>)
    requires Distinct(types) && PositiveWeights(types)
    requires var avail := Available(types, price);
             rs == SortBy(Residuals(avail, PerMarket(target, |avail|), before, price), ByResidual)
    requires PlanFor(rs, added, before, counts) && Fewest(rs, added, cs)
    requires forall m :: |Ids(after, m)| == Count(counts, m)
    requires rs != [] ==> Gained(rs, added, |rs|) >= Lacking(rs, 0)
    requires var heaviest := MaxWeight(Available(types, price));
             Lacking(rs, 0) > -heaviest ==> Gained(rs, added, |rs|) < Lacking(rs, 0) + heaviest
    requires forall i :: 0 <= i < |rs| && added[i] > 0 ==> Times(rs[i].weight, added[i]) < rs[i].amount + rs[i].weight
    ensures Refilled(types, price, target, before, after)
  {
    var avail := Available(types, price);
    forall m ensures |Ids(before, m)| <= |Ids(after, m)| {
      CountAtLeast(rs, added, before, counts, m);
    }
    PlanTotals(types, price, target, before, after, rs, added, counts);
    AvailableSums(types, price, before);
    AvailableSums(types, price, after);
    AvailableDistinct(types, price);
    forall m | |Ids(before, m)| < |Ids(after, m)|
      ensures exists i :: 0 <= i < |types| && types[i].market == m && types[i].bid >= price(m) &&
                          Held(types[i], after) < PerMarket(target, |avail|) + types[i].weight
    {
      var k := GrownMarket(avail, price, PerMarket(target, |avail|), before, after, rs, added, counts, m);
      AvailableFrom(types, price, k);
      var i :| 0 <= i < |types| && types[i] == avail[k];
    }
    PlanCarriedOut(types, price, target, before, after, rs, added, cs, counts);
  }

  lemma PlanCarriedOut(types: seq<MarketConfig>, price: Market -> real, target: real, before: Index, after: Index,
                       rs: seq<Residual>, added: seq<nat>, cs: seq<real>, counts: map<Market, int>)
    requires Distinct(types)
    requires var avail := Available(types, price);
             rs == SortBy(Residuals(avail, PerMarket(target, |avail|), before, price), ByResidual)
    requires PlanFor(rs, added, before, counts) && Fewest(rs, added, cs)
    requires forall m :: |Ids(after, m)| == Count(counts, m)
    ensures RefillPlan(types, price, target, before, after, rs, added, cs)
  {
    ResidualsAre(types, price, target, before);
    forall j: nat | j < |rs| ensures RaisedAt(rs, added, before, after, j) {
      assert PlannedAt(rs, added, before, counts, j);
    }
    forall m ensures UnchangedAt(rs, before, after, m) {
      assert KeptAt(rs, before, counts, |rs|, m);
    }
  }

  /** The available markets reach the target, and pass it by less than the largest weight. */
  lemma PlanTotals(types: seq<MarketConfig>, price: Market -> real, target: real, before: Index, after: Index,
                   rs: seq<Residual>, added: seq<nat>, counts: map<Market, int>)
    requires var avail := Available(types, price);
             rs == SortBy(Residuals(avail, PerMarket(target, |avail|), before, price), ByResidual)
    requires PlanFor(rs, added, before, counts)
    requires forall m :: |Ids(after, m)| == Count(counts, m)
    requires rs != [] ==> Gained(rs, added, |rs|) >= Lacking(rs, 0)
    requires var heaviest := MaxWeight(Available(types, price));
             Lacking(rs, 0) > -heaviest ==> Gained(rs, added, |rs|) < Lacking(rs, 0) + heaviest
    ensures var avail := Available(types, price);
      avail != [] ==>
        && target <= Capacity(avail, after)
        && (Capacity(avail, before) < target ==> Capacity(avail, after) < target + MaxWeight(avail))
  {
    var avail := Available(types, price);
    if avail != [] {
      CapacityAfter(avail, price, PerMarket(target, |avail|), before, after, rs, added, counts);
      PerMarketShares(target, |avail|);
      MaxWeightNonNegative(avail);
    }
  }

  lemma {:induction false} MaxWeightNonNegative(types: seq<MarketConfig>)
    ensures MaxWeight(types) >= 0.0
  {
    if types != [] { MaxWeightNonNegative(types[..|types| - 1]); }
  }

  lemma CountAtLeast(rs: seq<Residual>, added: seq<nat>, index: Index, counts: map<Market, int>, m: Market)
    requires PlanFor(rs, added, index, counts)
    ensures Count(counts, m) >= |Ids(index, m)|
  {
    assert KeptAt(rs, index, counts, |rs|, m);
    if !NotAmong(rs, |rs|, m) {
      var j: nat :| j < |rs| && rs[j].market == m;
      assert PlannedAt(rs, added, index, counts, j);
    }
  }

  /** What the available markets hold afterwards is what they held plus what was gained. */
  lemma CapacityAfter(avail: seq<MarketConfig>, price: Market -> real, perMarket: real, before: Index, after: Index,
                      rs: seq<Residual>, added: seq<nat>, counts: map<Market, int>)
    requires rs == SortBy(Residuals(avail, perMarket, before, price), ByResidual)
    requires PlanFor(rs, added, before, counts) && forall m :: |Ids(after, m)| == Count(counts, m)
    ensures Capacity(avail, after) == Capacity(avail, before) + Gained(rs, added, |rs|)
    ensures Lacking(rs, 0) == Times(perMarket, |avail|) - Capacity(avail, before)
    ensures |rs| == |avail|
  {
    var unsorted := Residuals(avail, perMarket, before, price);
    ResidualSums(avail, perMarket, before, price);
    SortBySum(unsorted, ByResidual, Amounts());
    SortBySum(unsorted, ByResidual, HeldIn(before));
    SortBySum(unsorted, ByResidual, HeldIn(after));
    HeldOfMarkets(avail, perMarket, before, after, price);
    LackingIsSum(rs, |rs|);
    forall j | 0 <= j < |added|
      ensures |Ids(after, rs[j].market)| == |Ids(before, rs[j].market)| + added[j]
    {
      assert PlannedAt(rs, added, before, counts, j);
    }
    HeldAfter(rs, added, before, after, |rs|);
    assert rs[..|rs|] == rs;
  }

  lemma {:induction false} HeldOfMarkets(avail: seq<MarketConfig>, perMarket: real, index: Index, other: Index,
                                         price: Market -> real)
    ensures SumOf(Residuals(avail, perMarket, index, price), HeldIn(other)) == Capacity(avail, other)
  {
    if avail != [] {
      var p := avail[..|avail| - 1];
      HeldOfMarkets(p, perMarket, index, other, price);
      var rs := Residuals(avail, perMarket, index, price);
      assert rs[..|p|] == Residuals(p, perMarket, index, price);
    }
  }

  /** A market that grew is an available one and stays below its share plus its own weight. */
  lemma GrownMarket(avail: seq<MarketConfig>, price: Market -> real, perMarket: real, before: Index, after: Index,
                    rs: seq<Residual>, added: seq<nat>, counts: map<Market, int>, m: Market) returns (i: nat)
    requires Distinct(avail)
    requires rs == SortBy(Residuals(avail, perMarket, before, price), ByResidual)
    requires PlanFor(rs, added, before, counts) && |Ids(after, m)| == Count(counts, m)
    requires |Ids(before, m)| < |Ids(after, m)|
    requires forall j :: 0 <= j < |rs| && added[j] > 0 ==> Times(rs[j].weight, added[j]) < rs[j].amount + rs[j].weight
    ensures i < |avail| && avail[i].market == m && Held(avail[i], after) < perMarket + avail[i].weight
  {
    var j := GrownAt(rs, added, before, counts, m);
    i := GrownWithin(avail, price, perMarket, before, after, rs[j], added[j]);
  }

  lemma GrownWithin(avail: seq<MarketConfig>, price: Market -> real, perMarket: real, before: Index, after: Index,
                    r: Residual, n: nat) returns (i: nat)
    requires r in SortBy(Residuals(avail, perMarket, before, price), ByResidual)
    requires |Ids(after, r.market)| == |Ids(before, r.market)| + n
    requires Times(r.weight, n) < r.amount + r.weight
    ensures i < |avail| && avail[i].market == r.market && Held(avail[i], after) < perMarket + avail[i].weight
  {
    i := ConfigOf(avail, price, perMarket, before, r);
    TimesAdd(r.weight, |Ids(before, r.market)|, n);
  }

  lemma GrownAt(rs: seq<Residual>, added: seq<nat>, before: Index, counts: map<Market, int>, m: Market)
    returns (j: nat)
    requires PlanFor(rs, added, before, counts) && |Ids(before, m)| < Count(counts, m)
    ensures j < |rs| && rs[j].market == m && added[j] > 0 && Count(counts, m) == |Ids(before, m)| + added[j]
  {
    assert KeptAt(rs, before, counts, |rs|, m) && !NotAmong(rs, |rs|, m);
    j :| 0 <= j < |rs| && rs[j].market == m;
    assert PlannedAt(rs, added, before, counts, j);
  }

  lemma ConfigOf(avail: seq<MarketConfig>, price: Market -> real, perMarket: real, index: Index, r: Residual)
    returns (i: nat)
    requires r in SortBy(Residuals(avail, perMarket, index, price), ByResidual)
    ensures i < |avail| && r.market == avail[i].market && r.weight == avail[i].weight
    ensures r.amount == perMarket - Held(avail[i], index)
  {
    var unsorted := Residuals(avail, perMarket, index, price);
    SortByMember(unsorted, ByResidual, r);
    i :| 0 <= i < |unsorted| && unsorted[i] == r;
    ResidualsAt(avail, perMarket, index, price, i);
  }

  lemma DistinctResiduals(avail: seq<MarketConfig>, perMarket: real, index: Index, price: Market -> real)
    requires Distinct(avail)
    ensures DistinctMarkets(Residuals(avail, perMarket, index, price))
  {
    forall i | 0 <= i < |avail|
      ensures Residuals(avail, perMarket, index, price)[i].market == avail[i].market
    {
      ResidualsAt(avail, perMarket, index, price, i);
    }
  }

  // ---- the fleet -------------------------------------------------------------------------

  datatype Outcome = Done | ValueError | KeyError

  class SimulatedSpotFleet {
    const types: seq<MarketConfig>
    const cluster: SimulatedAWSCluster
    var targetCapacity: real

    ghost predicate Valid()
      reads this, cluster
    {
      && cluster.Valid() && Distinct(types) && PositiveWeights(types)
    }

    constructor (types: seq<MarketConfig>)
      requires Distinct(types) && PositiveWeights(types)
      ensures Valid() && fresh(cluster) && this.types == types && targetCapacity == 0.0
    {
      this.types := types;
      cluster := new SimulatedAWSCluster();
      targetCapacity := 0.0;
    }

    /** The capacity of all configured markets. */
    ghost function Fulfilled(): real
      reads this, cluster
    {
      Capacity(types, cluster.idsByMarket)
    }

    method FulfilledCapacity() returns (c: real)
      ensures c == Fulfilled()
    {
      c := 0.0;
      var i := 0;
      assert types[..0] == [];
      while i < |types|
        invariant i <= |types| && c == Capacity(types[..i], cluster.idsByMarket)
      {
        c := c + cluster.MarketSize(types[i].market) as real * types[i].weight;
        TimesClosed(types[i].weight, cluster.MarketSize(types[i].market));
        assert types[..i + 1][..i] == types[..i];
        i := i + 1;
      }
      assert types[..i] == types;
    }

    /** Counts for a target below the recorded one are refused. */
    method GetNewMarketCounts(target: real, price: Market -> real)
      returns (outcome: Outcome, ghost rs: seq<Residual>, ghost added: seq<nat>, ghost cs: seq<real>,
               counts: map<Market, int>)
      requires Valid()
      ensures outcome == if target < targetCapacity then ValueError else Done
      ensures outcome == Done ==>
                var avail := Available(types, price);
                && rs == SortBy(Residuals(avail, PerMarket(target, |avail|), cluster.idsByMarket, price), ByResidual)
                && ResidualsFor(types, price, target, cluster.idsByMarket, rs)
                && PlanFor(rs, added, cluster.idsByMarket, counts) && Fewest(rs, added, cs)
                && (rs != [] ==> Gained(rs, added, |rs|) >= Lacking(rs, 0))
                && (Lacking(rs, 0) > -MaxWeight(avail) ==>
                      Gained(rs, added, |rs|) < Lacking(rs, 0) + MaxWeight(avail))
                && (forall i :: 0 <= i < |rs| && added[i] > 0 ==>
                      Times(rs[i].weight, added[i]) < rs[i].amount + rs[i].weight)
    {
      rs, added, cs, counts := [], [], [], map[];
      if target < targetCapacity {
        return ValueError, rs, added, cs, counts;
      }
      outcome := Done;
      var avail := Available(types, price);
      var residuals := Residuals(avail, PerMarket(target, |avail|), cluster.idsByMarket, price);
      AvailableDistinct(types, price);
      DistinctResiduals(avail, PerMarket(target, |avail|), cluster.idsByMarket, price);
      SortedResiduals(residuals);
      var sorted := SortBy(residuals, ByResidual);
      forall i | 0 <= i < |sorted| ensures 0.0 < sorted[i].weight <= MaxWeight(avail) {
        var k := ConfigOf(avail, price, PerMarket(target, |avail|), cluster.idsByMarket, sorted[i]);
        AvailableFrom(types, price, k);
        MaxWeightBound(avail, k);
      }
      ResidualsAre(types, price, target, cluster.idsByMarket);
      var nums;
      nums, cs := Refill(sorted, MaxWeight(avail));
      rs, added := sorted, nums;
      counts := Plan(sorted, nums, cluster.idsByMarket);
    }

    /** Brings the available markets up to the target. */
    method IncreaseCapacityToTarget(target: real, price: Market -> real) returns (outcome: Outcome)
      requires Valid()
      modifies cluster
      ensures Valid()
      ensures outcome == if target < targetCapacity then ValueError else Done
      ensures outcome == Done ==> Refilled(types, price, target, old(cluster.idsByMarket), cluster.idsByMarket)
      ensures outcome != Done ==> cluster.idsByMarket == old(cluster.idsByMarket)
      ensures forall id :: id in cluster.instances ==> id in old(cluster.instances) || old(cluster.nextId) <= id
    {
      ghost var rs, added, cs;
      var counts;
      outcome, rs, added, cs, counts := GetNewMarketCounts(target, price);
      if outcome == Done {
        ghost var before := cluster.idsByMarket;
        forall m ensures Count(counts, m) >= 0 {
          CountAtLeast(rs, added, before, counts, m);
        }
        CarryOut(counts);
        PlanRefills(types, price, target, before, cluster.idsByMarket, rs, added, cs, counts);
      }
    }

    /** Brings every market to its planned count; only new instances are added. */
    method CarryOut(counts: map<Market, int>)
      requires cluster.Valid() && forall m :: Count(counts, m) >= 0
      modifies cluster
      ensures cluster.Valid() && forall m :: |Ids(cluster.idsByMarket, m)| == Count(counts, m)
      ensures forall id :: id in cluster.instances ==> id in old(cluster.instances) || old(cluster.nextId) <= id
    {
      var _, _ := cluster.ModifySize(counts);
      forall m ensures |Ids(cluster.idsByMarket, m)| == Count(counts, m) {
        assert Count(counts, m) >= 0 && cluster.MarketSize(m) == Count(counts, m);
      }
    }

    /** Sets the target; a fleet below it is refilled, one at or above it is left alone. */
    method ModifyTargetCapacity(target: real, price: Market -> real, dryRun: bool)
      requires Valid()
      modifies this, cluster
      ensures Valid() && targetCapacity == if dryRun then old(targetCapacity) else target
      ensures dryRun || target <= old(Fulfilled()) ==> cluster.idsByMarket == old(cluster.idsByMarket)
      ensures !dryRun && old(Fulfilled()) < target ==>
                && Refilled(types, price, target, old(cluster.idsByMarket), cluster.idsByMarket)
                && (Affordable(types, price) > 0 ==>
                      && target <= Fulfilled()
                      && AffordableCapacity(types, price, cluster.idsByMarket) <
                         target + HeaviestAffordable(types, price))
    {
      if dryRun {
        return;
      }
      var current := FulfilledCapacity();
      targetCapacity := target;
      if current < target {
        AffordableWithin(types, price, cluster.idsByMarket);
        var outcome := IncreaseCapacityToTarget(target, price);
        AffordableWithin(types, price, cluster.idsByMarket);
      }
    }

    /** Terminates the given instances and refills the fleet if that left it below its target.
        An unknown id stops the call before anything happens, a repeated one half-way. */
    method TerminateInstancesById(ids: seq<nat>, price: Market -> real) returns (outcome: Outcome)
      requires Valid()
      modifies cluster
      ensures Valid()
      ensures outcome == if NoDuplicates(ids) && Elements(ids) <= old(cluster.instances).Keys then Done else KeyError
      ensures !(Elements(ids) <= old(cluster.instances).Keys) ==> cluster.idsByMarket == old(cluster.idsByMarket)
      ensures Elements(ids) <= old(cluster.instances).Keys && outcome == KeyError ==>
                exists done :: 0 <= done < |ids| && ids[done] in ids[..done] && NoDuplicates(ids[..done]) &&
                               cluster.instances == old(cluster.instances) - Elements(ids[..done])
      ensures outcome == Done ==> forall id :: id in ids ==> id !in cluster.instances
      ensures outcome == Done ==>
                var left := Removed(old(cluster.idsByMarket), Elements(ids));
                if Capacity(types, left) < targetCapacity
                then Refilled(types, price, targetCapacity, left, cluster.idsByMarket)
                else cluster.instances == old(cluster.instances) - Elements(ids) && SameIds(left, cluster.idsByMarket)
      ensures outcome == Done && Affordable(types, price) > 0 ==> targetCapacity <= Fulfilled()
    {
      KnownIff(ids, cluster.instances);
      if !Known(ids, cluster.instances) {
        return KeyError;
      }
      ghost var left := Removed(cluster.idsByMarket, Elements(ids));
      ghost var before := cluster.instances;
      var done := cluster.TerminateInstancesById(ids);
      if done < |ids| {
        assert ids[done] in Elements(ids[..done]);
        return KeyError;
      }
      assert ids[..done] == ids;
      forall m ensures Ids(left, m) == Ids(cluster.idsByMarket, m) {
        RemovedIds(old(cluster.idsByMarket), Elements(ids), m);
      }
      outcome := RestoreCapacity(left, price);
      forall id | id in ids ensures id !in cluster.instances {
        assert id in before && id in Elements(ids);
      }
    }

    /** Refills a fleet that holds less than its target. */
    method RestoreCapacity(ghost left: Index, price: Market -> real) returns (outcome: Outcome)
      requires Valid() && SameIds(left, cluster.idsByMarket)
      modifies cluster
      ensures Valid() && outcome == Done
      ensures if Capacity(types, left) < targetCapacity
              then Refilled(types, price, targetCapacity, left, cluster.idsByMarket)
              else cluster.instances == old(cluster.instances) && SameIds(left, cluster.idsByMarket)
      ensures Affordable(types, price) > 0 ==> targetCapacity <= Fulfilled()
      ensures forall id :: id in cluster.instances ==> id in old(cluster.instances) || old(cluster.nextId) <= id
    {
      outcome := Done;
      SameCapacity(types, left, cluster.idsByMarket);
      var current := FulfilledCapacity();
      if current < targetCapacity {
        ghost var mid := cluster.idsByMarket;
        outcome := IncreaseCapacityToTarget(targetCapacity, price);
        AffordableWithin(types, price, cluster.idsByMarket);
        RefilledFrom(types, price, targetCapacity, mid, left, cluster.idsByMarket);
      }
    }
  }

  predicate Known(ids: seq<nat>, instances: map<nat, Market>) {
    forall i :: 0 <= i < |ids| ==> ids[i] in instances
  }

  lemma KnownIff(ids: seq<nat>, instances: map<nat, Market>)
    ensures Known(ids, instances) <==> Elements(ids) <= instances.Keys
  {
    if Known(ids, instances) {
      forall id | id in Elements(ids) ensures id in instances.Keys {
        var i :| 0 <= i < |ids| && ids[i] == id;
      }
    } else {
      var i :| 0 <= i < |ids| && ids[i] !in instances;
      assert ids[i] in Elements(ids);
    }
  }

  ghost predicate SameIds(a: Index, b: Index) {
    forall m :: Ids(a, m) == Ids(b, m)
  }

  lemma {:induction false} SameCapacity(types: seq<MarketConfig>, a: Index, b: Index)
    requires SameIds(a, b)
    ensures Capacity(types, a) == Capacity(types, b)
  {
    if types != [] { SameCapacity(types[..|types| - 1], a, b); }
  }

  lemma RefilledFrom(types: seq<MarketConfig>, price: Market -> real, target: real, a: Index, b: Index, after: Index)
    requires Refilled(types, price, target, a, after) && SameIds(b, a)
    ensures Refilled(types, price, target, b, after)
  {
    SameAffordable(types, price, a, b);
    var rs, added, cs :| RefillPlan(types, price, target, a, after, rs, added, cs);
    PlanFrom(types, price, target, a, b, after, rs, added, cs);
  }

  lemma {:induction false} SameAffordable(types: seq<MarketConfig>, price: Market -> real, a: Index, b: Index)
    requires SameIds(a, b)
    ensures AffordableCapacity(types, price, a) == AffordableCapacity(types, price, b)
  {
    if types != [] { SameAffordable(types[..|types| - 1], price, a, b); }
  }

  lemma PlanFrom(types: seq<MarketConfig>, price: Market -> real, target: real, a: Index, b: Index, after: Index,
                 rs: seq<Residual>, added: seq<nat>, cs: seq<real>)
    requires RefillPlan(types, price, target, a, after, rs, added, cs) && SameIds(b, a)
    ensures RefillPlan(types, price, target, b, after, rs, added, cs)
  {
    var perMarket := PerMarket(target, Affordable(types, price));
    forall r | r in rs ensures ResidualFrom(types, price, perMarket, b, r) {
      assert ResidualFrom(types, price, perMarket, a, r);
    }
    forall j: nat | j < |rs| ensures RaisedAt(rs, added, b, after, j) {
      assert RaisedAt(rs, added, a, after, j);
    }
    forall m ensures UnchangedAt(rs, b, after, m) {
      assert UnchangedAt(rs, a, after, m);
    }
  }
}
