/** The target capacity for a resource request (clusterman/autoscaler/autoscaler.py). */
module Autoscaling {

  import opened Wrappers

  /** One resource: what is requested of it, what the cluster has, what one unit of capacity has
      brought in the past, and whether it is left out of scaling decisions. */
  datatype Resource = Resource(request: Option<real>, total: real, history: real, excluded: bool)

  datatype Answer<T> = Ok(value: T) | ResourceRequestError | ValueError

  datatype Config = Config(setpoint: real, margin: real)

  datatype Constrained = Constrained(index: nat, usage: real)

  predicate Counted(r: Resource) {
    r.request.Some? && !r.excluded
  }

  /** A resource that counts is requested and not excluded; one of which the cluster has nothing cannot
      be provided. */
  ghost predicate Unavailable(rs: seq<Resource>) {
    exists i :: 0 <= i < |rs| && rs[i].request.Some? && !rs[i].excluded &&
                rs[i].total == 0.0 && rs[i].request.value > 0.0
  }

  ghost predicate NoneCounts(rs: seq<Resource>) {
    forall i :: 0 <= i < |rs| ==> rs[i].request.None? || rs[i].excluded
  }

  /** The share of the cluster's total the request would use; nothing of nothing is no usage. */
  function Usage(r: Resource): real
    requires r.request.Some?
  {
    if r.total == 0.0 then 0.0 else r.request.value / r.total
  }

  /** At the usage the request is that share of the total, and at a higher one it is less. */
  lemma UsageIff(r: Resource, u: real)
    requires r.request.Some?
    ensures r.total > 0.0 ==> (Usage(r) == u <==> r.request.value == u * r.total)
    ensures r.total > 0.0 ==> (Usage(r) <= u <==> r.request.value <= u * r.total)
    ensures r.total == 0.0 ==> Usage(r) == 0.0
  {
    if r.total > 0.0 {
      var q := Usage(r);
      assert q * r.total == r.request.value;
      assert q < u ==> q * r.total < u * r.total;
      assert u < q ==> u * r.total < q * r.total;
    }
  }

  predicate Impossible(r: Resource) {
    Counted(r) && r.total == 0.0 && r.request.value > 0.0
  }

  /** The first counted resource with the highest usage. */
  method MostConstrained(rs: seq<Resource>) returns (r: Answer<Constrained>)
    ensures r.ResourceRequestError? <==> Unavailable(rs)
    ensures r.ValueError? <==> NoneCounts(rs)
    ensures r.Ok? ==> IsMostConstrained(rs, r.value)
    ensures r.Ok? ==> forall i :: 0 <= i < r.value.index && rs[i].request.Some? && !rs[i].excluded ==>
              Usage(rs[i]) < r.value.usage
  {
    var best: Option<Constrained> := None;
    var i := 0;
    while i < |rs|
      invariant i <= |rs|
      invariant forall j :: 0 <= j < i ==> !Impossible(rs[j])
      invariant best.None? ==> forall j :: 0 <= j < i ==> !Counted(rs[j])
      invariant best.Some? ==>
                  && best.value.index < i && Counted(rs[best.value.index])
                  && best.value.usage == Usage(rs[best.value.index])
                  && (forall j :: 0 <= j < i && Counted(rs[j]) ==> Usage(rs[j]) <= best.value.usage)
                  && (forall j :: 0 <= j < best.value.index && Counted(rs[j]) ==> Usage(rs[j]) < best.value.usage)
    {
      if Counted(rs[i]) {
        if Impossible(rs[i]) {
          assert rs[i].request.Some? && !rs[i].excluded;
          return ResourceRequestError;
        }
        var usage := Usage(rs[i]);
        if best.None? || best.value.usage < usage {
          best := Some(Constrained(i, usage));
        }
      }
      i := i + 1;
    }
    return if best.None? then ValueError else Ok(best.value);
  }

  ghost predicate IsMostConstrained(rs: seq<Resource>, c: Constrained) {
    && c.index < |rs| && rs[c.index].request.Some? && !rs[c.index].excluded && c.usage == Usage(rs[c.index])
    && !Unavailable(rs)
    && forall j :: 0 <= j < |rs| && rs[j].request.Some? && !rs[j].excluded ==> Usage(rs[j]) <= c.usage
  }

  /** The capacity at which the most constrained resource is used at the setpoint. */
  function PreMargin(cap: real, usage: real, setpoint: real): real
    requires setpoint != 0.0
  {
    cap * (usage / setpoint)
  }

  predicate WithinMargin(current: real, target: real, margin: real)
    requires current != 0.0
  {
    (if target < current then current - target else target - current) / current < margin
  }

  /** Strictly within the margin of the current target. */
  ghost predicate Near(current: real, target: real, margin: real) {
    -(margin * current) < target - current < margin * current
  }

  lemma WithinMarginIff(current: real, target: real, margin: real)
    requires current > 0.0
    ensures WithinMargin(current, target, margin) <==> Near(current, target, margin)
  {
    var d := if target < current then current - target else target - current;
    var q := d / current;
    Undivide(d, current, q);
    assert q < margin ==> q * current < margin * current;
    assert margin <= q ==> margin * current <= q * current;
  }

  lemma Undivide(v: real, s: real, quotient: real)
    requires s != 0.0 && quotient == v / s
    ensures quotient * s == v
  {
  }

  /** The capacity a request needs according to what one unit brought in the past. */
  function Weighted(r: Resource): real
    requires r.history != 0.0
  {
    (if r.request.None? then 0.0 else r.request.value) / r.history
  }

  lemma WeightedIs(r: Resource)
    requires r.history != 0.0
    ensures r.request.Some? ==> Weighted(r) * r.history == r.request.value
    ensures r.request.None? ==> Weighted(r) == 0.0
  {
    var q := Weighted(r);
    assert r.request.Some? ==> q * r.history == r.request.value;
    assert r.request.None? ==> q == 0.0 / r.history;
  }

  /** The capacity that past weights say the request needs; the default when there are none. */
  method FromHistory(rs: seq<Resource>, setpoint: real) returns (target: real)
    requires setpoint > 0.0
    ensures (forall i :: 0 <= i < |rs| ==> rs[i].history == 0.0) ==> target == 1.0
    ensures forall i :: 0 <= i < |rs| && rs[i].history != 0.0 ==> Weighted(rs[i]) <= target * setpoint
    ensures (exists i :: 0 <= i < |rs| && rs[i].history != 0.0) ==>
              exists i :: 0 <= i < |rs| && rs[i].history != 0.0 && Weighted(rs[i]) == target * setpoint
  {
    var best: Option<real> := None;
    var i := 0;
    while i < |rs|
      invariant i <= |rs|
      invariant best.None? <==> forall j :: 0 <= j < i ==> rs[j].history == 0.0
      invariant best.Some? ==>
                  forall j :: 0 <= j < i && rs[j].history != 0.0 ==> Weighted(rs[j]) <= best.value
      invariant best.Some? ==>
                  exists j :: 0 <= j < i && rs[j].history != 0.0 && Weighted(rs[j]) == best.value
    {
      if rs[i].history != 0.0 {
        var weighted := Weighted(rs[i]);
        if best.None? || best.value < weighted {
          best := Some(weighted);
        }
      }
      i := i + 1;
    }
    target := if best.None? then 1.0 else best.value / setpoint;
    if best.Some? {
      Undivide(best.value, setpoint, target);
    }
  }

  /** Every quantity is zero or missing. */
  ghost predicate OnlyZeros(rs: seq<Resource>) {
    forall r :: r in rs && r.request.Some? ==> r.request.value == 0.0
  }

  /** The branches of the target computation. */
  method ComputeTargetCapacity(rs: seq<Resource>, current: real, cap: real, config: Config)
    returns (r: Answer<real>, ghost c: Option<Constrained>)
    requires config.setpoint > 0.0
    ensures (forall i :: 0 <= i < |rs| ==> rs[i].request.None?) ==> r == Ok(current)
    ensures OnlyZeros(rs) && (exists i :: 0 <= i < |rs| && rs[i].request.Some?) ==> r == Ok(0.0)
    ensures !OnlyZeros(rs) && current == 0.0 ==>
              r.Ok? && forall i :: 0 <= i < |rs| && rs[i].history != 0.0 ==>
                         Weighted(rs[i]) <= r.value * config.setpoint
    ensures !OnlyZeros(rs) && current == 0.0 && (forall i :: 0 <= i < |rs| ==> rs[i].history == 0.0) ==> r == Ok(1.0)
    ensures !OnlyZeros(rs) && current != 0.0 && cap == 0.0 ==> r == Ok(current)
    ensures !OnlyZeros(rs) && current != 0.0 && cap != 0.0 ==>
              && (r.ResourceRequestError? <==> Unavailable(rs))
              && (r.ValueError? <==> NoneCounts(rs))
              && (r.Ok? <==> c.Some?)
              && (c.Some? ==>
                    && IsMostConstrained(rs, c.value)
                    && var target := PreMargin(cap, c.value.usage, config.setpoint);
                       && r.value == (if WithinMargin(current, target, config.margin) then current else target)
                       && (current > 0.0 ==>
                             r.value == if Near(current, target, config.margin) then current else target))
  {
    c := None;
    if forall i :: 0 <= i < |rs| ==> rs[i].request.None? {
      return Ok(current), c;
    } else if NoRequest(rs) {
      return Ok(0.0), c;
    } else if current == 0.0 {
      var t := FromHistory(rs, config.setpoint);
      return Ok(t), c;
    } else if cap == 0.0 {
      return Ok(current), c;
    }
    r, c := TargetAtSetpoint(rs, current, cap, config);
  }

  /** The last branch: the capacity that puts the most constrained resource at the setpoint, unless the
      current target is within the margin of it. */
  method TargetAtSetpoint(rs: seq<Resource>, current: real, cap: real, config: Config)
    returns (r: Answer<real>, ghost c: Option<Constrained>)
    requires config.setpoint > 0.0 && current != 0.0
    ensures r.ResourceRequestError? <==> Unavailable(rs)
    ensures r.ValueError? <==> NoneCounts(rs)
    ensures r.Ok? <==> c.Some?
    ensures c.Some? ==>
              && IsMostConstrained(rs, c.value)
              && var target := PreMargin(cap, c.value.usage, config.setpoint);
                 && r.value == (if WithinMargin(current, target, config.margin) then current else target)
                 && (current > 0.0 ==>
                       r.value == if Near(current, target, config.margin) then current else target)
  {
    c := None;
    var most := MostConstrained(rs);
    match most {
      case ResourceRequestError => return ResourceRequestError, c;
      case ValueError => return ValueError, c;
      case Ok(m) =>
        c := Some(m);
        var target := PreMargin(cap, m.usage, config.setpoint);
        if current > 0.0 {
          WithinMarginIff(current, target, config.margin);
        }
        return Ok(if WithinMargin(current, target, config.margin) then current else target), c;
    }
  }

  /** Nothing but zeros and missing quantities. */
  predicate NoRequest(rs: seq<Resource>) {
    forall i :: 0 <= i < |rs| ==> rs[i].request.None? || rs[i].request.value == 0.0
  }

  // ---- the setpoint ----------------------------------------------------------------------

  /** The cluster with the given capacity, when every unit of capacity brings rates[i] of resource i. */
  function At(rs: seq<Resource>, rates: seq<real>, cap: real): (r: seq<Resource>)
    requires |rates| == |rs|
    ensures |r| == |rs| && forall i :: 0 <= i < |rs| ==> r[i] == rs[i].(total := rates[i] * cap)
  {
    seq(|rs|, i requires 0 <= i < |rs| => rs[i].(total := rates[i] * cap))
  }

  ghost predicate Meaningful(rs: seq<Resource>, rates: seq<real>) {
    && |rates| == |rs|
    && forall i :: 0 <= i < |rs| ==> rates[i] >= 0.0 && (rs[i].request.Some? ==> rs[i].request.value >= 0.0)
  }

  /** With total rate * cap, a usage of at most `usage` means that at the target the request is at
      most the setpoint's share of the total there; equal usage means exactly that share. */
  lemma SetpointShare(request: real, rate: real, cap: real, usage: real, setpoint: real)
    requires cap > 0.0 && setpoint > 0.0 && rate >= 0.0 && request >= 0.0
    requires rate == 0.0 ==> request == 0.0
    requires rate > 0.0 ==> rate * cap > 0.0 && request / (rate * cap) <= usage
    ensures request <= setpoint * (rate * PreMargin(cap, usage, setpoint))
    ensures (rate > 0.0 && request / (rate * cap) == usage) || (rate == 0.0 && request == 0.0) ==>
              request == setpoint * (rate * PreMargin(cap, usage, setpoint))
  {
    ShareProduct(rate, cap, usage, setpoint);
    if rate > 0.0 {
      var u := request / (rate * cap);
      assert u * (rate * cap) == request;
      MonotoneProduct(u, usage, rate * cap);
    }
  }

  lemma ShareProduct(rate: real, cap: real, usage: real, setpoint: real)
    requires setpoint > 0.0
    ensures setpoint * (rate * PreMargin(cap, usage, setpoint)) == usage * (rate * cap)
  {
    var q := usage / setpoint;
    assert q * setpoint == usage;
    assert setpoint * (rate * (cap * q)) == (q * setpoint) * (rate * cap);
  }

  lemma MonotoneProduct(u: real, v: real, w: real)
    requires u <= v && w > 0.0
    ensures u * w <= v * w
  {
  }

  /** The part of a resource that the setpoint lets be used when the capacity is target. */
  ghost function SetpointOf(rate: real, target: real, setpoint: real): real {
    setpoint * (rate * target)
  }

  /** If the cluster's totals are proportional to its capacity, the target puts every counted
      resource at or below the setpoint and the most constrained one exactly at it. */
  lemma TargetMeetsSetpoint(rs: seq<Resource>, rates: seq<real>, cap: real, setpoint: real, c: Constrained)
    requires Meaningful(rs, rates) && cap > 0.0 && setpoint > 0.0
    requires IsMostConstrained(At(rs, rates, cap), c)
    ensures var target := PreMargin(cap, c.usage, setpoint);
            && target >= 0.0
            && (forall j :: 0 <= j < |rs| && Counted(rs[j]) ==>
                  rs[j].request.value <= SetpointOf(rates[j], target, setpoint))
            && rs[c.index].request.value == SetpointOf(rates[c.index], target, setpoint)
  {
    var at := At(rs, rates, cap);
    forall j | 0 <= j < |rs| && Counted(rs[j])
      ensures rs[j].request.value <= SetpointOf(rates[j], PreMargin(cap, c.usage, setpoint), setpoint)
      ensures j == c.index ==> rs[j].request.value == SetpointOf(rates[j], PreMargin(cap, c.usage, setpoint), setpoint)
    {
      assert Counted(at[j]) && !Impossible(at[j]) && Usage(at[j]) <= c.usage;
      RatePositive(rates[j], cap);
      SetpointShare(rs[j].request.value, rates[j], cap, c.usage, setpoint);
    }
    RatePositive(rates[c.index], cap);
    UsageNonNegative(at[c.index]);
    TargetNonNegative(cap, c.usage, setpoint);
  }

  lemma RatePositive(rate: real, cap: real)
    requires cap > 0.0
    ensures rate > 0.0 ==> rate * cap > 0.0
    ensures rate == 0.0 ==> rate * cap == 0.0
  {
  }

  lemma UsageNonNegative(r: Resource)
    requires r.request.Some? && r.request.value >= 0.0 && r.total >= 0.0
    ensures Usage(r) >= 0.0
  {
  }

  lemma TargetNonNegative(cap: real, usage: real, setpoint: real)
    requires cap > 0.0 && usage >= 0.0 && setpoint > 0.0
    ensures PreMargin(cap, usage, setpoint) >= 0.0
    ensures usage == 0.0 ==> PreMargin(cap, usage, setpoint) == 0.0
  {
  }

  lemma CancelProduct(rate: real, t: real, u: real, setpoint: real)
    requires rate > 0.0 && setpoint > 0.0 && SetpointOf(rate, t, setpoint) <= SetpointOf(rate, u, setpoint)
    ensures t <= u
  {
    var k := setpoint * rate;
    assert k > 0.0;
    assert k * t == SetpointOf(rate, t, setpoint) && k * u == SetpointOf(rate, u, setpoint);
    assert t > u ==> k * t > k * u;
  }

  /** The target does not depend on the capacity the cluster happens to have. */
  lemma TargetIndependent(rs: seq<Resource>, rates: seq<real>, cap: real, cap': real, setpoint: real,
                          c: Constrained, c': Constrained)
    requires Meaningful(rs, rates) && cap > 0.0 && cap' > 0.0 && setpoint > 0.0
    requires IsMostConstrained(At(rs, rates, cap), c) && IsMostConstrained(At(rs, rates, cap'), c')
    ensures PreMargin(cap, c.usage, setpoint) == PreMargin(cap', c'.usage, setpoint)
  {
    TargetAtMost(rs, rates, cap, cap', setpoint, c, c');
    TargetAtMost(rs, rates, cap', cap, setpoint, c', c);
  }

  lemma TargetAtMost(rs: seq<Resource>, rates: seq<real>, cap: real, cap': real, setpoint: real,
                     c: Constrained, c': Constrained)
    requires Meaningful(rs, rates) && cap > 0.0 && cap' > 0.0 && setpoint > 0.0
    requires IsMostConstrained(At(rs, rates, cap), c) && IsMostConstrained(At(rs, rates, cap'), c')
    ensures PreMargin(cap, c.usage, setpoint) <= PreMargin(cap', c'.usage, setpoint)
  {
    var t, u := PreMargin(cap, c.usage, setpoint), PreMargin(cap', c'.usage, setpoint);
    TargetMeetsSetpoint(rs, rates, cap, setpoint, c);
    TargetMeetsSetpoint(rs, rates, cap', setpoint, c');
    var i := c.index;
    assert Counted(rs[i]) by { assert Counted(At(rs, rates, cap)[i]); }
    if rates[i] > 0.0 {
      CancelProduct(rates[i], t, u, setpoint);
    } else {
      RatePositive(rates[i], cap);
      TargetNonNegative(cap, c.usage, setpoint);
    }
  }

  /** Once the cluster and its target are at the computed capacity, running again with the same
      request changes nothing, whatever the margin. */
  lemma SetpointFixpoint(rs: seq<Resource>, rates: seq<real>, cap: real, config: Config, c: Constrained,
                         c': Constrained)
    requires Meaningful(rs, rates) && cap > 0.0 && config.setpoint > 0.0
    requires IsMostConstrained(At(rs, rates, cap), c)
    requires PreMargin(cap, c.usage, config.setpoint) > 0.0
    requires IsMostConstrained(At(rs, rates, PreMargin(cap, c.usage, config.setpoint)), c')
    ensures var target := PreMargin(cap, c.usage, config.setpoint);
            var again := PreMargin(target, c'.usage, config.setpoint);
            (if WithinMargin(target, again, config.margin) then target else again) == target
  {
    TargetIndependent(rs, rates, cap, PreMargin(cap, c.usage, config.setpoint), config.setpoint, c, c');
  }
}
