/** Capacity changes of a pool (clusterman/autoscaler/pool_manager.py): the scaling limits, the
    distribution of a new target over the resource groups, and their repeated application. */
module PoolManagement {
  import opened Arithmetic
  import opened WaterFilling
  import opened Wrappers

  /** A resource group; string ids are only compared for order, so an integer stands for one. */
  datatype Group = Group(id: int, target: int, minCapacity: int, maxCapacity: int, stale: bool)

  datatype Limits = Limits(minCapacity: int, maxCapacity: int, maxWeightToAdd: int, maxWeightToRemove: int)

  function Ceil(x: real): int {
    -((-x).Floor)
  }

  lemma CeilBounds(x: real)
    ensures Ceil(x) as real - 1.0 < x <= Ceil(x) as real
  {
  }

  lemma CeilShift(x: real, n: int)
    ensures Ceil(x + n as real) == Ceil(x) + n
    ensures Ceil(n as real) == n
  {
  }

  function MinR(a: real, b: real): real { if a < b then a else b }

  function MaxR(a: real, b: real): real { if a < b then b else a }

  function Clamp(x: int, lo: int, hi: int): int {
    if x < lo then lo else if hi < x then hi else x
  }

  // ---- the scaling limits ---------------------------------------------------------------

  /** The capacity a request is restricted to. */
  function Constrain(l: Limits, total: int, requested: real, force: bool, noScaleDown: bool): real {
    var t := total as real;
    var requestedDelta := requested - t;
    var d1 := if requestedDelta > 0.0 then MinR(l.maxCapacity as real - t, requestedDelta)
              else if requestedDelta < 0.0 then MaxR(l.minCapacity as real - t, requestedDelta)
              else 0.0;
    var d2 := if d1 > 0.0 then MinR(l.maxWeightToAdd as real, d1)
              else if d1 < 0.0 then MaxR(-(l.maxWeightToRemove as real), d1)
              else d1;
    var delta := if noScaleDown then MaxR(d2, 0.0) else d2;
    if requestedDelta != delta && force then t + requestedDelta else t + delta
  }

  ghost predicate SaneLimits(l: Limits) {
    l.minCapacity <= l.maxCapacity && l.maxWeightToAdd >= 0 && l.maxWeightToRemove >= 0
  }

  /** The request, cut to the pool's range, in whole units. */
  function Goal(l: Limits, requested: real): int {
    Clamp(Ceil(requested), l.minCapacity, l.maxCapacity)
  }

  /** The total an unforced request leads to from a total within the range. */
  function NextTotal(l: Limits, total: int, requested: real): int {
    Ceil(Constrain(l, total, requested, false, false))
  }

  /** An unforced request moves the total towards its goal by at most the weight limits, exactly. */
  lemma NextTotalExact(l: Limits, total: int, requested: real)
    requires SaneLimits(l) && l.minCapacity <= total <= l.maxCapacity
    ensures NextTotal(l, total, requested) ==
            total + Clamp(Goal(l, requested) - total, -l.maxWeightToRemove, l.maxWeightToAdd)
  {
    var x := Constrain(l, total, requested, false, false);
    CeilBounds(requested);
    CeilBounds(x);
    CeilBounds(requested - total as real);
    CeilShift(x, 0);
  }

  /** Where an unforced request aims: at the request, cut off at the maximum if it is above the total
      and at the minimum if it is below, even when the total is beyond that end of the range. */
  function Aim(l: Limits, total: int, requested: real): int {
    if requested > total as real then (if Ceil(requested) < l.maxCapacity then Ceil(requested) else l.maxCapacity)
    else if requested < total as real then (if l.minCapacity < Ceil(requested) then Ceil(requested) else l.minCapacity)
    else total
  }

  /** From any total an unforced request gets as close to its aim as the weight limits let it; when
      scaling down is forbidden it goes no lower than the total, and up as before. */
  lemma ConstrainExact(l: Limits, total: int, requested: real, noScaleDown: bool)
    requires SaneLimits(l)
    ensures Ceil(Constrain(l, total, requested, false, noScaleDown)) ==
            total + Clamp(Aim(l, total, requested) - total, if noScaleDown then 0 else -l.maxWeightToRemove,
                          l.maxWeightToAdd)
  {
    var x := Constrain(l, total, requested, false, noScaleDown);
    CeilBounds(requested);
    CeilBounds(x);
    CeilBounds(requested - total as real);
    CeilShift(x, 0);
  }

  /** The same before rounding, which is what the request returns. */
  lemma ConstrainUnrounded(l: Limits, total: int, requested: real, noScaleDown: bool)
    requires SaneLimits(l)
    ensures var t, x := total as real, Constrain(l, total, requested, false, noScaleDown);
            var aim := if requested > t then (if requested < l.maxCapacity as real then requested
                                              else l.maxCapacity as real)
                       else if requested < t then (if l.minCapacity as real < requested then requested
                                                   else l.minCapacity as real)
                       else t;
            && (aim > t ==> x == if aim - t < l.maxWeightToAdd as real then aim else t + l.maxWeightToAdd as real)
            && (aim < t && noScaleDown ==> x == t)
            && (aim < t && !noScaleDown ==>
                  x == if t - aim < l.maxWeightToRemove as real then aim else t - l.maxWeightToRemove as real)
            && (aim == t ==> x == t)
  {
  }

  /** Within the range the aim is as good as the goal. */
  lemma AimWithin(l: Limits, total: int, requested: real, down: int)
    requires SaneLimits(l) && l.minCapacity <= total <= l.maxCapacity && down <= 0
    ensures Clamp(Aim(l, total, requested) - total, down, l.maxWeightToAdd) ==
            Clamp(Goal(l, requested) - total, down, l.maxWeightToAdd)
  {
    CeilBounds(requested);
  }

  /** Unforced, the range and the weight limits hold, and without scale-down nothing is lowered. */
  lemma ConstrainWithinLimits(l: Limits, total: int, requested: real, noScaleDown: bool)
    requires SaneLimits(l) && l.minCapacity <= total <= l.maxCapacity
    ensures var x := Constrain(l, total, requested, false, noScaleDown);
            && l.minCapacity <= Ceil(x) <= l.maxCapacity
            && -l.maxWeightToRemove <= Ceil(x) - total <= l.maxWeightToAdd
            && (noScaleDown ==> total <= Ceil(x))
  {
    CeilBounds(Constrain(l, total, requested, false, noScaleDown));
  }

  /** From outside the range every unforced request stays or moves towards the range, and not past its
      near end, even when it asks for the opposite. */
  lemma ConstrainTowardsRange(l: Limits, total: int, requested: real)
    requires SaneLimits(l)
    ensures var x := Constrain(l, total, requested, false, false);
            && (l.maxCapacity < total && total as real < requested ==>
                  && l.maxCapacity as real <= x <= total as real
                  && (l.maxWeightToRemove > 0 ==> x < total as real))
            && (total < l.minCapacity && requested < total as real ==>
                  && total as real <= x <= l.minCapacity as real
                  && (l.maxWeightToAdd > 0 ==> total as real < x))
  {
  }

  /** Forced, the request itself is taken. */
  lemma ForcedTakesRequest(l: Limits, total: int, requested: real, noScaleDown: bool)
    ensures Constrain(l, total, requested, true, noScaleDown) == requested
  {
  }

  /** The total after n unforced repetitions of one request. */
  function Rounds(l: Limits, total: int, requested: real, n: nat): int {
    if n == 0 then total else NextTotal(l, Rounds(l, total, requested, n - 1), requested)
  }

  lemma {:induction false} RoundsWithin(l: Limits, total: int, requested: real, n: nat)
    requires SaneLimits(l) && l.minCapacity <= total <= l.maxCapacity
    ensures l.minCapacity <= Rounds(l, total, requested, n) <= l.maxCapacity
  {
    if n > 0 {
      RoundsWithin(l, total, requested, n - 1);
      NextWithin(l, Rounds(l, total, requested, n - 1), requested);
    }
  }

  lemma NextWithin(l: Limits, total: int, requested: real)
    requires SaneLimits(l) && l.minCapacity <= total <= l.maxCapacity
    ensures l.minCapacity <= NextTotal(l, total, requested) <= l.maxCapacity
  {
    NextTotalExact(l, total, requested);
  }

  /** From total towards a goal, down by at most `down` or up by at most `up`. */
  function Towards(goal: int, total: int, down: int, up: int): int {
    total + Clamp(goal - total, -down, up)
  }

  lemma RoundsNext(l: Limits, total: int, requested: real, n: nat)
    requires SaneLimits(l) && n > 0
    requires l.minCapacity <= Rounds(l, total, requested, n - 1) <= l.maxCapacity
    ensures Rounds(l, total, requested, n) ==
            Towards(Goal(l, requested), Rounds(l, total, requested, n - 1), l.maxWeightToRemove, l.maxWeightToAdd)
  {
    NextTotalExact(l, Rounds(l, total, requested, n - 1), requested);
  }

  /** Bounded steps towards a goal add up. */
  lemma {:induction false} StepsTowards(goal: int, down: int, up: int, f: nat -> int, n: nat)
    requires down >= 0 && up >= 0
    requires forall k: nat :: 0 < k <= n ==> f(k) == Towards(goal, f(k - 1), down, up)
    ensures f(n) == Towards(goal, f(0), Multiple(down, n), Multiple(up, n))
  {
    MultipleNonNegative(down, n);
    MultipleNonNegative(up, n);
    if n > 0 {
      StepsTowards(goal, down, up, f, n - 1);
      MultipleNonNegative(down, n - 1);
      MultipleNonNegative(up, n - 1);
      TowardsTwice(goal, f(0), Multiple(down, n - 1), Multiple(up, n - 1), down, up);
    }
  }

  /** After n rounds the total is the goal, or n full steps closer to it. */
  lemma RoundsExact(l: Limits, total: int, requested: real, n: nat)
    requires SaneLimits(l) && l.minCapacity <= total <= l.maxCapacity
    ensures l.minCapacity <= Rounds(l, total, requested, n) <= l.maxCapacity
    ensures Rounds(l, total, requested, n) ==
            Towards(Goal(l, requested), total, n * l.maxWeightToRemove, n * l.maxWeightToAdd)
  {
    MultipleClosed(l.maxWeightToRemove, n);
    MultipleClosed(l.maxWeightToAdd, n);
    RoundsAddUp(l, total, requested, n);
  }

  lemma RoundsAddUp(l: Limits, total: int, requested: real, n: nat)
    requires SaneLimits(l) && l.minCapacity <= total <= l.maxCapacity
    ensures l.minCapacity <= Rounds(l, total, requested, n) <= l.maxCapacity
    ensures Rounds(l, total, requested, n) ==
            Towards(Goal(l, requested), total, Multiple(l.maxWeightToRemove, n), Multiple(l.maxWeightToAdd, n))
  {
    var f := (k: nat) => Rounds(l, total, requested, k);
    forall k: nat | 0 < k <= n
      ensures f(k) == Towards(Goal(l, requested), f(k - 1), l.maxWeightToRemove, l.maxWeightToAdd)
    {
      RoundsWithin(l, total, requested, k - 1);
      RoundsNext(l, total, requested, k);
    }
    StepsTowards(Goal(l, requested), l.maxWeightToRemove, l.maxWeightToAdd, f, n);
    RoundsWithin(l, total, requested, n);
  }

  lemma TowardsTwice(goal: int, total: int, down: int, up: int, down': int, up': int)
    requires down >= 0 && up >= 0 && down' >= 0 && up' >= 0
    ensures Towards(goal, Towards(goal, total, down, up), down', up') == Towards(goal, total, down + down', up + up')
  {
    ClampTwice(goal - total, down, up, down', up');
  }

  /** Two bounded steps towards a goal are one step with the sum of the bounds. */
  lemma ClampTwice(d: int, down: int, up: int, down': int, up': int)
    requires down >= 0 && up >= 0 && down' >= 0 && up' >= 0
    ensures Clamp(d, -down, up) + Clamp(d - Clamp(d, -down, up), -down', up') == Clamp(d, -(down + down'), up + up')
  {
  }

  /** With positive weight limits the goal is reached in as many rounds as there are units to go,
      and every later round leaves it there. */
  lemma RoundsReachGoal(l: Limits, total: int, requested: real, n: nat)
    requires SaneLimits(l) && l.minCapacity <= total <= l.maxCapacity
    requires l.maxWeightToAdd > 0 && l.maxWeightToRemove > 0
    requires -(n as int) <= Goal(l, requested) - total <= n
    ensures Rounds(l, total, requested, n) == Goal(l, requested)
  {
    RoundsAddUp(l, total, requested, n);
    MultipleAtLeast(l.maxWeightToAdd, n);
    MultipleAtLeast(l.maxWeightToRemove, n);
  }

  // ---- the distribution over the groups -------------------------------------------------

  /** The distribution works with everything multiplied by the coefficient 1 or -1. */
  function Signed(coeff: int, x: int): int {
    if coeff > 0 then x else -x
  }

  /** The total target of the groups that are not stale. */
  function TotalTarget(groups: seq<Group>): int {
    if groups == [] then 0
    else
      var g := groups[|groups| - 1];
      TotalTarget(groups[..|groups| - 1]) + (if g.stale then 0 else g.target)
  }

  function StartOf(g: Group): int {
    if g.stale then 0 else g.target
  }

  /** The targets the loop starts from: stale groups at 0. */
  function Starts(groups: seq<Group>): (s: seq<int>)
    ensures |s| == |groups| && forall i :: 0 <= i < |s| ==> s[i] == StartOf(groups[i])
  {
    seq(|groups|, i requires 0 <= i < |groups| => StartOf(groups[i]))
  }

  function Negated(coeff: int, s: seq<int>): (r: seq<int>)
    ensures |r| == |s| && forall i :: 0 <= i < |s| ==> r[i] == Signed(coeff, s[i])
  {
    seq(|s|, i requires 0 <= i < |s| => Signed(coeff, s[i]))
  }

  /** How far the loop may move a group, in signed terms; a stale group may not move. */
  function SignedLimit(coeff: int, g: Group): int {
    if g.stale then 0 else if coeff > 0 then g.maxCapacity else -g.minCapacity
  }

  function SignedLimits(coeff: int, groups: seq<Group>): (r: seq<int>)
    ensures |r| == |groups| && forall i :: 0 <= i < |r| ==> r[i] == SignedLimit(coeff, groups[i])
  {
    seq(|groups|, i requires 0 <= i < |groups| => SignedLimit(coeff, groups[i]))
  }

  predicate IsConstrained(coeff: int, g: Group, target: int) {
    if coeff > 0 then target + coeff > g.maxCapacity else target + coeff < g.minCapacity
  }

  /** A group the loop may still change. */
  predicate Open(coeff: int, g: Group, target: int) {
    !g.stale && !IsConstrained(coeff, g, target)
  }

  predicate KeyBefore(coeff: int, a: Group, ta: int, b: Group, tb: int) {
    Signed(coeff, ta) < Signed(coeff, tb) || (ta == tb && a.id <= b.id)
  }

  /** The first open group in the order (coeff * target, id), among the first n. */
  function Lowest(coeff: int, groups: seq<Group>, targets: seq<int>, n: nat): (r: Option<nat>)
    requires n <= |groups| == |targets|
  {
    if n == 0 then None
    else
      var rest := Lowest(coeff, groups, targets, n - 1);
      if !Open(coeff, groups[n - 1], targets[n - 1]) then rest
      else if rest.Some? && rest.value < |groups| &&
              KeyBefore(coeff, groups[rest.value], targets[rest.value], groups[n - 1], targets[n - 1]) then rest
      else Some(n - 1)
  }

  lemma {:induction false} LowestIs(coeff: int, groups: seq<Group>, targets: seq<int>, n: nat)
    requires n <= |groups| == |targets| && (coeff == 1 || coeff == -1)
    ensures var r := Lowest(coeff, groups, targets, n);
            && (r.None? <==> forall i :: 0 <= i < n ==> !Open(coeff, groups[i], targets[i]))
            && (r.Some? ==>
                  && r.value < n && Open(coeff, groups[r.value], targets[r.value])
                  && forall i :: 0 <= i < n && Open(coeff, groups[i], targets[i]) ==>
                       KeyBefore(coeff, groups[r.value], targets[r.value], groups[i], targets[i]))
  {
    if n > 0 { LowestIs(coeff, groups, targets, n - 1); }
  }

  ghost predicate FirstOpen(coeff: int, groups: seq<Group>, targets: seq<int>, k: nat)
    requires k < |groups| == |targets|
  {
    && Open(coeff, groups[k], targets[k])
    && forall i :: 0 <= i < |groups| && Open(coeff, groups[i], targets[i]) ==>
         KeyBefore(coeff, groups[k], targets[k], groups[i], targets[i])
  }

  lemma LowestIsFirst(coeff: int, groups: seq<Group>, targets: seq<int>, k: nat)
    requires |groups| == |targets| && (coeff == 1 || coeff == -1)
    requires Lowest(coeff, groups, targets, |groups|) == Some(k)
    ensures k < |groups| && FirstOpen(coeff, groups, targets, k)
  {
    LowestIs(coeff, groups, targets, |groups|);
  }

  /** The result of the distribution: leveled, and at the goal or with nothing left to move. */
  ghost predicate Distributed(coeff: int, groups: seq<Group>, goal: int, targets: seq<int>) {
    && |targets| == |groups|
    && MovedFrom(coeff, groups, targets)
    && Signed(coeff, Sum(targets)) <= Signed(coeff, goal)
    && (Sum(targets) == goal || forall i :: 0 <= i < |groups| ==> !Open(coeff, groups[i], targets[i]))
  }

  lemma {:induction false} StartsTotal(groups: seq<Group>)
    ensures Sum(Starts(groups)) == TotalTarget(groups)
  {
    if groups != [] {
      StartsTotal(groups[..|groups| - 1]);
      assert Starts(groups)[..|groups| - 1] == Starts(groups[..|groups| - 1]);
    }
  }

  lemma NegatedSums(coeff: int, s: seq<int>)
    ensures Sum(Negated(coeff, s)) == Signed(coeff, Sum(s))
    ensures SquareSum(Negated(coeff, s)) == SquareSum(s)
  {
    if coeff > 0 {
      assert Negated(coeff, s) == s;
    } else {
      SquareSumNegated(Negated(coeff, s), s);
    }
  }

  /** The direction of the change. */
  function Coefficient(groups: seq<Group>, newTarget: real): int {
    if newTarget < TotalTarget(groups) as real then -1 else 1
  }

  /** Distributes a new total over the groups, one unit at a time to the group that is furthest
      behind among those that can still move. */
  method ComputeTargets(groups: seq<Group>, newTarget: real) returns (targets: seq<int>)
    ensures Distributed(Coefficient(groups, newTarget), groups, Ceil(newTarget), targets)
    ensures TiesById(Coefficient(groups, newTarget), groups, targets)
  {
    var coeff, goal := Coefficient(groups, newTarget), Ceil(newTarget);
    targets := Starts(groups);
    StartsTotal(groups);
    CeilBounds(newTarget);
    while Signed(coeff, Sum(targets)) < Signed(coeff, goal)
      invariant |targets| == |groups|
      invariant MovedFrom(coeff, groups, targets)
      invariant Signed(coeff, Sum(targets)) <= Signed(coeff, goal)
      invariant TiesById(coeff, groups, targets)
      decreases Signed(coeff, goal) - Signed(coeff, Sum(targets))
    {
      var next := Lowest(coeff, groups, targets, |groups|);
      LowestIs(coeff, groups, targets, |groups|);
      if next.None? {
        return;
      }
      NextMove(coeff, groups, targets, next.value);
      targets := targets[next.value := targets[next.value] + coeff];
    }
  }

  /** When a was last moved it came before b in the order (coeff * target, id), or b was not open. */
  predicate TieAt(coeff: int, groups: seq<Group>, targets: seq<int>, a: nat, b: nat)
    requires a < |groups| == |targets| && b < |groups|
  {
    a != b && targets[a] != StartOf(groups[a]) && Open(coeff, groups[b], targets[b]) ==>
      var before := targets[a] - coeff;
      (if coeff > 0 then before < targets[b] else targets[b] < before) ||
      (before == targets[b] && groups[a].id <= groups[b].id)
  }

  /** Among equally low groups the one with the smallest id was moved first. */
  ghost predicate TiesById(coeff: int, groups: seq<Group>, targets: seq<int>) {
    && |targets| == |groups|
    && forall a: nat, b: nat {:trigger TieAt(coeff, groups, targets, a, b)} ::
         a < |groups| && b < |groups| ==> TieAt(coeff, groups, targets, a, b)
  }

  /** One round of the loop. */
  lemma NextMove(coeff: int, groups: seq<Group>, targets: seq<int>, k: nat)
    requires (coeff == 1 || coeff == -1) && MovedFrom(coeff, groups, targets) && TiesById(coeff, groups, targets)
    requires Lowest(coeff, groups, targets, |groups|) == Some(k)
    ensures k < |groups|
    ensures var after := targets[k := targets[k] + coeff];
      MovedFrom(coeff, groups, after) && TiesById(coeff, groups, after) && Sum(after) == Sum(targets) + coeff
  {
    LowestIsFirst(coeff, groups, targets, k);
    MoveLowest(coeff, groups, targets, k);
    MoveKeepsTies(coeff, groups, targets, k);
    SumUpdate(targets, k, targets[k] + coeff);
  }

  lemma MoveKeepsTies(coeff: int, groups: seq<Group>, targets: seq<int>, k: nat)
    requires (coeff == 1 || coeff == -1) && TiesById(coeff, groups, targets) && k < |groups|
    requires FirstOpen(coeff, groups, targets, k)
    ensures TiesById(coeff, groups, targets[k := targets[k] + coeff])
  {
    var after := targets[k := targets[k] + coeff];
    forall a: nat, b: nat | a < |groups| && b < |groups| ensures TieAt(coeff, groups, after, a, b) {
      assert TieAt(coeff, groups, targets, a, b);
    }
  }

  /** With distinct ids there is only one such distribution. */
  lemma DistributionUnique(coeff: int, groups: seq<Group>, goal: int, t: seq<int>, u: seq<int>)
    requires coeff == 1 || coeff == -1
    requires forall i, j :: 0 <= i < j < |groups| ==> groups[i].id != groups[j].id
    requires Distributed(coeff, groups, goal, t) && TiesById(coeff, groups, t)
    requires Distributed(coeff, groups, goal, u) && TiesById(coeff, groups, u)
    ensures t == u
  {
    DistributedTotal(coeff, groups, goal, t);
    DistributedTotal(coeff, groups, goal, u);
    if t != u {
      var a := FurtherIn(coeff, t, u);
      var b := FurtherIn(coeff, u, t);
      Further(coeff, groups, goal, t, u, a, b);
      Further(coeff, groups, goal, u, t, b, a);
      assert false;
    }
  }

  /** Of two different distributions with the same total, each moves some group further. */
  lemma FurtherIn(coeff: int, t: seq<int>, u: seq<int>) returns (a: nat)
    requires (coeff == 1 || coeff == -1) && |t| == |u| && Sum(t) == Sum(u) && t != u
    ensures a < |t| && Signed(coeff, u[a]) < Signed(coeff, t[a])
  {
    if forall i :: 0 <= i < |t| ==> Signed(coeff, t[i]) <= Signed(coeff, u[i]) {
      NegatedSums(coeff, t);
      NegatedSums(coeff, u);
      SumAtLeast(Negated(coeff, t), Negated(coeff, u));
      SameNegated(coeff, t, u);
      assert false;
    } else {
      a :| 0 <= a < |t| && Signed(coeff, u[a]) < Signed(coeff, t[a]);
    }
  }

  lemma SameNegated(coeff: int, t: seq<int>, u: seq<int>)
    requires |t| == |u| && Negated(coeff, t) == Negated(coeff, u)
    ensures t == u
  {
    forall i | 0 <= i < |t| ensures t[i] == u[i] {
      assert Negated(coeff, t)[i] == Negated(coeff, u)[i];
    }
  }

  /** If t moves a further than u, and u moves b further than t, then a came first in t. */
  lemma Further(coeff: int, groups: seq<Group>, goal: int, t: seq<int>, u: seq<int>, a: nat, b: nat)
    requires coeff == 1 || coeff == -1
    requires Distributed(coeff, groups, goal, t) && TiesById(coeff, groups, t)
    requires Distributed(coeff, groups, goal, u) && a < |groups| && b < |groups|
    requires Signed(coeff, u[a]) < Signed(coeff, t[a]) && Signed(coeff, t[b]) < Signed(coeff, u[b])
    ensures KeyBefore(coeff, groups[a], t[a] - coeff, groups[b], t[b])
  {
    DistributedAllowed(coeff, groups, goal, t);
    DistributedAllowed(coeff, groups, goal, u);
    assert TieAt(coeff, groups, t, a, b);
  }

  /** The targets are leveled in signed terms. */
  ghost predicate MovedFrom(coeff: int, groups: seq<Group>, targets: seq<int>) {
    Leveled(Negated(coeff, Starts(groups)), SignedLimits(coeff, groups), Negated(coeff, targets))
  }

  lemma MoveLowest(coeff: int, groups: seq<Group>, targets: seq<int>, k: nat)
    requires (coeff == 1 || coeff == -1) && |targets| == |groups| && k < |groups|
    requires MovedFrom(coeff, groups, targets) && FirstOpen(coeff, groups, targets, k)
    ensures MovedFrom(coeff, groups, targets[k := targets[k] + coeff])
  {
    LowestSigned(coeff, groups, targets, k);
    NegatedMove(coeff, targets, k);
    RaiseLowest(Negated(coeff, Starts(groups)), SignedLimits(coeff, groups), Negated(coeff, targets), k);
  }

  lemma NegatedMove(coeff: int, targets: seq<int>, k: nat)
    requires (coeff == 1 || coeff == -1) && k < |targets|
    ensures Negated(coeff, targets[k := targets[k] + coeff]) ==
            Negated(coeff, targets)[k := Negated(coeff, targets)[k] + 1]
  {
  }

  lemma LowestSigned(coeff: int, groups: seq<Group>, targets: seq<int>, k: nat)
    requires (coeff == 1 || coeff == -1) && |targets| == |groups| && k < |groups|
    requires MovedFrom(coeff, groups, targets) && Open(coeff, groups[k], targets[k])
    requires forall i :: 0 <= i < |groups| && Open(coeff, groups[i], targets[i]) ==>
               Signed(coeff, targets[k]) <= Signed(coeff, targets[i])
    ensures Negated(coeff, targets)[k] < SignedLimits(coeff, groups)[k]
    ensures forall b :: 0 <= b < |groups| && Negated(coeff, targets)[b] < SignedLimits(coeff, groups)[b] ==>
              Negated(coeff, targets)[k] <= Negated(coeff, targets)[b]
  {
    OpenIff(coeff, groups, targets, k);
    forall b | 0 <= b < |groups| && Negated(coeff, targets)[b] < SignedLimits(coeff, groups)[b]
      ensures Negated(coeff, targets)[k] <= Negated(coeff, targets)[b]
    {
      OpenIff(coeff, groups, targets, b);
    }
  }

  /** A group is open exactly when its signed target is below its signed limit. */
  lemma OpenIff(coeff: int, groups: seq<Group>, targets: seq<int>, b: nat)
    requires (coeff == 1 || coeff == -1) && |targets| == |groups| && b < |groups|
    requires MovedFrom(coeff, groups, targets)
    ensures Open(coeff, groups[b], targets[b]) <==> Negated(coeff, targets)[b] < SignedLimits(coeff, groups)[b]
  {
    assert Negated(coeff, Starts(groups))[b] <= Negated(coeff, targets)[b];
  }

  /** What any distribution in that direction may do: stale groups at 0, the others moved only in
      the direction of the change and, if moved, not past their limit. */
  ghost predicate Allowed(coeff: int, groups: seq<Group>, v: seq<int>) {
    && |v| == |groups|
    && forall i :: 0 <= i < |groups| ==>
         if groups[i].stale then v[i] == 0
         else if coeff > 0 then
           groups[i].target <= v[i] && (groups[i].target < v[i] ==> v[i] <= groups[i].maxCapacity)
         else v[i] <= groups[i].target && (v[i] < groups[i].target ==> groups[i].minCapacity <= v[i])
  }

  lemma AllowedIsFeasible(coeff: int, groups: seq<Group>, v: seq<int>)
    requires coeff == 1 || coeff == -1
    ensures Allowed(coeff, groups, v) <==>
            Feasible(Negated(coeff, Starts(groups)), SignedLimits(coeff, groups), Negated(coeff, v))
  {
    var s, lim, n := Negated(coeff, Starts(groups)), SignedLimits(coeff, groups), Negated(coeff, v);
    if Feasible(s, lim, n) {
      forall i | 0 <= i < |groups|
        ensures if groups[i].stale then v[i] == 0
                else if coeff > 0 then
                  groups[i].target <= v[i] && (groups[i].target < v[i] ==> v[i] <= groups[i].maxCapacity)
                else v[i] <= groups[i].target && (v[i] < groups[i].target ==> groups[i].minCapacity <= v[i])
      {
        assert s[i] <= n[i] && (s[i] < n[i] ==> n[i] <= lim[i]);
      }
    }
  }

  /** The distribution keeps the rules. */
  lemma DistributedAllowed(coeff: int, groups: seq<Group>, goal: int, targets: seq<int>)
    requires (coeff == 1 || coeff == -1) && Distributed(coeff, groups, goal, targets)
    ensures Allowed(coeff, groups, targets)
  {
    AllowedIsFeasible(coeff, groups, targets);
  }

  /** Among all distributions that keep the rules and have the same total it is the most balanced:
      none has a smaller sum of squares. */
  lemma DistributedOptimal(coeff: int, groups: seq<Group>, goal: int, targets: seq<int>, v: seq<int>)
    requires (coeff == 1 || coeff == -1) && Distributed(coeff, groups, goal, targets)
    requires Allowed(coeff, groups, v) && Sum(v) == Sum(targets)
    ensures SquareSum(targets) <= SquareSum(v)
  {
    AllowedIsFeasible(coeff, groups, v);
    NegatedSums(coeff, targets);
    NegatedSums(coeff, v);
    var s, lim := Negated(coeff, Starts(groups)), SignedLimits(coeff, groups);
    LeveledOptimal(s, lim, Negated(coeff, targets), Negated(coeff, v));
  }

  /** The total of the groups moved as far as their limits let them. */
  function Room(coeff: int, groups: seq<Group>): int {
    Signed(coeff, Sum(Ceilings(Negated(coeff, Starts(groups)), SignedLimits(coeff, groups))))
  }

  /** The distributed total is the goal, or as far as the group limits allow if that falls short. */
  lemma DistributedTotal(coeff: int, groups: seq<Group>, goal: int, targets: seq<int>)
    requires (coeff == 1 || coeff == -1) && Distributed(coeff, groups, goal, targets)
    ensures Sum(targets) ==
            if Signed(coeff, goal) < Signed(coeff, Room(coeff, groups)) then goal else Room(coeff, groups)
  {
    var s, lim, u := Negated(coeff, Starts(groups)), SignedLimits(coeff, groups), Negated(coeff, targets);
    NegatedSums(coeff, targets);
    if Sum(targets) != goal {
      forall i | 0 <= i < |u| ensures u[i] >= lim[i] {
        OpenIff(coeff, groups, targets, i);
      }
    }
    FillTotal(s, lim, u, Signed(coeff, goal));
  }

  /** The total of the groups with every one that is not stale moved as far as its own limit lets it. */
  function Reach(coeff: int, groups: seq<Group>): int {
    if groups == [] then 0
    else
      var g := groups[|groups| - 1];
      Reach(coeff, groups[..|groups| - 1]) +
      if g.stale then 0
      else if coeff > 0 then (if g.target < g.maxCapacity then g.maxCapacity else g.target)
      else if g.minCapacity < g.target then g.minCapacity else g.target
  }

  lemma {:induction false} RoomIsReach(coeff: int, groups: seq<Group>)
    requires coeff == 1 || coeff == -1
    ensures Room(coeff, groups) == Reach(coeff, groups)
  {
    if groups != [] {
      var n := |groups| - 1;
      RoomIsReach(coeff, groups[..n]);
      var s, lim := Negated(coeff, Starts(groups)), SignedLimits(coeff, groups);
      assert Ceilings(s, lim)[..n] ==
             Ceilings(Negated(coeff, Starts(groups[..n])), SignedLimits(coeff, groups[..n]));
    }
  }

  // ---- applying a distribution ----------------------------------------------------------

  /** The groups after setting the targets, where a group whose change fails keeps its own. */
  function Applied(groups: seq<Group>, targets: seq<int>, fails: seq<bool>): (r: seq<Group>)
    requires |groups| == |targets| == |fails|
    ensures |r| == |groups|
    ensures forall i :: 0 <= i < |r| ==> r[i] == if fails[i] then groups[i] else groups[i].(target := targets[i])
  {
    seq(|groups|, i requires 0 <= i < |groups| => if fails[i] then groups[i] else groups[i].(target := targets[i]))
  }

  /** However many groups fail, the total ends between where it was and where it was to go. */
  lemma {:induction false} AppliedBetween(coeff: int, groups: seq<Group>, targets: seq<int>, fails: seq<bool>)
    requires (coeff == 1 || coeff == -1) && |fails| == |groups| && Allowed(coeff, groups, targets)
    ensures var total := TotalTarget(Applied(groups, targets, fails));
            Signed(coeff, TotalTarget(groups)) <= Signed(coeff, total) <= Signed(coeff, Sum(targets))
  {
    if groups != [] {
      var n := |groups| - 1;
      AppliedBetween(coeff, groups[..n], targets[..n], fails[..n]);
      assert Applied(groups, targets, fails)[..n] == Applied(groups[..n], targets[..n], fails[..n]);
    }
  }

  lemma {:induction false} AppliedTotal(coeff: int, groups: seq<Group>, targets: seq<int>, fails: seq<bool>)
    requires |fails| == |groups| && Allowed(coeff, groups, targets)
    requires forall i :: 0 <= i < |fails| ==> !fails[i]
    ensures TotalTarget(Applied(groups, targets, fails)) == Sum(targets)
  {
    if groups != [] {
      var n := |groups| - 1;
      AppliedTotal(coeff, groups[..n], targets[..n], fails[..n]);
      assert Applied(groups, targets, fails)[..n] == Applied(groups[..n], targets[..n], fails[..n]);
    }
  }

  /** The limits of the pool hold for the applied total, whatever the group limits and failures. */
  lemma AppliedWithinLimits(l: Limits, groups: seq<Group>, requested: real, noScaleDown: bool, targets: seq<int>,
                            fails: seq<bool>)
    requires SaneLimits(l) && l.minCapacity <= TotalTarget(groups) <= l.maxCapacity && |fails| == |groups|
    requires var x := Constrain(l, TotalTarget(groups), requested, false, noScaleDown);
             Distributed(Coefficient(groups, x), groups, Ceil(x), targets)
    ensures |targets| == |groups|
    ensures var total := TotalTarget(Applied(groups, targets, fails));
            && l.minCapacity <= total <= l.maxCapacity
            && -l.maxWeightToRemove <= total - TotalTarget(groups) <= l.maxWeightToAdd
            && (noScaleDown ==> TotalTarget(groups) <= total)
  {
    var x := Constrain(l, TotalTarget(groups), requested, false, noScaleDown);
    var coeff := Coefficient(groups, x);
    ConstrainWithinLimits(l, TotalTarget(groups), requested, noScaleDown);
    DistributedAllowed(coeff, groups, Ceil(x), targets);
    AppliedBetween(coeff, groups, targets, fails);
    CeilBounds(x);
  }

  /** The requested total in whole units, or as close to it as the group limits let the groups come. */
  predicate Attained(groups: seq<Group>, x: real, total: int) {
    total ==
    if x < TotalTarget(groups) as real
    then (if Reach(-1, groups) < Ceil(x) then Ceil(x) else Reach(-1, groups))
    else if Ceil(x) < Reach(1, groups) then Ceil(x) else Reach(1, groups)
  }

  /** When nothing fails the groups together reach the requested total, or come as close as their own
      limits let them. */
  lemma AppliedReaches(groups: seq<Group>, x: real, targets: seq<int>, fails: seq<bool>)
    requires |fails| == |groups| && forall i :: 0 <= i < |fails| ==> !fails[i]
    requires Distributed(Coefficient(groups, x), groups, Ceil(x), targets)
    ensures |targets| == |groups| && Attained(groups, x, TotalTarget(Applied(groups, targets, fails)))
  {
    var coeff := Coefficient(groups, x);
    DistributedTotal(coeff, groups, Ceil(x), targets);
    DistributedAllowed(coeff, groups, Ceil(x), targets);
    RoomIsReach(coeff, groups);
    AppliedTotal(coeff, groups, targets, fails);
  }

  /** A forced request is taken as it is. An unforced one is cut, in whole units, to the step towards its
      aim that the weight limits allow, which from within the range is the step towards its goal. */
  ghost predicate Restricted(l: Limits, total: int, requested: real, force: bool, noScaleDown: bool, x: real) {
    var down := if noScaleDown then 0 else -l.maxWeightToRemove;
    && (force ==> x == requested)
    && (!force && SaneLimits(l) ==>
          && Ceil(x) == total + Clamp(Aim(l, total, requested) - total, down, l.maxWeightToAdd)
          && (l.minCapacity <= total <= l.maxCapacity ==>
                Ceil(x) == total + Clamp(Goal(l, requested) - total, down, l.maxWeightToAdd)))
  }

  lemma ConstrainRestricts(l: Limits, total: int, requested: real, force: bool, noScaleDown: bool)
    ensures Restricted(l, total, requested, force, noScaleDown, Constrain(l, total, requested, force, noScaleDown))
  {
    if force {
      ForcedTakesRequest(l, total, requested, noScaleDown);
    } else if SaneLimits(l) {
      ConstrainExact(l, total, requested, noScaleDown);
      if l.minCapacity <= total <= l.maxCapacity {
        AimWithin(l, total, requested, if noScaleDown then 0 else -l.maxWeightToRemove);
      }
    }
  }

  datatype Outcome = Changed(target: real) | NoResourceGroups | AllResourceGroupsAreStale

  class PoolManager {
    const limits: Limits
    var groups: seq<Group>

    constructor (limits: Limits, groups: seq<Group>)
      ensures this.limits == limits && this.groups == groups
    {
      this.limits, this.groups := limits, groups;
    }

    /** Restricts the request, distributes it and sets the group targets; fails says for which groups
        setting the target fails. */
    method ModifyTargetCapacity(requested: real, dryRun: bool, force: bool, noScaleDown: bool, fails: seq<bool>)
      returns (r: Outcome)
      requires |fails| == |groups|
      modifies this
      ensures r.NoResourceGroups? <==> old(groups) == []
      ensures r.AllResourceGroupsAreStale? <==> old(groups) != [] && forall g :: g in old(groups) ==> g.stale
      ensures r.Changed? ==> r.target == Constrain(limits, TotalTarget(old(groups)), requested, force, noScaleDown)
      ensures r.Changed? ==>
                Restricted(limits, TotalTarget(old(groups)), requested, force, noScaleDown, r.target)
      ensures !r.Changed? || dryRun ==> groups == old(groups)
      ensures r.Changed? && !dryRun ==>
                exists targets ::
                  && Distributed(Coefficient(old(groups), r.target), old(groups), Ceil(r.target), targets)
                  && TiesById(Coefficient(old(groups), r.target), old(groups), targets)
                  && groups == Applied(old(groups), targets, fails)
      ensures r.Changed? && !dryRun && (forall i :: 0 <= i < |fails| ==> !fails[i]) ==>
                Attained(old(groups), r.target, TotalTarget(groups))
      ensures !force && SaneLimits(limits) && limits.minCapacity <= TotalTarget(old(groups)) <= limits.maxCapacity ==>
                && limits.minCapacity <= TotalTarget(groups) <= limits.maxCapacity
                && -limits.maxWeightToRemove <= TotalTarget(groups) - TotalTarget(old(groups)) <= limits.maxWeightToAdd
                && (noScaleDown ==> TotalTarget(old(groups)) <= TotalTarget(groups))
    {
      if groups == [] {
        return NoResourceGroups;
      }
      if AllStale(groups) {
        return AllResourceGroupsAreStale;
      }
      var newTarget := Constrain(limits, TotalTarget(groups), requested, force, noScaleDown);
      var targets := ComputeTargets(groups, newTarget);
      if !force && SaneLimits(limits) && limits.minCapacity <= TotalTarget(groups) <= limits.maxCapacity {
        AppliedWithinLimits(limits, groups, requested, noScaleDown, targets, fails);
      }
      ConstrainRestricts(limits, TotalTarget(groups), requested, force, noScaleDown);
      if !dryRun {
        if forall i :: 0 <= i < |fails| ==> !fails[i] {
          AppliedReaches(groups, newTarget, targets, fails);
        }
        SetTargets(targets, fails);
      }
      return Changed(newTarget);
    }

    /** The loop over the distributed targets. */
    method SetTargets(targets: seq<int>, fails: seq<bool>)
      requires |targets| == |fails| == |groups|
      modifies this`groups
      ensures groups == Applied(old(groups), targets, fails)
    {
      var i := 0;
      while i < |groups|
        invariant i <= |groups| == |old(groups)|
        invariant forall j :: 0 <= j < i ==> groups[j] == Applied(old(groups), targets, fails)[j]
        invariant forall j :: i <= j < |groups| ==> groups[j] == old(groups)[j]
      {
        if groups[i].target != targets[i] {
          if !fails[i] {
            groups := groups[i := groups[i].(target := targets[i])];
          }
        }
        i := i + 1;
      }
    }
  }

  predicate AllStale(groups: seq<Group>) {
    forall i :: 0 <= i < |groups| ==> groups[i].stale
  }

  /** When no group limit stands in the way and nothing fails, one unforced request moves the pool's
      total exactly as the limits say. */
  lemma UnboundedRound(l: Limits, groups: seq<Group>, requested: real, targets: seq<int>, fails: seq<bool>)
    requires SaneLimits(l) && l.minCapacity <= TotalTarget(groups) <= l.maxCapacity
    requires |fails| == |groups| && forall i :: 0 <= i < |fails| ==> !fails[i]
    requires var x := Constrain(l, TotalTarget(groups), requested, false, false);
             var coeff := Coefficient(groups, x);
             && Distributed(coeff, groups, Ceil(x), targets)
             && Signed(coeff, Ceil(x)) <= Signed(coeff, Room(coeff, groups))
    ensures |targets| == |groups|
    ensures TotalTarget(Applied(groups, targets, fails)) == NextTotal(l, TotalTarget(groups), requested)
  {
    var x := Constrain(l, TotalTarget(groups), requested, false, false);
    var coeff := Coefficient(groups, x);
    DistributedTotal(coeff, groups, Ceil(x), targets);
    DistributedAllowed(coeff, groups, Ceil(x), targets);
    AppliedTotal(coeff, groups, targets, fails);
  }

  // ---- repeating a request ---------------------------------------------------------------

  function NoFailures(groups: seq<Group>): (r: seq<bool>)
    ensures |r| == |groups| && forall i :: 0 <= i < |r| ==> !r[i]
  {
    seq(|groups|, i => false)
  }

  /** before and after an unforced request in which nothing fails. */
  ghost predicate Requested(l: Limits, before: seq<Group>, requested: real, targets: seq<int>, after: seq<Group>) {
    var x := Constrain(l, TotalTarget(before), requested, false, false);
    && Distributed(Coefficient(before, x), before, Ceil(x), targets)
    && after == Applied(before, targets, NoFailures(before))
  }

  /** The group limits leave room for the goal. */
  predicate RoomFor(groups: seq<Group>, goal: int) {
    && (TotalTarget(groups) < goal ==> goal <= Room(1, groups))
    && (goal < TotalTarget(groups) ==> Room(-1, groups) <= goal)
  }

  /** Moving groups within their limits does not change how far they can be moved. */
  lemma RoomKept(coeff: int, groups: seq<Group>, targets: seq<int>)
    requires (coeff == 1 || coeff == -1) && Allowed(coeff, groups, targets)
    ensures Room(coeff, Applied(groups, targets, NoFailures(groups))) == Room(coeff, groups)
  {
    var after := Applied(groups, targets, NoFailures(groups));
    var c := Ceilings(Negated(coeff, Starts(groups)), SignedLimits(coeff, groups));
    var d := Ceilings(Negated(coeff, Starts(after)), SignedLimits(coeff, after));
    forall i | 0 <= i < |groups| ensures c[i] == d[i] {
      assert after[i] == groups[i].(target := targets[i]);
    }
    assert c == d;
  }

  /** There is always room for what the groups hold already. */
  lemma RoomAtLeast(coeff: int, groups: seq<Group>)
    requires coeff == 1 || coeff == -1
    ensures Signed(coeff, TotalTarget(groups)) <= Signed(coeff, Room(coeff, groups))
  {
    var s := Negated(coeff, Starts(groups));
    SumAtLeast(s, Ceilings(s, SignedLimits(coeff, groups)));
    NegatedSums(coeff, Starts(groups));
    StartsTotal(groups);
  }

  /** The direction of an unforced request is the direction of its goal. */
  lemma RequestDirection(l: Limits, groups: seq<Group>, requested: real)
    requires SaneLimits(l) && l.minCapacity <= TotalTarget(groups) <= l.maxCapacity
    ensures var total, goal := TotalTarget(groups), Goal(l, requested);
            var coeff := Coefficient(groups, Constrain(l, total, requested, false, false));
            && (total < goal ==> coeff == 1 && total <= NextTotal(l, total, requested) <= goal)
            && (goal < total ==> goal <= NextTotal(l, total, requested) <= total)
            && (goal < total && coeff == 1 ==> NextTotal(l, total, requested) == total)
            && (goal == total ==> NextTotal(l, total, requested) == total)
  {
    NextTotalExact(l, TotalTarget(groups), requested);
    CeilBounds(requested);
    CeilBounds(Constrain(l, TotalTarget(groups), requested, false, false));
  }

  /** Targets with the same total, all moved in one direction, are where they were. */
  lemma Unmoved(coeff: int, groups: seq<Group>, targets: seq<int>)
    requires (coeff == 1 || coeff == -1) && Allowed(coeff, groups, targets) && Sum(targets) == TotalTarget(groups)
    ensures forall c :: Room(c, Applied(groups, targets, NoFailures(groups))) == Room(c, groups)
  {
    var s, u := Negated(coeff, Starts(groups)), Negated(coeff, targets);
    StartsTotal(groups);
    NegatedSums(coeff, Starts(groups));
    NegatedSums(coeff, targets);
    SumAtLeast(s, u);
    var after := Applied(groups, targets, NoFailures(groups));
    forall i | 0 <= i < |groups| ensures Starts(after)[i] == Starts(groups)[i] {
      assert s[i] == u[i] && after[i] == groups[i].(target := targets[i]);
    }
    assert Starts(after) == Starts(groups);
    forall c ensures Room(c, after) == Room(c, groups) {
      assert SignedLimits(c, after) == SignedLimits(c, groups);
    }
  }

  /** One request with room for its goal moves the total as the limits say, and leaves the room. */
  lemma RequestStep(l: Limits, before: seq<Group>, requested: real, targets: seq<int>, after: seq<Group>)
    requires SaneLimits(l) && l.minCapacity <= TotalTarget(before) <= l.maxCapacity
    requires Requested(l, before, requested, targets, after) && RoomFor(before, Goal(l, requested))
    ensures TotalTarget(after) == NextTotal(l, TotalTarget(before), requested)
    ensures RoomFor(after, Goal(l, requested))
  {
    var x := Constrain(l, TotalTarget(before), requested, false, false);
    var coeff := Coefficient(before, x);
    RequestDirection(l, before, requested);
    RoomAtLeast(coeff, before);
    UnboundedRound(l, before, requested, targets, NoFailures(before));
    DistributedAllowed(coeff, before, Ceil(x), targets);
    RoomKept(coeff, before, targets);
    if TotalTarget(after) == TotalTarget(before) {
      DistributedTotal(coeff, before, Ceil(x), targets);
      Unmoved(coeff, before, targets);
    }
  }

  ghost predicate Repeated(l: Limits, requested: real, gs: seq<seq<Group>>, ts: seq<seq<int>>) {
    |gs| == |ts| + 1 && forall k {:trigger ts[k]} :: 0 <= k < |ts| ==> Requested(l, gs[k], requested, ts[k], gs[k + 1])
  }

  /** Repeating one unforced request, gs being the groups after each repetition and ts the targets set
      in it: the pool's total follows the limits exactly. */
  lemma {:induction false} RepeatedRequest(l: Limits, requested: real, gs: seq<seq<Group>>, ts: seq<seq<int>>, n: nat)
    requires SaneLimits(l) && Repeated(l, requested, gs, ts) && n < |gs|
    requires l.minCapacity <= TotalTarget(gs[0]) <= l.maxCapacity && RoomFor(gs[0], Goal(l, requested))
    ensures TotalTarget(gs[n]) == Rounds(l, TotalTarget(gs[0]), requested, n)
    ensures RoomFor(gs[n], Goal(l, requested))
  {
    if n > 0 {
      RepeatedRequest(l, requested, gs, ts, n - 1);
      RoundsWithin(l, TotalTarget(gs[0]), requested, n - 1);
      var targets := ts[n - 1];
      RequestStep(l, gs[n - 1], requested, targets, gs[n]);
    }
  }

  /** So with positive weight limits the groups reach the goal, after at most as many repetitions as
      there are units to go, and stay there. */
  lemma RepeatedRequestReachesGoal(l: Limits, requested: real, gs: seq<seq<Group>>, ts: seq<seq<int>>, n: nat)
    requires SaneLimits(l) && Repeated(l, requested, gs, ts) && n < |gs|
    requires l.maxWeightToAdd > 0 && l.maxWeightToRemove > 0
    requires l.minCapacity <= TotalTarget(gs[0]) <= l.maxCapacity && RoomFor(gs[0], Goal(l, requested))
    requires -(n as int) <= Goal(l, requested) - TotalTarget(gs[0]) <= n
    ensures TotalTarget(gs[n]) == Goal(l, requested)
  {
    RepeatedRequest(l, requested, gs, ts, n);
    RoundsReachGoal(l, TotalTarget(gs[0]), requested, n);
  }
}
