/** Bounded water filling: raising the lowest unconstrained level one unit at a time. */
module WaterFilling {

  function Sum(s: seq<int>): int {
    if s == [] then 0 else Sum(s[..|s| - 1]) + s[|s| - 1]
  }

  function SquareSum(s: seq<int>): int {
    if s == [] then 0 else SquareSum(s[..|s| - 1]) + s[|s| - 1] * s[|s| - 1]
  }

  lemma {:induction false} SumUpdate(s: seq<int>, k: nat, v: int)
    requires k < |s|
    ensures Sum(s[k := v]) == Sum(s) + v - s[k]
  {
    var n := |s| - 1;
    if k < n {
      SumUpdate(s[..n], k, v);
      assert s[k := v][..n] == s[..n][k := v];
    } else {
      assert s[k := v][..n] == s[..n];
    }
  }

  /** A sequence that is pointwise at least another one has at least its sum, and the same sum only
      if the two are equal. */
  lemma {:induction false} SumAtLeast(a: seq<int>, b: seq<int>)
    requires |a| == |b| && forall i :: 0 <= i < |a| ==> a[i] <= b[i]
    ensures Sum(a) <= Sum(b)
    ensures Sum(a) == Sum(b) ==> a == b
  {
    if a != [] {
      SumAtLeast(a[..|a| - 1], b[..|b| - 1]);
      assert a == a[..|a| - 1] + [a[|a| - 1]] && b == b[..|b| - 1] + [b[|b| - 1]];
    }
  }

  /** Levels u reached from s: no level falls, only raised levels obey the limit, and a raised level
      is at most one above every level that could still be raised. */
  ghost predicate Leveled(s: seq<int>, lim: seq<int>, u: seq<int>) {
    && |s| == |lim| == |u|
    && (forall i :: 0 <= i < |s| ==> s[i] <= u[i])
    && (forall i :: 0 <= i < |s| && s[i] < u[i] ==> u[i] <= lim[i])
    && (forall a, b :: 0 <= a < |s| && 0 <= b < |s| ==> LevelPair(s, lim, u, a, b))
  }

  /** If level a was raised and level b still can be, a is at most one above b. */
  ghost predicate LevelPair(s: seq<int>, lim: seq<int>, u: seq<int>, a: nat, b: nat)
    requires a < |s| == |lim| == |u| && b < |s|
  {
    s[a] < u[a] && u[b] < lim[b] ==> u[a] - 1 <= u[b]
  }

  /** What any distribution may do: raise levels, but none that is raised above its limit. */
  ghost predicate Feasible(s: seq<int>, lim: seq<int>, v: seq<int>) {
    && |s| == |lim| == |v|
    && (forall i :: 0 <= i < |s| ==> s[i] <= v[i])
    && (forall i :: 0 <= i < |s| && s[i] < v[i] ==> v[i] <= lim[i])
  }

  /** Raising the lowest level that can be raised keeps the levels leveled. */
  lemma RaiseLowest(s: seq<int>, lim: seq<int>, u: seq<int>, k: nat)
    requires Leveled(s, lim, u) && k < |u| && u[k] < lim[k]
    requires forall b :: 0 <= b < |u| && u[b] < lim[b] ==> u[k] <= u[b]
    ensures Leveled(s, lim, u[k := u[k] + 1])
  {
    var w := u[k := u[k] + 1];
    forall a, b | 0 <= a < |s| && 0 <= b < |s| ensures LevelPair(s, lim, w, a, b) {
      assert LevelPair(s, lim, u, a, b);
    }
  }

  /** The highest raised level less one separates what can grow from what has grown. */
  lemma Threshold(s: seq<int>, lim: seq<int>, u: seq<int>) returns (level: int)
    requires Leveled(s, lim, u) && exists a :: 0 <= a < |u| && s[a] < u[a]
    ensures forall a :: 0 <= a < |u| && s[a] < u[a] ==> u[a] <= level + 1
    ensures forall b :: 0 <= b < |u| && u[b] < lim[b] ==> level <= u[b]
  {
    var top :| 0 <= top < |u| && s[top] < u[top];
    var i := 0;
    while i < |u|
      invariant 0 <= i <= |u| && 0 <= top < |u| && s[top] < u[top]
      invariant forall a :: 0 <= a < i && s[a] < u[a] ==> u[a] <= u[top]
    {
      if s[i] < u[i] && u[top] < u[i] { top := i; }
      i := i + 1;
    }
    level := u[top] - 1;
    forall b | 0 <= b < |u| && u[b] < lim[b] ensures level <= u[b] {
      assert LevelPair(s, lim, u, top, b);
    }
  }

  lemma SquareStep(u: int, v: int, level: int)
    requires u < v ==> level <= u
    requires v < u ==> u <= level + 1
    ensures v * v - u * u >= (2 * level + 1) * (v - u)
  {
    var d, e := v - u, v + u - (2 * level + 1);
    assert d > 0 ==> e >= 0;
    assert d < 0 ==> e <= 0;
    assert d * e >= 0;
    assert d * e == v * v - u * u - (2 * level + 1) * (v - u);
  }

  lemma {:induction false} SquareSumBound(u: seq<int>, v: seq<int>, level: int)
    requires |u| == |v|
    requires forall i :: 0 <= i < |u| ==> (u[i] < v[i] ==> level <= u[i]) && (v[i] < u[i] ==> u[i] <= level + 1)
    ensures SquareSum(v) - SquareSum(u) >= (2 * level + 1) * (Sum(v) - Sum(u))
  {
    if u != [] {
      var n := |u| - 1;
      SquareSumBound(u[..n], v[..n], level);
      SquareStep(u[n], v[n], level);
      Distribute(2 * level + 1, Sum(v[..n]) - Sum(u[..n]), v[n] - u[n]);
    }
  }

  lemma Distribute(k: int, a: int, b: int)
    ensures k * (a + b) == k * a + k * b
  {
  }

  /** Leveled levels are the most even ones: no feasible distribution of the same total has a
      smaller sum of squares. */
  lemma LeveledOptimal(s: seq<int>, lim: seq<int>, u: seq<int>, v: seq<int>)
    requires Leveled(s, lim, u) && Feasible(s, lim, v) && Sum(v) == Sum(u)
    ensures SquareSum(u) <= SquareSum(v)
  {
    if a :| 0 <= a < |u| && s[a] < u[a] {
      var level := Threshold(s, lim, u);
      SquareSumBound(u, v, level);
    } else {
      assert u == s;
      SumAtLeast(s, v);
    }
  }

  /** The ceiling of every level: its limit, or where it started if that is above the limit. */
  function Ceilings(s: seq<int>, lim: seq<int>): (c: seq<int>)
    requires |s| == |lim|
    ensures |c| == |s| && forall i :: 0 <= i < |s| ==> c[i] == if s[i] < lim[i] then lim[i] else s[i]
  {
    seq(|s|, i requires 0 <= i < |s| => if s[i] < lim[i] then lim[i] else s[i])
  }

  /** Filling up to a goal reaches the goal, or the total of the ceilings if that is less. */
  lemma FillTotal(s: seq<int>, lim: seq<int>, u: seq<int>, goal: int)
    requires Leveled(s, lim, u) && Sum(u) <= goal
    requires Sum(u) == goal || forall i :: 0 <= i < |u| ==> u[i] >= lim[i]
    ensures Sum(u) == if goal < Sum(Ceilings(s, lim)) then goal else Sum(Ceilings(s, lim))
  {
    SumAtLeast(u, Ceilings(s, lim));
    if Sum(u) != goal {
      assert u == Ceilings(s, lim);
    }
  }

  lemma {:induction false} SquareSumNegated(a: seq<int>, b: seq<int>)
    requires |a| == |b| && forall i :: 0 <= i < |a| ==> a[i] == -b[i]
    ensures SquareSum(a) == SquareSum(b) && Sum(a) == -Sum(b)
  {
    if a != [] { SquareSumNegated(a[..|a| - 1], b[..|b| - 1]); }
  }
}
