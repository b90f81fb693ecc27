/** Piecewise-constant functions of time, as clusterman/math/piecewise.py keeps them:
    a value before the first breakpoint, and a dictionary of breakpoints sorted by key.
    Times are integers and values are reals. */
module Piecewise {

  datatype Breakpoint = Breakpoint(x: int, y: real)

  /** The value of a PiecewiseConstantFunction object at one moment. */
  datatype StepFn = StepFn(initial: real, bps: seq<Breakpoint>)

  /** The keys are strictly increasing. */
  ghost predicate Sorted(bps: seq<Breakpoint>) {
    |bps| <= 1 || (Sorted(bps[..|bps| - 1]) && bps[|bps| - 2].x < bps[|bps| - 1].x)
  }

  lemma {:induction false} KeyBefore(bps: seq<Breakpoint>, i: nat, j: nat)
    requires Sorted(bps) && i < j < |bps|
    ensures bps[i].x < bps[j].x
  {
    var n := |bps| - 1;
    if j < n {
      KeyBefore(bps[..n], i, j);
    } else if i < n - 1 {
      KeyBefore(bps[..n], i, n - 1);
    }
  }

  lemma KeyOrder(bps: seq<Breakpoint>, i: nat, j: nat)
    requires Sorted(bps) && i <= j < |bps|
    ensures bps[i].x <= bps[j].x
  {
    if i < j { KeyBefore(bps, i, j); }
  }

  lemma {:induction false} SortedPrefix(bps: seq<Breakpoint>, n: nat)
    requires Sorted(bps) && n <= |bps|
    ensures Sorted(bps[..n])
  {
    if n == |bps| {
      assert bps[..n] == bps;
    } else {
      var p := bps[..|bps| - 1];
      assert p[..n] == bps[..n];
      assert |bps| == 1 ==> p == [];
      SortedPrefix(p, n);
    }
  }

  lemma {:induction false} SameKeysSorted(a: seq<Breakpoint>, b: seq<Breakpoint>)
    requires Sorted(a) && |a| == |b| && forall i :: 0 <= i < |a| ==> a[i].x == b[i].x
    ensures Sorted(b)
  {
    if |a| > 1 {
      SameKeysSorted(a[..|a| - 1], b[..|b| - 1]);
    }
  }

  /** How many keys are at or before x (bisect_right of the sorted dictionary). */
  function Bisect(bps: seq<Breakpoint>, x: int): (k: nat)
    requires Sorted(bps)
    ensures k <= |bps|
    ensures k > 0 ==> bps[k - 1].x <= x
    ensures k < |bps| ==> x < bps[k].x
  {
    if bps == [] || bps[|bps| - 1].x <= x then |bps| else
      assert |bps| == 1 ==> Sorted(bps[..0]);
      Bisect(bps[..|bps| - 1], x)
  }

  /** The value of the function at x. */
  function Call(f: StepFn, x: int): real
    requires Sorted(f.bps)
  {
    if |f.bps| == 0 || x < f.bps[0].x then f.initial else f.bps[Bisect(f.bps, x) - 1].y
  }

  /** Setting a key of the sorted dictionary: replace its value or insert it in order. */
  function SetKey(bps: seq<Breakpoint>, x: int, y: real): (r: seq<Breakpoint>)
    ensures r != []
  {
    var n := |bps|;
    if n == 0 || bps[n - 1].x < x then bps + [Breakpoint(x, y)]
    else if bps[n - 1].x == x then bps[..n - 1] + [Breakpoint(x, y)]
    else SetKey(bps[..n - 1], x, y) + [bps[n - 1]]
  }

  lemma {:induction false} SetKeySorted(bps: seq<Breakpoint>, x: int, y: real)
    requires Sorted(bps)
    ensures var r := SetKey(bps, x, y);
      Sorted(r) && r[|r| - 1].x == if bps == [] then x else Max(x, bps[|bps| - 1].x)
  {
    var n := |bps|;
    if n == 0 || bps[n - 1].x < x {
      SortedSnoc(bps, Breakpoint(x, y));
    } else {
      var p := bps[..n - 1];
      SortedPrefix(bps, n - 1);
      LastAlone(bps);
      if bps[n - 1].x == x {
        SortedSnoc(p, Breakpoint(x, y));
      } else {
        SetKeySorted(p, x, y);
        SortedSnoc(SetKey(p, x, y), bps[n - 1]);
      }
    }
  }

  /** The last key is after the last one before it. */
  lemma LastAlone(bps: seq<Breakpoint>)
    requires Sorted(bps) && bps != []
    ensures var p := bps[..|bps| - 1]; p != [] ==> p[|p| - 1].x < bps[|bps| - 1].x
  {
    if |bps| > 1 { KeyBefore(bps, |bps| - 2, |bps| - 1); }
  }

  lemma SortedSnoc(p: seq<Breakpoint>, b: Breakpoint)
    requires Sorted(p) && (p != [] ==> p[|p| - 1].x < b.x)
    ensures Sorted(p + [b])
  {
    assert (p + [b])[..|p|] == p;
  }

  predicate HasKey(bps: seq<Breakpoint>, x: int) {
    exists i :: 0 <= i < |bps| && bps[i].x == x
  }

  /** No breakpoint lies in (x, t]: t is before the first breakpoint after x. */
  ghost predicate NoneBetween(bps: seq<Breakpoint>, x: int, t: int) {
    forall i :: 0 <= i < |bps| ==> !(x < bps[i].x <= t)
  }

  /** An index that separates the keys at or before x from the later ones determines Call. */
  lemma CallAt(f: StepFn, x: int, k: nat)
    requires Sorted(f.bps) && k <= |f.bps|
    requires k > 0 ==> f.bps[k - 1].x <= x
    requires k < |f.bps| ==> x < f.bps[k].x
    ensures Bisect(f.bps, x) == k
    ensures Call(f, x) == if k == 0 then f.initial else f.bps[k - 1].y
  {
    var m := Bisect(f.bps, x);
    if m < k { KeyOrder(f.bps, m, k - 1); }
    if k < m { KeyOrder(f.bps, k, m - 1); }
    if k == 0 && f.bps != [] { KeyOrder(f.bps, 0, 0); }
    if k > 0 { KeyOrder(f.bps, 0, k - 1); }
  }

  /** The last breakpoint overrides the earlier ones from its key on. */
  lemma CallLast(f: StepFn, p: seq<Breakpoint>, b: Breakpoint, t: int)
    requires Sorted(f.bps) && Sorted(p) && f.bps == p + [b]
    ensures Call(f, t) == if b.x <= t then b.y else Call(f.(bps := p), t)
  {
    assert f.bps[..|p|] == p;
    if b.x <= t {
      CallAt(f, t, |f.bps|);
    } else {
      CallAt(f, t, Bisect(p, t));
    }
  }

  lemma {:induction false} SetKeyCall(f: StepFn, x: int, y: real, t: int)
    requires Sorted(f.bps)
    ensures Sorted(SetKey(f.bps, x, y))
    ensures Call(f.(bps := SetKey(f.bps, x, y)), t) ==
            if x <= t && NoneBetween(f.bps, x, t) then y else Call(f, t)
    decreases |f.bps|
  {
    var n := |f.bps|;
    SetKeySorted(f.bps, x, y);
    if n == 0 || f.bps[n - 1].x < x {
      CallLast(f.(bps := SetKey(f.bps, x, y)), f.bps, Breakpoint(x, y), t);
      NothingAfter(f.bps, x, t);
    } else if f.bps[n - 1].x == x {
      ReplaceLastCall(f, x, y, t);
    } else {
      var p := f.bps[..n - 1];
      SortedPrefix(f.bps, n - 1);
      SetKeySorted(p, x, y);
      SetKeyCall(f.(bps := p), x, y, t);
      BeforeLastCall(f, SetKey(p, x, y), x, y, t);
    }
  }

  /** The last key gets a new value. */
  lemma ReplaceLastCall(f: StepFn, x: int, y: real, t: int)
    requires Sorted(f.bps) && f.bps != [] && f.bps[|f.bps| - 1].x == x
    ensures Sorted(f.bps[..|f.bps| - 1] + [Breakpoint(x, y)])
    ensures Call(f.(bps := f.bps[..|f.bps| - 1] + [Breakpoint(x, y)]), t) ==
            if x <= t && NoneBetween(f.bps, x, t) then y else Call(f, t)
  {
    var p, last := f.bps[..|f.bps| - 1], f.bps[|f.bps| - 1];
    SortedPrefix(f.bps, |f.bps| - 1);
    assert f.bps == p + [last];
    CallLast(f, p, last, t);
    SortedSnoc(p, Breakpoint(x, y));
    CallLast(f.(bps := p + [Breakpoint(x, y)]), p, Breakpoint(x, y), t);
    NothingAfter(f.bps, x, t);
  }

  /** A key is set somewhere before the last one. */
  lemma BeforeLastCall(f: StepFn, q: seq<Breakpoint>, x: int, y: real, t: int)
    requires Sorted(f.bps) && f.bps != [] && x < f.bps[|f.bps| - 1].x
    requires var p, last := f.bps[..|f.bps| - 1], f.bps[|f.bps| - 1];
      && Sorted(p) && Sorted(q) && Sorted(q + [last])
      && Call(f.(bps := q), t) == if x <= t && NoneBetween(p, x, t) then y else Call(f.(bps := p), t)
    ensures Call(f.(bps := q + [f.bps[|f.bps| - 1]]), t) ==
            if x <= t && NoneBetween(f.bps, x, t) then y else Call(f, t)
  {
    var p, last := f.bps[..|f.bps| - 1], f.bps[|f.bps| - 1];
    assert f.bps == p + [last];
    CallLast(f, p, last, t);
    CallLast(f.(bps := q + [last]), q, last, t);
    NoneBetweenLast(p, last, x, t);
  }

  lemma NothingAfter(bps: seq<Breakpoint>, x: int, t: int)
    requires Sorted(bps) && (bps == [] || bps[|bps| - 1].x <= x)
    ensures NoneBetween(bps, x, t)
  {
    NoneBefore(bps, x, t, |bps|);
  }

  /** Nothing lies between two neighbouring keys. */
  lemma NoneBefore(bps: seq<Breakpoint>, a: int, b: int, i: nat)
    requires Sorted(bps) && i <= |bps|
    requires i > 0 ==> bps[i - 1].x <= a
    requires i < |bps| ==> b < bps[i].x
    ensures NoneBetween(bps, a, b)
  {
    forall j | 0 <= j < |bps| ensures !(a < bps[j].x <= b) {
      if j < i { KeyOrder(bps, j, i - 1); } else { KeyOrder(bps, i, j); }
    }
  }

  lemma NoneBetweenLast(p: seq<Breakpoint>, last: Breakpoint, x: int, t: int)
    requires x < last.x
    ensures NoneBetween(p + [last], x, t) <==> NoneBetween(p, x, t) && t < last.x
  {
    var bps := p + [last];
    assert bps[|p|] == last;
    assert forall i :: 0 <= i < |p| ==> p[i] == bps[i];
  }

  lemma SetKeyHas(bps: seq<Breakpoint>, x: int, y: real)
    ensures HasKey(SetKey(bps, x, y), x)
  {
    var i := SetKeyIndex(bps, x, y);
  }

  lemma {:induction false} SetKeyIndex(bps: seq<Breakpoint>, x: int, y: real) returns (i: nat)
    ensures i < |SetKey(bps, x, y)| && SetKey(bps, x, y)[i] == Breakpoint(x, y)
  {
    var n := |bps|;
    if n == 0 || bps[n - 1].x < x {
      i := n;
    } else if bps[n - 1].x == x {
      i := n - 1;
    } else {
      i := SetKeyIndex(bps[..n - 1], x, y);
    }
  }

  lemma SetKeyCovers(bps: seq<Breakpoint>, x: int, y: real, z: int)
    requires Sorted(bps) && Covers(bps, z) && x <= z
    ensures Covers(SetKey(bps, x, y), z)
  {
    var r := SetKey(bps, x, y);
    SetKeySorted(bps, x, y);
    forall k | 0 <= k < |r| ensures r[k].x <= z {
      KeyOrder(r, k, |r| - 1);
    }
  }

  lemma BisectMonotone(bps: seq<Breakpoint>, x: int, t: int)
    requires Sorted(bps)
    ensures t <= x ==> Bisect(bps, t) <= Bisect(bps, x)
    ensures x <= t ==> Bisect(bps, x) <= Bisect(bps, t)
    ensures x <= t ==> (NoneBetween(bps, x, t) <==> Bisect(bps, x) == Bisect(bps, t))
  {
    var k, m := Bisect(bps, x), Bisect(bps, t);
    if k < m {
      KeyOrder(bps, k, m - 1);
      assert x < bps[k].x <= t;
    } else if m < k {
      KeyOrder(bps, m, k - 1);
    } else {
      NoneBefore(bps, x, t, k);
    }
  }

  /** The function that has only the first i breakpoints of f. */
  ghost function Prefix(f: StepFn, i: nat): (p: StepFn)
    requires Sorted(f.bps) && i <= |f.bps|
    ensures Sorted(p.bps)
  {
    SortedPrefix(f.bps, i);
    f.(bps := f.bps[..i])
  }

  /** One more breakpoint overrides the earlier ones from its key on. */
  lemma PrefixCall(f: StepFn, i: nat, t: int)
    requires Sorted(f.bps) && i < |f.bps|
    ensures Call(Prefix(f, i + 1), t) == if f.bps[i].x <= t then f.bps[i].y else Call(Prefix(f, i), t)
  {
    assert f.bps[..i + 1] == f.bps[..i] + [f.bps[i]];
    CallLast(Prefix(f, i + 1), Prefix(f, i).bps, f.bps[i], t);
  }

  // ---- integrals ------------------------------------------------------------------------

  /** The integral of f over [a, b): every breakpoint is an integer, so it is a sum of unit cells. */
  ghost function Area(f: StepFn, a: int, b: int): real
    requires Sorted(f.bps)
    decreases b - a
  {
    if b <= a then 0.0 else Area(f, a, b - 1) + Call(f, b - 1)
  }

  /** The integral is additive over a split point. */
  lemma {:induction false} AreaSplit(f: StepFn, a: int, b: int, c: int)
    requires Sorted(f.bps) && a <= b <= c
    ensures Area(f, a, c) == Area(f, a, b) + Area(f, b, c)
    decreases c - b
  {
    if b < c { AreaSplit(f, a, b, c - 1); }
  }

  /** n * v, by repeated addition. */
  function Times(v: real, n: nat): real {
    if n == 0 then 0.0 else Times(v, n - 1) + v
  }

  lemma {:induction false} TimesClosed(v: real, n: nat)
    ensures Times(v, n) == v * n as real
  {
    if n > 0 { TimesClosed(v, n - 1); }
  }

  lemma {:induction false} AreaConstant(f: StepFn, a: int, b: int, v: real)
    requires Sorted(f.bps) && a <= b
    requires forall t :: a <= t < b ==> Call(f, t) == v
    ensures Area(f, a, b) == Times(v, b - a)
    decreases b - a
  {
    if a < b { AreaConstant(f, a, b - 1, v); }
  }

  lemma Reorder(scale: real, n: nat, v: real, u: real)
    requires u == scale * v
    ensures Times(u, n) == scale * n as real * v
  {
    TimesClosed(u, n);
  }

  /** The width of [max(x, a), b). */
  function TailWidth(x: int, a: int, b: int): nat {
    if x <= a then (if a < b then b - a else 0) else (if x < b then b - x else 0)
  }

  /** g is f shifted by d from x on. */
  ghost predicate ShiftedFrom(f: StepFn, g: StepFn, x: int, d: real)
    requires Sorted(f.bps) && Sorted(g.bps)
  {
    forall t :: Call(g, t) == Call(f, t) + (if x <= t then d else 0.0)
  }

  /** Shifting a function by d from x on moves its integral by d times the shifted width. */
  lemma AreaShifted(f: StepFn, g: StepFn, x: int, d: real, a: int, b: int, width: nat)
    requires Sorted(f.bps) && Sorted(g.bps) && ShiftedFrom(f, g, x, d) && width == TailWidth(x, a, b)
    ensures Area(g, a, b) == Area(f, a, b) + d * width as real
  {
    AreaShiftedBy(f, g, x, d, a, b);
    TimesClosed(d, width);
  }

  lemma {:induction false} AreaShiftedBy(f: StepFn, g: StepFn, x: int, d: real, a: int, b: int)
    requires Sorted(f.bps) && Sorted(g.bps) && ShiftedFrom(f, g, x, d)
    ensures Area(g, a, b) == Area(f, a, b) + Times(d, TailWidth(x, a, b))
    decreases b - a
  {
    if a < b {
      AreaShiftedBy(f, g, x, d, a, b - 1);
      assert Call(g, b - 1) == Call(f, b - 1) + (if x <= b - 1 then d else 0.0);
    }
  }

  /** Marks the points at which IsScaled is to be used. */
  ghost predicate Point(t: int) { true }

  ghost predicate IsScaled(f: StepFn, g: StepFn, s: real)
    requires Sorted(f.bps) && Sorted(g.bps)
  {
    && (forall t {:trigger Point(t)} :: Point(t) ==> Call(g, t) == s * Call(f, t))
    && |g.bps| == |f.bps|
    && (forall i :: 0 <= i < |f.bps| ==> g.bps[i].x == f.bps[i].x)
  }

  /** The function with every value multiplied by s: what a linear transform of the widths integrates.
      It is chosen by what it is, so that proofs about it meet its products only where they ask for them. */
  ghost function Scaled(f: StepFn, s: real): (g: StepFn)
    requires Sorted(f.bps)
    ensures Sorted(g.bps) && IsScaled(f, g, s)
  {
    ScaledExists(f, s);
    var g: StepFn :| Sorted(g.bps) && IsScaled(f, g, s);
    g
  }

  ghost function ScaledKeys(bps: seq<Breakpoint>, s: real): (r: seq<Breakpoint>)
    ensures |r| == |bps| && forall i :: 0 <= i < |bps| ==> r[i].x == bps[i].x
  {
    seq(|bps|, i requires 0 <= i < |bps| => Breakpoint(bps[i].x, s * bps[i].y))
  }

  lemma ScaledExists(f: StepFn, s: real)
    requires Sorted(f.bps)
    ensures exists g: StepFn :: Sorted(g.bps) && IsScaled(f, g, s)
  {
    var g := StepFn(s * f.initial, ScaledKeys(f.bps, s));
    SameKeysSorted(f.bps, g.bps);
    forall t | Point(t) ensures Call(g, t) == s * Call(f, t) {
      ScaledAt(f, s, g, t);
    }
    assert IsScaled(f, g, s);
  }

  lemma ScaledAt(f: StepFn, s: real, g: StepFn, t: int)
    requires Sorted(f.bps) && Sorted(g.bps) && g == StepFn(s * f.initial, ScaledKeys(f.bps, s))
    ensures Call(g, t) == s * Call(f, t)
  {
    var k := Bisect(f.bps, t);
    CallAt(f, t, k);
    CallAt(g, t, k);
    if k > 0 { ScaledValue(s, Call(f, t), f.bps[k - 1].y, g.bps[k - 1].y); }
  }

  lemma ScaledValue(s: real, called: real, y: real, scaled: real)
    requires called == y && scaled == s * y
    ensures scaled == s * called
  {
  }

  /** Scaling the widths by s scales the integral by s. */
  lemma ScaledArea(f: StepFn, s: real, a: int, b: int)
    requires Sorted(f.bps)
    ensures Area(Scaled(f, s), a, b) == s * Area(f, a, b)
  {
    var h := (v: real) => s * v;
    forall x, y ensures h(Sum(x, y)) == h(x) + h(y) {
      Distribute(s, x + y, x, y);
    }
    AreaThrough(f, Scaled(f, s), h, a, b);
  }

  ghost function Sum(x: real, y: real): real { x + y }

  ghost predicate Additive(h: real -> real) {
    h(0.0) == 0.0 && forall x, y :: h(Sum(x, y)) == h(x) + h(y)
  }

  /** What distributes over sums passes through the integral. */
  lemma {:induction false} AreaThrough(f: StepFn, g: StepFn, h: real -> real, a: int, b: int)
    requires Sorted(f.bps) && Sorted(g.bps) && Additive(h)
    requires forall t {:trigger Point(t)} :: Point(t) ==> Call(g, t) == h(Call(f, t))
    ensures Area(g, a, b) == h(Area(f, a, b))
    decreases b - a
  {
    if a < b {
      AreaThrough(f, g, h, a, b - 1);
      assert Point(b - 1);
      assert Area(f, a, b) == Sum(Area(f, a, b - 1), Call(f, b - 1));
    }
  }

  lemma ScaledCall(f: StepFn, s: real, t: int)
    requires Sorted(f.bps)
    ensures Call(Scaled(f, s), t) == s * Call(f, t)
  {
    assert Point(t);
  }

  /** A stretch of g in which f, with the same keys, has no breakpoint. */
  lemma StretchArea(f: StepFn, g: StepFn, a: int, x: int, b: int)
    requires Sorted(f.bps) && Sorted(g.bps) && a <= x <= b
    requires |g.bps| == |f.bps| && forall i :: 0 <= i < |f.bps| ==> g.bps[i].x == f.bps[i].x
    requires Bisect(f.bps, x) < |f.bps| ==> b <= f.bps[Bisect(f.bps, x)].x
    ensures Area(g, a, b) == Area(g, a, x) + Times(Call(g, x), b - x)
  {
    var k := Bisect(f.bps, x);
    CallAt(g, x, k);
    forall t | x <= t < b ensures Call(g, t) == Call(g, x) {
      CallAt(g, t, k);
    }
    AreaConstant(g, x, b, Call(g, x));
    AreaSplit(g, a, x, b);
  }

  /** The integral of a function without breakpoints. */
  lemma FlatArea(g: StepFn, a: int, w: nat)
    requires |g.bps| == 0
    ensures Area(g, a, a + w) == Times(g.initial, w)
  {
    AreaConstant(g, a, a + w, g.initial);
  }

  lemma Distribute(s: real, w: real, u: real, v: real)
    requires w == u + v
    ensures s * w == s * u + s * v
  {
  }

  /** start + n * step, by repeated addition. */
  ghost function GridKey(start: int, step: int, n: nat): int {
    if n == 0 then start else GridKey(start, step, n - 1) + step
  }

  lemma {:induction false} GridKeyClosed(start: int, step: int, n: nat)
    ensures GridKey(start, step, n) == start + n * step
  {
    if n > 0 { GridKeyClosed(start, step, n - 1); }
  }

  lemma {:induction false} GridKeyMonotone(start: int, step: int, i: nat, n: nat)
    requires step >= 0 && i <= n
    ensures GridKey(start, step, i) <= GridKey(start, step, n)
  {
    if i < n { GridKeyMonotone(start, step, i, n - 1); }
  }

  /** The first (stop - start) / step steps fit below stop, the next one does not. */
  lemma GridBelow(start: int, stop: int, step: int, i: nat)
    requires step > 0 && start <= stop && i <= (stop - start) / step
    ensures start + step * i == GridKey(start, step, i)
    ensures i < (stop - start) / step ==> GridKey(start, step, i) + step <= stop
    ensures i == (stop - start) / step ==> GridKey(start, step, i) + (stop - start) % step == stop
  {
    var q := (stop - start) / step;
    assert q * step + (stop - start) % step == stop - start;
    GridKeyClosed(start, step, i);
    GridKeyClosed(start, step, q);
    if i < q {
      GridKeyMonotone(start, step, i + 1, q);
    }
  }

  /** The keys of `values` and `integrals`: start, start + step, ... below stop. */
  ghost predicate IsGrid(r: seq<Breakpoint>, start: int, stop: int, step: int) {
    OnKeys(r, start, stop, step) && stop <= GridKey(start, step, |r|)
  }

  ghost predicate OnKeys(r: seq<Breakpoint>, start: int, stop: int, step: int) {
    forall i {:trigger r[i]} :: 0 <= i < |r| ==> r[i].x == GridKey(start, step, i) < stop
  }

  lemma OnKeysSnoc(r: seq<Breakpoint>, b: Breakpoint, start: int, stop: int, step: int)
    requires OnKeys(r, start, stop, step) && b.x == GridKey(start, step, |r|) < stop
    ensures OnKeys(r + [b], start, stop, step)
    ensures GridKey(start, step, |r + [b]|) == b.x + step
  {
    assert |r + [b]| == |r| + 1;
    forall i | 0 <= i < |r + [b]| ensures (r + [b])[i].x == GridKey(start, step, i) < stop {
      if i < |r| { assert (r + [b])[i] == r[i]; }
    }
  }

  function Min(a: int, b: int): int { if a < b then a else b }

  function Max(a: int, b: int): int { if a < b then b else a }

  ghost predicate IsChunks(r: seq<Breakpoint>, f: StepFn, stop: int, step: int)
    requires Sorted(f.bps)
  {
    forall i :: 0 <= i < |r| ==> r[i].y == Area(f, r[i].x, Min(stop, r[i].x + step))
  }

  /** The chunk that is cut off by stop completes the grid. */
  lemma LastChunk(r: seq<Breakpoint>, b: Breakpoint, f: StepFn, start: int, stop: int, step: int)
    requires Sorted(f.bps) && OnKeys(r, start, stop, step) && IsChunks(r, f, stop, step)
    requires b.x == GridKey(start, step, |r|) < stop <= b.x + step && b.y == Area(f, b.x, stop)
    ensures IsGrid(r + [b], start, stop, step) && IsChunks(r + [b], f, stop, step)
  {
    OnKeysSnoc(r, b, start, stop, step);
  }

  ghost function Total(r: seq<Breakpoint>): real {
    if r == [] then 0.0 else Total(r[..|r| - 1]) + r[|r| - 1].y
  }

  /** Whatever the step, the chunks of a range sum to the integral of the whole range. */
  lemma ChunksTotal(r: seq<Breakpoint>, f: StepFn, start: int, stop: int, step: int)
    requires Sorted(f.bps) && start <= stop && step > 0
    requires IsGrid(r, start, stop, step) && IsChunks(r, f, stop, step)
    ensures Total(r) == Area(f, start, stop)
  {
    ChunksPrefix(r, f, start, stop, step, |r|);
    assert r[..|r|] == r;
  }

  lemma {:induction false} ChunksPrefix(r: seq<Breakpoint>, f: StepFn, start: int, stop: int, step: int, n: nat)
    requires Sorted(f.bps) && start <= stop && step > 0 && n <= |r|
    requires IsGrid(r, start, stop, step) && IsChunks(r, f, stop, step)
    ensures start <= Min(stop, GridKey(start, step, n))
    ensures Total(r[..n]) == Area(f, start, Min(stop, GridKey(start, step, n)))
  {
    if n > 0 {
      ChunksPrefix(r, f, start, stop, step, n - 1);
      assert r[..n][..n - 1] == r[..n - 1];
      var a, b := r[n - 1].x, Min(stop, r[n - 1].x + step);
      assert GridKey(start, step, n) == a + step;
      AreaSplit(f, start, a, b);
    }
  }

  /** The ceiling of a / b for positive b, as a number of steps. */
  function CeilDiv(a: int, b: int): (n: int)
    requires b > 0
    ensures (n - 1) * b < a <= n * b
  {
    var n := (a + b - 1) / b;
    assert n * b + (a + b - 1) % b == a + b - 1;
    assert (n - 1) * b == n * b - b;
    n
  }

  lemma FloorBetween(u: real, s: real, q: int, rest: real)
    requires s > 0.0 && u == q as real * s + rest && 0.0 <= rest < s
    ensures (u / s).Floor == q
  {
    var z := u / s;
    assert z * s == u;
    ProductDifference(z - q as real, z, q as real, s);
    UnitQuotient(z - q as real, s, rest);
  }

  lemma ProductDifference(e: real, u: real, v: real, w: real)
    requires e == u - v
    ensures e * w == u * w - v * w
  {
  }

  lemma ProductSign(e: real, w: real)
    requires w > 0.0
    ensures e > 0.0 ==> e * w > 0.0
    ensures e >= 0.0 ==> e * w >= 0.0
  {
  }

  lemma UnitQuotient(d: real, s: real, ds: real)
    requires s > 0.0 && ds == d * s && 0.0 <= ds < s
    ensures 0.0 <= d < 1.0
  {
    ProductSign(-d, s);
    ProductSign(d - 1.0, s);
    ProductDifference(-d, 0.0, d, s);
    ProductDifference(d - 1.0, d, 1.0, s);
  }

  /** Dividing transformed widths is dividing the widths. */
  lemma ScaledFloor(w: int, step: int, scale: real)
    requires step > 0 && scale > 0.0
    ensures scale * step as real > 0.0
    ensures ((scale * w as real) / (scale * step as real)).Floor == w / step
    ensures scale * w as real - scale * step as real * (w / step) as real == scale * (w % step) as real
    ensures scale * (w % step) as real == 0.0 <==> w % step == 0
  {
    var q, m := w / step, w % step;
    assert w as real == q as real * step as real + m as real by {
      assert w == q * step + m;
    }
    var s := scale * step as real;
    ProductBounds(scale, m, step);
    assert scale * w as real == q as real * s + scale * m as real by {
      assert scale * (q as real * step as real) == q as real * s;
    }
    FloorBetween(scale * w as real, s, q, scale * m as real);
  }

  lemma ProductBounds(scale: real, m: int, step: int)
    requires scale > 0.0 && 0 <= m < step
    ensures 0.0 <= scale * m as real < scale * step as real
    ensures scale * m as real == 0.0 <==> m == 0
  {
    if m > 0 { assert scale * m as real > 0.0; }
    assert scale * (step - m) as real > 0.0;
    assert scale * (step - m) as real == scale * step as real - scale * m as real;
  }

  /** b is a with delta added to the value of every key from x on. */
  ghost predicate KeysShifted(a: seq<Breakpoint>, b: seq<Breakpoint>, x: int, delta: real) {
    && |a| == |b|
    && (forall j :: 0 <= j < |a| ==> b[j].x == a[j].x)
    && (forall j :: 0 <= j < |a| ==> b[j].y == a[j].y + (if x <= a[j].x then delta else 0.0))
  }

  lemma ShiftedKeysCall(f: StepFn, g: StepFn, x: int, delta: real, t: int)
    requires Sorted(f.bps) && Sorted(g.bps) && f.initial == g.initial
    requires HasKey(f.bps, x) && KeysShifted(f.bps, g.bps, x, delta)
    ensures Call(g, t) == Call(f, t) + (if x <= t then delta else 0.0)
  {
    var k := Bisect(f.bps, t);
    KeyBelow(f.bps, x, t);
    CallAt(f, t, k);
    CallAt(g, t, k);
  }

  /** A key is at or before t exactly when it is at or before the last key up to t. */
  lemma KeyBelow(bps: seq<Breakpoint>, x: int, t: int)
    requires Sorted(bps) && HasKey(bps, x)
    ensures x <= t <==> Bisect(bps, t) > 0 && x <= bps[Bisect(bps, t) - 1].x
  {
    var h: nat :| h < |bps| && bps[h].x == x;
    var k := Bisect(bps, t);
    if h < k { KeyOrder(bps, h, k - 1); } else { KeyOrder(bps, k, h); }
  }

  /** The keys from x on are those from the last one up to x. */
  lemma FromKey(bps: seq<Breakpoint>, x: int, j: nat)
    requires Sorted(bps) && HasKey(bps, x) && j < |bps|
    ensures x <= bps[j].x <==> Bisect(bps, x) - 1 <= j
  {
    KeyBelow(bps, x, x);
    var k := Bisect(bps, x) - 1;
    if j < k { KeyBefore(bps, j, k); } else { KeyOrder(bps, k, j); }
  }

  // ---- the class ------------------------------------------------------------------------

  class PiecewiseConstantFunction {
    const initial: real
    var bps: seq<Breakpoint>

    ghost predicate Valid()
      reads this
    {
      Sorted(bps)
    }

    function Fn(): (f: StepFn)
      reads this
      ensures f.bps == bps && f.initial == initial
    {
      StepFn(initial, bps)
    }

    constructor (initialValue: real := 0.0)
      ensures Valid() && Fn() == StepFn(initialValue, [])
    {
      initial := initialValue;
      bps := [];
    }

    /** After the call the function is y from x up to the next breakpoint and as before
        elsewhere, whether or not the new breakpoint is squashed away. */
    method AddBreakpoint(x: int, y: real, squash: bool := true)
      requires Valid()
      modifies this
      ensures Valid()
      ensures forall t :: Call(Fn(), t) ==
                          if x <= t && NoneBetween(old(bps), x, t) then y else old(Call(Fn(), t))
      ensures !squash ==> bps == SetKey(old(bps), x, y)
      ensures forall z :: x <= z && Covers(old(bps), z) ==> Covers(bps, z)
    {
      SetKeySorted(bps, x, y);
      forall t ensures Call(Fn().(bps := SetKey(bps, x, y)), t) ==
                       if x <= t && NoneBetween(bps, x, t) then y else Call(Fn(), t)
      {
        SetKeyCall(Fn(), x, y, t);
      }
      forall z | x <= z && Covers(bps, z) ensures Covers(SetKey(bps, x, y), z) {
        SetKeyCovers(bps, x, y, z);
      }
      if squash && Call(Fn(), x) == y {
        forall t | x <= t && NoneBetween(bps, x, t) ensures Call(Fn(), t) == y {
          BisectMonotone(bps, x, t);
        }
        return;
      }
      bps := SetKey(bps, x, y);
    }

    /** After the call the function is shifted by delta at every point from x on. */
    method AddDelta(x: int, delta: real)
      requires Valid()
      modifies this
      ensures Valid()
      ensures ShiftedFrom(old(Fn()), Fn(), x, delta)
    {
      if delta == 0.0 {
        return;
      }
      if !HasKey(bps, x) {
        SetKeyHas(bps, x, Call(Fn(), x));
        AddBreakpoint(x, Call(Fn(), x), false);
        forall t | x <= t && NoneBetween(old(bps), x, t) ensures old(Call(Fn(), t)) == old(Call(Fn(), x)) {
          BisectMonotone(old(bps), x, t);
        }
      }
      ghost var f := Fn();
      assert forall t :: Call(f, t) == old(Call(Fn(), t));
      ShiftKeys(x, delta);
      forall t ensures Call(Fn(), t) == Call(f, t) + (if x <= t then delta else 0.0) {
        ShiftedKeysCall(f, Fn(), x, delta, t);
      }
    }

    /** Adds delta to the value of every key from x on. */
    method ShiftKeys(x: int, delta: real)
      requires Valid() && HasKey(bps, x)
      modifies this
      ensures Valid()
      ensures KeysShifted(old(bps), bps, x, delta)
    {
      KeyBelow(bps, x, x);
      var k := Bisect(bps, x) - 1;
      ghost var before := bps;
      var i := k;
      while i < |bps|
        invariant k <= i <= |bps| == |before|
        invariant forall j :: 0 <= j < |bps| ==> bps[j].x == before[j].x
        invariant forall j :: k <= j < i ==> bps[j].y == before[j].y + delta
        invariant forall j :: 0 <= j < k || i <= j < |bps| ==> bps[j].y == before[j].y
      {
        bps := bps[i := Breakpoint(bps[i].x, bps[i].y + delta)];
        i := i + 1;
      }
      SameKeysSorted(before, bps);
      forall j | 0 <= j < |before| ensures bps[j].y == before[j].y + (if x <= before[j].x then delta else 0.0) {
        FromKey(before, x, j);
      }
    }

    /** A single sweep over the breakpoints samples the function at every grid point. */
    method Values(start: int, stop: int, step0: int) returns (r: seq<Breakpoint>)
      requires Valid()
      requires step0 > 0 || (step0 == 0 && start < stop)
      ensures IsGrid(r, start, stop, if step0 == 0 then stop - start else step0)
      ensures forall i :: 0 <= i < |r| ==> r[i].y == Call(Fn(), r[i].x)
    {
      var step := if step0 == 0 then stop - start else step0;
      if |bps| == 0 {
        r := EvenGrid(start, stop, step, initial);
      } else {
        r := Sweep(Fn(), start, stop, step);
      }
    }

    static method Sweep(f: StepFn, start: int, stop: int, step: int) returns (r: seq<Breakpoint>)
      requires Sorted(f.bps) && step > 0
      ensures IsGrid(r, start, stop, step)
      ensures forall i :: 0 <= i < |r| ==> r[i].y == Call(f, r[i].x)
    {
      var x, value, next := start, Call(f, start), Bisect(f.bps, start);
      r := [];
      while x < stop
        invariant x == if |r| == 0 then start else Min(stop, GridKey(start, step, |r|))
        invariant OnKeys(r, start, stop, step)
        invariant forall i {:trigger r[i]} :: 0 <= i < |r| ==> r[i].y == Call(f, r[i].x)
        invariant next == Bisect(f.bps, x) && value == Call(f, x)
        decreases stop - x
      {
        OnKeysSnoc(r, Breakpoint(x, value), start, stop, step);
        r := r + [Breakpoint(x, value)];
        CallAt(f, x, next);
        x := Min(stop, x + step);
        next, value := Advance(f, next, value, x);
      }
    }

    /** Moves the cursor over the breakpoints up to x. */
    static method Advance(f: StepFn, next0: nat, value0: real, x: int) returns (next: nat, value: real)
      requires Sorted(f.bps) && next0 <= |f.bps|
      requires next0 > 0 ==> f.bps[next0 - 1].x <= x
      requires value0 == if next0 == 0 then f.initial else f.bps[next0 - 1].y
      ensures next == Bisect(f.bps, x) && value == Call(f, x)
    {
      next, value := next0, value0;
      while next < |f.bps| && x >= f.bps[next].x
        invariant next <= |f.bps|
        invariant next > 0 ==> f.bps[next - 1].x <= x
        invariant value == if next == 0 then f.initial else f.bps[next - 1].y
      {
        value := f.bps[next].y;
        next := next + 1;
      }
      CallAt(f, x, next);
    }

    /** Each chunk is the exact integral over [key, min(stop, key + step)) of the function
        scaled by the factor of the linear transform. */
    method Integrals(start: int, stop: int, step0: int, scale: real) returns (r: seq<Breakpoint>)
      requires Valid() && scale > 0.0
      requires (step0 > 0 && start <= stop) || (step0 == 0 && start < stop)
      ensures IsGrid(r, start, stop, if step0 == 0 then stop - start else step0)
      ensures IsChunks(r, Scaled(Fn(), scale), stop, if step0 == 0 then stop - start else step0)
    {
      var step := if step0 == 0 then stop - start else step0;
      if |bps| == 0 {
        r := ConstantChunks(start, stop, step, scale);
      } else {
        r := SweepChunks(Fn(), start, stop, step, scale);
      }
    }

    static method SweepChunks(f: StepFn, start: int, stop: int, step: int, scale: real) returns (r: seq<Breakpoint>)
      requires Sorted(f.bps) && scale > 0.0 && step > 0 && start <= stop
      ensures IsGrid(r, start, stop, step) && IsChunks(r, Scaled(f, scale), stop, step)
    {
      ghost var g := Scaled(f, scale);
      var x, value, next := start, Call(f, start), Bisect(f.bps, start);
      r := [];
      while x < stop
        invariant x == Min(stop, GridKey(start, step, |r|))
        invariant OnKeys(r, start, stop, step)
        invariant IsChunks(r, g, stop, step)
        invariant next == Bisect(f.bps, x) && value == Call(f, x)
        decreases stop - x
      {
        var origX, nextX, integral := x, Min(stop, x + step), 0.0;
        integral, next, value := Chunk(f, g, origX, nextX, scale, next, value);
        OnKeysSnoc(r, Breakpoint(origX, integral), start, stop, step);
        r := r + [Breakpoint(origX, integral)];
        x := nextX;
      }
    }

    /** The integral of one chunk: the sub-chunks cut off by the breakpoints, then the rest. */
    static method Chunk(f: StepFn, ghost g: StepFn, x0: int, nextX: int, scale: real, next0: nat, value0: real)
      returns (integral: real, next: nat, value: real)
      requires Sorted(f.bps) && Sorted(g.bps) && IsScaled(f, g, scale) && x0 <= nextX
      requires next0 == Bisect(f.bps, x0) && value0 == Call(f, x0)
      ensures integral == Area(g, x0, nextX)
      ensures next == Bisect(f.bps, nextX) && value == Call(f, nextX)
    {
      var x := x0;
      integral, next, value := 0.0, next0, value0;
      while next < |f.bps| && nextX >= f.bps[next].x
        invariant x0 <= x <= nextX
        invariant next == Bisect(f.bps, x) && value == Call(f, x)
        invariant integral == Area(g, x0, x)
        decreases |f.bps| - next
      {
        integral := AddStretch(f, g, x0, x, f.bps[next].x, scale, value, integral);
        NextKey(f.bps, next);
        x, value, next := f.bps[next].x, f.bps[next].y, next + 1;
        CallAt(f, x, next);
      }
      integral := AddStretch(f, g, x0, x, nextX, scale, value, integral);
      CallAt(f, x, next);
      CallAt(f, nextX, next);
    }

    /** Adds the transformed width of a stretch without breakpoints times the value at its start. */
    static method AddStretch(f: StepFn, ghost g: StepFn, ghost x0: int, x: int, b: int, scale: real, value: real,
                             before: real)
      returns (integral: real)
      requires Sorted(f.bps) && Sorted(g.bps) && IsScaled(f, g, scale) && x0 <= x <= b && value == Call(f, x)
      requires Bisect(f.bps, x) < |f.bps| ==> b <= f.bps[Bisect(f.bps, x)].x
      requires before == Area(g, x0, x)
      ensures integral == Area(g, x0, b)
    {
      assert Point(x);
      StretchArea(f, g, x0, x, b);
      var width := WidthTimes(b - x, scale, value, Call(g, x));
      integral := before + width;
    }

    static method WidthTimes(n: nat, scale: real, value: real, ghost unit: real) returns (v: real)
      requires unit == scale * value
      ensures v == Times(unit, n)
    {
      Reorder(scale, n, value, unit);
      v := scale * n as real * value;
    }

    /** The keys of a range cut into even steps, all carrying the same value. */
    static method EvenGrid(start: int, stop: int, step: int, value: real) returns (r: seq<Breakpoint>)
      requires step > 0
      ensures IsGrid(r, start, stop, step)
      ensures forall i :: 0 <= i < |r| ==> r[i].y == value
    {
      var n := Max(0, CeilDiv(stop - start, step));
      r := seq(n, i => Breakpoint(start + i * step, value));
      forall i | 0 <= i < n ensures r[i].x == GridKey(start, step, i) < stop {
        GridKeyClosed(start, step, i);
        GridKeyClosed(start, step, n - 1);
        GridKeyMonotone(start, step, i, n - 1);
      }
      GridKeyClosed(start, step, n);
    }

    static method EvenChunks(start: int, step: int, n: nat, y: real) returns (r: seq<Breakpoint>)
      ensures |r| == n
      ensures forall i {:trigger r[i]} :: 0 <= i < n ==> r[i] == Breakpoint(GridKey(start, step, i), y)
    {
      r := seq(n, i => Breakpoint(start + step * i, y));
      forall i | 0 <= i < n ensures r[i].x == GridKey(start, step, i) {
        GridKeyClosed(start, step, i);
      }
    }

    /** With no breakpoint at all the range is cut into even widths. */
    method ConstantChunks(start: int, stop: int, step: int, scale: real) returns (r: seq<Breakpoint>)
      requires Valid() && |bps| == 0 && scale > 0.0 && step > 0 && start <= stop
      ensures IsGrid(r, start, stop, step) && IsChunks(r, Scaled(Fn(), scale), stop, step)
    {
      ghost var g := Scaled(Fn(), scale);
      var full, stepArea, rest, restArea := Widths(start, stop, step, scale);
      r := EvenChunks(start, step, full, stepArea);
      forall i | 0 <= i < full
        ensures r[i].x + step <= stop && r[i].y == Area(g, r[i].x, r[i].x + step)
      {
        GridBelow(start, stop, step, i);
        FlatArea(g, r[i].x, step);
      }
      GridBelow(start, stop, step, full);
      assert OnKeys(r, start, stop, step) && IsChunks(r, g, stop, step);
      if rest != 0.0 {
        var last := Breakpoint(start + step * full, restArea);
        FlatArea(g, last.x, (stop - start) % step);
        LastChunk(r, last, g, start, stop, step);
        r := r + [last];
      }
    }

    /** The number of full chunks, their integral, the width left over and its integral. */
    method Widths(start: int, stop: int, step: int, scale: real)
      returns (full: int, stepArea: real, rest: real, restArea: real)
      requires Valid() && |bps| == 0 && scale > 0.0 && step > 0 && start <= stop
      ensures full == (stop - start) / step
      ensures rest == 0.0 <==> (stop - start) % step == 0
      ensures stepArea == Times(Scaled(Fn(), scale).initial, step)
      ensures restArea == Times(Scaled(Fn(), scale).initial, (stop - start) % step)
    {
      ghost var unit := Scaled(Fn(), scale).initial;
      ScaledCall(Fn(), scale, 0);
      full, stepArea, rest, restArea := FlatWidths(stop - start, step, scale, initial, unit);
    }

    static method FlatWidths(w: int, step: int, scale: real, value: real, ghost unit: real)
      returns (full: int, stepArea: real, rest: real, restArea: real)
      requires scale > 0.0 && step > 0 && w >= 0 && unit == scale * value
      ensures full == w / step
      ensures rest == 0.0 <==> w % step == 0
      ensures stepArea == Times(unit, step)
      ensures restArea == Times(unit, w % step)
    {
      var stepWidth, rangeWidth := scale * step as real, scale * w as real;
      ScaledFloor(w, step, scale);
      full := (rangeWidth / stepWidth).Floor;
      rest := rangeWidth - stepWidth * full as real;
      stepArea, restArea := stepWidth * value, rest * value;
      Reorder(scale, step, value, unit);
      Reorder(scale, w % step, value, unit);
    }

    /** The integral of a whole range. */
    method Integral(start: int, stop: int, scale: real) returns (v: real)
      requires Valid() && scale > 0.0 && start < stop
      ensures v == scale * Area(Fn(), start, stop)
    {
      var r := Integrals(start, stop, stop - start, scale);
      assert |r| > 0;
      v := r[0].y;
      ScaledArea(Fn(), scale, start, stop);
    }

    /** Any pointwise operator: the two breakpoint streams are merged by (key, value, side), and
        at a key both functions break at, the first entry pairs one new value with a stale one. */
    static method Combine(f0: PiecewiseConstantFunction, g0: PiecewiseConstantFunction, op: (real, real) -> real)
      returns (h: PiecewiseConstantFunction)
      requires f0.Valid() && g0.Valid()
      ensures fresh(h) && h.Valid()
      ensures forall t :: Call(h.Fn(), t) == Apply(op, Call(f0.Fn(), t), Call(g0.Fn(), t))
    {
      var f, g := f0.Fn(), g0.Fn();
      h := new PiecewiseConstantFunction(Apply(op, f.initial, g.initial));
      var i: nat, j: nat, prev0, prev1 := 0, 0, f.initial, g.initial;
      ghost var z := if f.bps == [] then (if g.bps == [] then 0 else g.bps[0].x)
                     else if g.bps == [] then f.bps[0].x else Min(f.bps[0].x, g.bps[0].x);
      while i < |f.bps| || j < |g.bps|
        invariant fresh(h) && h.Valid() && i <= |f.bps| && j <= |g.bps|
        invariant prev0 == LastValue(f, i) && prev1 == LastValue(g, j)
        invariant i < |f.bps| ==> z <= f.bps[i].x
        invariant j < |g.bps| ==> z <= g.bps[j].x
        invariant i > 0 ==> f.bps[i - 1].x <= z
        invariant j > 0 ==> g.bps[j - 1].x <= z
        invariant Covers(h.bps, z)
        invariant Merged(h.Fn(), f, i, g, j, op)
        decreases |f.bps| - i + |g.bps| - j
      {
        ghost var i0, j0 := i, j;
        var x, y0, y1;
        x, y0, y1, i, j, prev0, prev1 := NextMerged(f, i, g, j, prev0, prev1, op);
        assert Covers(h.bps, x);
        ghost var before := h.Fn();
        h.AddBreakpoint(x, Apply(op, y0, y1));
        MergedNext(before, h.Fn(), f, i0, i, g, j0, j, op, x, Apply(op, y0, y1));
        z := x;
      }
      assert Prefix(f, i) == f && Prefix(g, j) == g;
    }

    /** One entry of the merged breakpoints. */
    static method NextMerged(f: StepFn, i0: nat, g: StepFn, j0: nat, prev0: real, prev1: real,
                             ghost op: (real, real) -> real)
      returns (x: int, y0: real, y1: real, i: nat, j: nat, next0: real, next1: real)
      requires Sorted(f.bps) && Sorted(g.bps) && i0 <= |f.bps| && j0 <= |g.bps|
      requires i0 < |f.bps| || j0 < |g.bps|
      requires prev0 == LastValue(f, i0) && prev1 == LastValue(g, j0)
      requires i0 < |f.bps| && j0 > 0 ==> g.bps[j0 - 1].x <= f.bps[i0].x
      requires j0 < |g.bps| && i0 > 0 ==> f.bps[i0 - 1].x <= g.bps[j0].x
      ensures (i == i0 + 1 && j == j0 && i0 < |f.bps| && x == f.bps[i0].x) ||
              (i == i0 && j == j0 + 1 && j0 < |g.bps| && x == g.bps[j0].x)
      ensures i < |f.bps| ==> x <= f.bps[i].x
      ensures j < |g.bps| ==> x <= g.bps[j].x
      ensures next0 == LastValue(f, i) && next1 == LastValue(g, j)
      ensures JointStep(f, i0, i, g, j0, j, op, x, Apply(op, y0, y1))
    {
      i, j, next0, next1 := i0, j0, prev0, prev1;
      if j0 == |g.bps| || (i0 < |f.bps| && Before(f.bps[i0], g.bps[j0])) {
        x, y0, y1 := f.bps[i0].x, f.bps[i0].y, prev1;
        next0, i := y0, i0 + 1;
        NextKey(f.bps, i0);
        JointLeft(f, i0, g, j0, op);
      } else {
        x, y0, y1 := g.bps[j0].x, prev0, g.bps[j0].y;
        next1, j := y1, j0 + 1;
        NextKey(g.bps, j0);
        JointRight(f, i0, g, j0, op);
      }
    }

    static method Add(f: PiecewiseConstantFunction, g: PiecewiseConstantFunction)
      returns (h: PiecewiseConstantFunction)
      requires f.Valid() && g.Valid()
      ensures fresh(h) && h.Valid()
      ensures forall t :: Call(h.Fn(), t) == Call(f.Fn(), t) + Call(g.Fn(), t)
    {
      h := Combine(f, g, (a, b) => a + b);
    }

    static method Subtract(f: PiecewiseConstantFunction, g: PiecewiseConstantFunction)
      returns (h: PiecewiseConstantFunction)
      requires f.Valid() && g.Valid()
      ensures fresh(h) && h.Valid()
      ensures forall t :: Call(h.Fn(), t) == Call(f.Fn(), t) - Call(g.Fn(), t)
    {
      h := Combine(f, g, (a, b) => a - b);
    }

    static method Multiply(f: PiecewiseConstantFunction, g: PiecewiseConstantFunction)
      returns (h: PiecewiseConstantFunction)
      requires f.Valid() && g.Valid()
      ensures fresh(h) && h.Valid()
      ensures forall t :: Call(h.Fn(), t) == Call(f.Fn(), t) * Call(g.Fn(), t)
    {
      h := Combine(f, g, (a, b) => a * b);
    }

    static method Divide(f: PiecewiseConstantFunction, g: PiecewiseConstantFunction)
      returns (h: PiecewiseConstantFunction)
      requires f.Valid() && g.Valid()
      ensures fresh(h) && h.Valid()
      ensures forall t :: if Call(g.Fn(), t) == 0.0 then Call(h.Fn(), t) == 0.0
                          else Call(h.Fn(), t) == Call(f.Fn(), t) / Call(g.Fn(), t)
    {
      h := Combine(f, g, (a, b) => if b == 0.0 then 0.0 else a / b);
    }

    static method Maximum(f: PiecewiseConstantFunction, g: PiecewiseConstantFunction)
      returns (h: PiecewiseConstantFunction)
      requires f.Valid() && g.Valid()
      ensures fresh(h) && h.Valid()
      ensures forall t :: Call(h.Fn(), t) >= Call(f.Fn(), t) && Call(h.Fn(), t) >= Call(g.Fn(), t)
      ensures forall t :: Call(h.Fn(), t) == Call(f.Fn(), t) || Call(h.Fn(), t) == Call(g.Fn(), t)
    {
      h := Combine(f, g, (a, b) => if a < b then b else a);
    }
  }

  /** Every breakpoint is at or before x. */
  ghost predicate Covers(bps: seq<Breakpoint>, x: int) {
    forall k :: 0 <= k < |bps| ==> bps[k].x <= x
  }

  /** The value after the first i breakpoints. */
  ghost function LastValue(f: StepFn, i: nat): real
    requires i <= |f.bps|
  {
    if i == 0 then f.initial else f.bps[i - 1].y
  }

  lemma NextKey(bps: seq<Breakpoint>, i: nat)
    requires Sorted(bps) && i < |bps|
    ensures i + 1 < |bps| ==> bps[i].x < bps[i + 1].x
  {
    if i + 1 < |bps| { KeyBefore(bps, i, i + 1); }
  }

  function Apply(op: (real, real) -> real, a: real, b: real): real {
    op(a, b)
  }

  /** The operator applied to the first i breakpoints of f and the first j of g. */
  ghost function Joint(f: StepFn, i: nat, g: StepFn, j: nat, op: (real, real) -> real, t: int): real
    requires Sorted(f.bps) && i <= |f.bps| && Sorted(g.bps) && j <= |g.bps|
  {
    Apply(op, Call(Prefix(f, i), t), Call(Prefix(g, j), t))
  }

  /** h is the combination of the first i and the first j breakpoints. */
  ghost predicate Merged(h: StepFn, f: StepFn, i: nat, g: StepFn, j: nat, op: (real, real) -> real)
    requires Sorted(f.bps) && i <= |f.bps| && Sorted(g.bps) && j <= |g.bps|
  {
    Sorted(h.bps) && forall t :: Call(h, t) == Joint(f, i, g, j, op, t)
  }

  lemma MergedNext(h: StepFn, h': StepFn, f: StepFn, i: nat, i': nat, g: StepFn, j: nat, j': nat,
                   op: (real, real) -> real, x: int, v: real)
    requires Sorted(f.bps) && i <= |f.bps| && i' <= |f.bps| && Sorted(g.bps) && j <= |g.bps| && j' <= |g.bps|
    requires Merged(h, f, i, g, j, op) && Sorted(h'.bps) && Covers(h.bps, x)
    requires JointStep(f, i, i', g, j, j', op, x, v)
    requires forall t :: Call(h', t) == if x <= t && NoneBetween(h.bps, x, t) then v else Call(h, t)
    ensures Merged(h', f, i', g, j', op)
  {
    forall t ensures Call(h', t) == Joint(f, i', g, j', op, t) {
      assert NoneBetween(h.bps, x, t);
    }
  }

  /** From x on the value is v, before x it is what it was. */
  ghost predicate JointStep(f: StepFn, i: nat, i': nat, g: StepFn, j: nat, j': nat, op: (real, real) -> real,
                            x: int, v: real)
    requires Sorted(f.bps) && i <= |f.bps| && i' <= |f.bps| && Sorted(g.bps) && j <= |g.bps| && j' <= |g.bps|
  {
    forall t :: Joint(f, i', g, j', op, t) == if x <= t then v else Joint(f, i, g, j, op, t)
  }

  lemma JointLeft(f: StepFn, i: nat, g: StepFn, j: nat, op: (real, real) -> real)
    requires Sorted(f.bps) && i < |f.bps| && Sorted(g.bps) && j <= |g.bps|
    requires j > 0 ==> g.bps[j - 1].x <= f.bps[i].x
    ensures JointStep(f, i, i + 1, g, j, j, op, f.bps[i].x, Apply(op, f.bps[i].y, LastValue(g, j)))
  {
    var x, v, i' := f.bps[i].x, Apply(op, f.bps[i].y, LastValue(g, j)), i + 1;
    forall t ensures Joint(f, i', g, j, op, t) == if x <= t then v else Joint(f, i, g, j, op, t) {
      PrefixCall(f, i, t);
      if x <= t { PrefixEnd(g, j, t); }
    }
  }

  lemma JointRight(f: StepFn, i: nat, g: StepFn, j: nat, op: (real, real) -> real)
    requires Sorted(f.bps) && i <= |f.bps| && Sorted(g.bps) && j < |g.bps|
    requires i > 0 ==> f.bps[i - 1].x <= g.bps[j].x
    ensures JointStep(f, i, i, g, j, j + 1, op, g.bps[j].x, Apply(op, LastValue(f, i), g.bps[j].y))
  {
    var x, v, j' := g.bps[j].x, Apply(op, LastValue(f, i), g.bps[j].y), j + 1;
    forall t ensures Joint(f, i, g, j', op, t) == if x <= t then v else Joint(f, i, g, j, op, t) {
      PrefixCall(g, j, t);
      if x <= t { PrefixEnd(f, i, t); }
    }
  }

  /** After its last breakpoint a prefix keeps the last value. */
  lemma PrefixEnd(f: StepFn, i: nat, t: int)
    requires Sorted(f.bps) && i <= |f.bps| && (i > 0 ==> f.bps[i - 1].x <= t)
    ensures Call(Prefix(f, i), t) == LastValue(f, i)
  {
    CallAt(Prefix(f, i), t, i);
  }

  /** The order in which the merge yields the two heads: by key, then by value, then the left one. */
  predicate Before(a: Breakpoint, b: Breakpoint) {
    a.x < b.x || (a.x == b.x && a.y <= b.y)
  }
}
