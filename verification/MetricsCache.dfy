/** The time-series cache in front of the metrics store
    (examples/clusterman_metrics/clusterman_metrics/boto_client.py), for queries of one metric. */
module MetricsCache {
  import opened Wrappers

  datatype Point = Point(t: nat, v: real)

  /** A time series: strictly increasing timestamps. */
  ghost predicate Series(s: seq<Point>) {
    forall i, j {:trigger Rises(s, i, j)} :: 0 <= i < j < |s| ==> Rises(s, i, j)
  }

  predicate Rises(s: seq<Point>, i: nat, j: nat)
    requires i < |s| && j < |s|
  {
    s[i].t < s[j].t
  }

  lemma Rising(s: seq<Point>)
    requires Series(s)
    ensures forall i, j :: 0 <= i < j < |s| ==> s[i].t < s[j].t
  {
    forall i, j | 0 <= i < j < |s| ensures s[i].t < s[j].t {
      assert Rises(s, i, j);
    }
  }

  lemma PrefixSeries(s: seq<Point>, n: nat)
    requires Series(s) && n <= |s|
    ensures Series(s[..n])
  {
    Rising(s);
  }

  /** The first requested time and the cached points; None when the metric has no list at all. */
  datatype Entry = Entry(timeStart: int, data: Option<seq<Point>>)

  const EmptyEntry := Entry(0, None)

  // ---- series ----------------------------------------------------------------------------

  /** How many points are before x (bisect with minus infinity as the value). */
  function Before(s: seq<Point>, x: int): (k: nat)
    ensures k <= |s|
  {
    if s == [] || s[|s| - 1].t < x then |s| else Before(s[..|s| - 1], x)
  }

  /** How many points are at or before x (bisect with infinity as the value). */
  function UpTo(s: seq<Point>, x: int): nat {
    Before(s, x + 1)
  }

  lemma {:induction false} BeforeIs(s: seq<Point>, x: int)
    requires Series(s)
    ensures forall i :: 0 <= i < |s| ==> (i < Before(s, x) <==> s[i].t < x)
  {
    Rising(s);
    if s != [] && s[|s| - 1].t >= x {
      PrefixSeries(s, |s| - 1);
      BeforeIs(s[..|s| - 1], x);
    }
  }

  lemma {:induction false} BeforeMonotone(s: seq<Point>, x: int, y: int)
    requires x <= y
    ensures Before(s, x) <= Before(s, y)
  {
    if s != [] { BeforeMonotone(s[..|s| - 1], x, y); }
  }

  /** A direct query: the points with a <= t <= b, in order. */
  function Between(s: seq<Point>, a: int, b: int): seq<Point> {
    if s == [] then []
    else
      var rest, last := Between(s[..|s| - 1], a, b), s[|s| - 1];
      if a <= last.t <= b then rest + [last] else rest
  }

  lemma {:induction false} BetweenMember(s: seq<Point>, a: int, b: int, p: Point)
    ensures p in Between(s, a, b) <==> p in s && a <= p.t <= b
  {
    if s != [] {
      BetweenMember(s[..|s| - 1], a, b, p);
      assert s == s[..|s| - 1] + [s[|s| - 1]];
    }
  }

  lemma {:induction false} BetweenSeries(s: seq<Point>, a: int, b: int)
    requires Series(s)
    ensures Series(Between(s, a, b))
  {
    if s != [] {
      var p, last := s[..|s| - 1], s[|s| - 1];
      PrefixSeries(s, |s| - 1);
      BetweenSeries(p, a, b);
      forall i | 0 <= i < |Between(p, a, b)| ensures Between(p, a, b)[i].t < last.t {
        BetweenMember(p, a, b, Between(p, a, b)[i]);
        LastIsLargest(s, Between(p, a, b)[i]);
        Rising(s);
      }
      Rising(Between(p, a, b));
    }
  }

  /** Two series with the same points are the same series. */
  lemma {:induction false} SeriesEqual(a: seq<Point>, b: seq<Point>)
    requires Series(a) && Series(b) && forall p :: p in a <==> p in b
    ensures a == b
  {
    if a == [] {
      NoMembers(b);
    } else {
      assert a[|a| - 1] in b;
      var x, y := a[|a| - 1], b[|b| - 1];
      assert y in a;
      LastIsLargest(a, y);
      LastIsLargest(b, x);
      SamePoint(a, x, y);
      var a', b' := a[..|a| - 1], b[..|b| - 1];
      assert a == a' + [x] && b == b' + [y];
      forall p ensures p in a' <==> p in b' {
        DropLast(a, p);
        DropLast(b, p);
      }
      PrefixSeries(a, |a| - 1);
      PrefixSeries(b, |b| - 1);
      SeriesEqual(a', b');
    }
  }

  lemma HasMember(s: seq<Point>)
    ensures s == [] || exists p :: p in s
  {
    if s != [] { assert s[0] in s; }
  }

  lemma NoMembers(s: seq<Point>)
    requires forall p :: p !in s
    ensures s == []
  {
    HasMember(s);
  }

  lemma LastIsLargest(s: seq<Point>, p: Point)
    requires Series(s) && p in s
    ensures p.t <= s[|s| - 1].t
  {
    Rising(s);
  }

  lemma SamePoint(s: seq<Point>, p: Point, q: Point)
    requires Series(s) && p in s && q in s && p.t == q.t
    ensures p == q
  {
    Rising(s);
    var i :| 0 <= i < |s| && s[i] == p;
    var j :| 0 <= j < |s| && s[j] == q;
  }

  lemma DropLast(s: seq<Point>, p: Point)
    requires Series(s) && s != []
    ensures p in s[..|s| - 1] <==> p in s && p != s[|s| - 1]
  {
    Rising(s);
    if p in s && p != s[|s| - 1] {
      var i :| 0 <= i < |s| && s[i] == p;
      assert s[..|s| - 1][i] == p;
    }
  }

  /** A slice between two bisections holds the points in between. */
  lemma SliceMember(s: seq<Point>, a: int, b: int, p: Point)
    requires Series(s) && a <= b
    ensures Before(s, a) <= UpTo(s, b)
    ensures p in s[Before(s, a)..UpTo(s, b)] <==> p in s && a <= p.t <= b
    ensures p in s[Before(s, a)..] <==> p in s && a <= p.t
    ensures p in s[..Before(s, a)] <==> p in s && p.t < a
  {
    BeforeIs(s, a);
    BeforeIs(s, b + 1);
    BeforeMonotone(s, a, b + 1);
    var i, j := Before(s, a), UpTo(s, b);
    if p in s {
      var k :| 0 <= k < |s| && s[k] == p;
      if i <= k { assert s[i..][k - i] == p; } else { assert s[..i][k] == p; }
      if i <= k < j { assert s[i..j][k - i] == p; }
    }
  }

  /** Between(s, a, b) is the only series with those members. */
  lemma BetweenUnique(x: seq<Point>, s: seq<Point>, a: int, b: int)
    requires Series(x) && Series(s)
    requires forall p :: p in x <==> p in s && a <= p.t <= b
    ensures x == Between(s, a, b)
  {
    BetweenSeries(s, a, b);
    forall p ensures p in x <==> p in Between(s, a, b) {
      BetweenMember(s, a, b, p);
    }
    SeriesEqual(x, Between(s, a, b));
  }

  lemma SliceSeries(s: seq<Point>, i: nat, j: nat)
    requires Series(s) && i <= j <= |s|
    ensures Series(s[i..j])
  {
    Rising(s);
  }

  lemma JoinSeries(x: seq<Point>, y: seq<Point>)
    requires Series(x) && Series(y)
    requires x == [] || y == [] || x[|x| - 1].t < y[0].t
    ensures Series(x + y)
  {
    var s := x + y;
    Rising(x);
    Rising(y);
    forall i, j | 0 <= i < j < |s| ensures s[i].t < s[j].t {
      if i < |x| <= j {
        assert s[i].t <= x[|x| - 1].t && y[0].t <= s[j].t;
      }
    }
  }

  lemma JoinMember(x: seq<Point>, y: seq<Point>, p: Point)
    ensures p in x + y <==> p in x || p in y
  {
  }

  // ---- lookup and store ------------------------------------------------------------------

  /** What a lookup hands back: cached points, the first second still to be fetched, and the entry
      as the lookup leaves it. */
  datatype Hit = Hit(cached: seq<Point>, from: int, entry: Entry)

  function Lookup(e: Entry, qs: int, qe: int): Hit
    requires qs < qe
  {
    if e.data.None? || qs < e.timeStart then Hit([], qs, e)
    else
      var d := e.data.value;
      BeforeMonotone(d, qs, qe + 1);
      var i, j := Before(d, qs), UpTo(d, qe);
      var kept := Entry(qs, if d[i..] == [] then None else Some(d[i..]));
      if i == |d| then Hit([], qs, kept)
      else
        // an index of -1 reads the last point
        var last := if j > 0 then d[j - 1].t else d[|d| - 1].t;
        Hit(d[i..j], last + 1, kept)
  }

  /** What storing freshly fetched points does; points at or after the cutoff are not kept. */
  function Store(e: Entry, from: int, ts: seq<Point>, cutoff: int): Entry {
    var start := if e.data.None? then from else e.timeStart;
    if ts == [] then Entry(start, e.data)
    else
      var d := if e.data.None? then [] else e.data.value;
      var stored := ts[..Before(ts, cutoff)];
      if d != [] && ts[0].t <= d[|d| - 1].t then Entry(from, Some(stored))
      else Entry(start, Some(d + stored))
  }

  /** What the store is asked for after a lookup: nothing when the cache reached the end. */
  function Fetched(hit: Hit, store: seq<Point>, qe: int): seq<Point> {
    if hit.from < qe then Between(store, hit.from, qe) else []
  }

  /** The answer to one query. */
  function Answer(e: Entry, store: seq<Point>, qs: int, qe: int): seq<Point>
    requires qs < qe
  {
    Lookup(e, qs, qe).cached + Fetched(Lookup(e, qs, qe), store, qe)
  }

  /** The entry after one query. */
  function After(e: Entry, store: seq<Point>, cutoff: int, qs: int, qe: int): Entry
    requires qs < qe
  {
    var hit := Lookup(e, qs, qe);
    if hit.from < qe then Store(hit.entry, hit.from, Fetched(hit, store, qe), cutoff) else hit.entry
  }

  // ---- what is always true ---------------------------------------------------------------

  /** Kept by every query: cached points are final points of the store, and none is missing
      from the requested start on. */
  ghost predicate Sound(e: Entry, store: seq<Point>, cutoff: int) {
    e.data.Some? ==>
      var d := e.data.value;
      && Series(d)
      && (forall p {:trigger p in d} :: p in d ==> p in store && p.t < cutoff)
      && (d != [] ==> forall p {:trigger p in d} {:trigger p in store} ::
                        p in store && e.timeStart <= p.t <= d[|d| - 1].t ==> p in d)
  }

  /** Nothing cached is before the recorded start. */
  predicate Anchored(e: Entry) {
    e.data.Some? && e.data.value != [] ==> e.timeStart <= e.data.value[0].t
  }

  /** The stronger condition the cache is designed around. */
  ghost predicate Contiguous(e: Entry, store: seq<Point>, cutoff: int) {
    Sound(e, store, cutoff) && Anchored(e)
  }

  /** The query that loses it: the entry holds an empty list, the start moves back, and a point
      that will be kept lies before the recorded start. */
  ghost predicate Harmful(e: Entry, store: seq<Point>, cutoff: int, qs: int, qe: int) {
    && e.data == Some([])
    && qs < e.timeStart
    && exists p :: p in store && qs <= p.t <= qe && p.t < cutoff && p.t < e.timeStart
  }

  // ---- the answer ------------------------------------------------------------------------

  /** Where the answer really begins: a hit that ends before the request looks further back. */
  function Lower(e: Entry, qs: int, qe: int): int
    requires qs < qe
  {
    if e.data.None? || qs < e.timeStart then qs
    else
      var d := e.data.value;
      var i, j := Before(d, qs), UpTo(d, qe);
      if 0 < i == j < |d| then d[i - 1].t + 1 else qs
  }

  /** Where it ends: not at qe when the cached points end at qe - 1. */
  function Upper(e: Entry, qs: int, qe: int): int
    requires qs < qe
  {
    var cached := Lookup(e, qs, qe).cached;
    if cached != [] && cached[|cached| - 1].t == qe - 1 then qe - 1 else qe
  }

  /** In every sound state, a query answers with exactly the points of [Lower, Upper]. */
  lemma AnswerIs(e: Entry, store: seq<Point>, cutoff: int, qs: int, qe: int)
    requires Series(store) && Sound(e, store, cutoff) && qs < qe
    ensures Answer(e, store, qs, qe) == Between(store, Lower(e, qs, qe), Upper(e, qs, qe))
  {
    if e.data.Some? && e.timeStart <= qs {
      var d := e.data.value;
      BeforeMonotone(d, qs, qe + 1);
      if Before(d, qs) < |d| {
        if Before(d, qs) < UpTo(d, qe) {
          HitAnswer(d, e.timeStart, store, qs, qe);
          HitIs(e.timeStart, d, store, qs, qe);
        } else {
          MissAnswer(d, e.timeStart, store, qs, qe);
          MissIs(e.timeStart, d, store, qs, qe);
        }
      }
    }
  }

  lemma HitIs(start: int, d: seq<Point>, store: seq<Point>, qs: int, qe: int)
    requires start <= qs < qe && Before(d, qs) < UpTo(d, qe)
    ensures var e := Entry(start, Some(d)); var cached := d[Before(d, qs)..UpTo(d, qe)];
      var last := cached[|cached| - 1].t;
      && Lower(e, qs, qe) == qs
      && Upper(e, qs, qe) == (if last == qe - 1 then qe - 1 else qe)
      && Answer(e, store, qs, qe) == if last + 1 < qe then cached + Between(store, last + 1, qe) else cached
  {
    var cached := d[Before(d, qs)..UpTo(d, qe)];
    assert cached[|cached| - 1] == d[UpTo(d, qe) - 1];
    assert Lookup(Entry(start, Some(d)), qs, qe).cached == cached;
    assert cached + [] == cached;
  }

  lemma MissIs(start: int, d: seq<Point>, store: seq<Point>, qs: int, qe: int)
    requires start <= qs < qe && Before(d, qs) == UpTo(d, qe) < |d|
    ensures var e := Entry(start, Some(d)); var i := Before(d, qs);
      var from := if i > 0 then d[i - 1].t + 1 else d[|d| - 1].t + 1;
      && Lower(e, qs, qe) == (if i > 0 then from else qs)
      && Upper(e, qs, qe) == qe
      && Answer(e, store, qs, qe) == if from < qe then Between(store, from, qe) else []
  {
    assert Lookup(Entry(start, Some(d)), qs, qe).cached == [];
  }

  /** Some cached points are in range. */
  lemma HitAnswer(d: seq<Point>, start: int, store: seq<Point>, qs: int, qe: int)
    requires Series(store) && Series(d) && d != [] && start <= qs < qe
    requires forall p :: p in d ==> p in store
    requires forall p :: p in store && start <= p.t <= d[|d| - 1].t ==> p in d
    requires Before(d, qs) < UpTo(d, qe)
    ensures var cached := d[Before(d, qs)..UpTo(d, qe)]; var last := cached[|cached| - 1].t;
      && (last + 1 < qe ==> cached + Between(store, last + 1, qe) == Between(store, qs, qe))
      && (last + 1 >= qe ==> cached == Between(store, qs, if last == qe - 1 then qe - 1 else qe))
  {
    var i, j := Before(d, qs), UpTo(d, qe);
    var cached, last := d[i..j], d[j - 1].t;
    BeforeIs(d, qs);
    BeforeIs(d, qe + 1);
    assert cached[|cached| - 1] == d[j - 1];
    SliceSeries(d, i, j);
    CachedAre(d, start, store, qs, qe);
    BetweenUnique(cached, store, qs, last);
    if last + 1 < qe {
      BetweenSplit(store, qs, last, qe);
    }
  }

  lemma CachedAre(d: seq<Point>, start: int, store: seq<Point>, qs: int, qe: int)
    requires Series(store) && Series(d) && d != [] && start <= qs < qe
    requires forall p :: p in d ==> p in store
    requires forall p :: p in store && start <= p.t <= d[|d| - 1].t ==> p in d
    requires Before(d, qs) < UpTo(d, qe)
    ensures var cached := d[Before(d, qs)..UpTo(d, qe)]; var last := cached[|cached| - 1].t;
      qs <= last <= qe && forall p :: p in cached <==> p in store && qs <= p.t <= last
  {
    var i, j := Before(d, qs), UpTo(d, qe);
    var cached, last := d[i..j], d[j - 1].t;
    BeforeIs(d, qs);
    BeforeIs(d, qe + 1);
    assert cached[|cached| - 1] == d[j - 1];
    SliceSeries(d, i, j);
    forall p ensures p in cached <==> p in store && qs <= p.t <= last {
      SliceMember(d, qs, qe, p);
      if p in cached { LastIsLargest(cached, p); }
    }
  }

  lemma {:induction false} NothingBetween(s: seq<Point>, a: int, b: int)
    requires forall i :: 0 <= i < |s| ==> s[i].t < a
    ensures Between(s, a, b) == []
  {
    if s != [] { NothingBetween(s[..|s| - 1], a, b); }
  }

  lemma {:induction false} BetweenSplit(s: seq<Point>, a: int, b: int, c: int)
    requires Series(s) && a <= b + 1 && b <= c
    ensures Between(s, a, b) + Between(s, b + 1, c) == Between(s, a, c)
  {
    if s != [] {
      var r, last := s[..|s| - 1], s[|s| - 1];
      PrefixSeries(s, |s| - 1);
      Rising(s);
      BetweenSplit(r, a, b, c);
      if last.t <= b {
        NothingBetween(r, b + 1, c);
      }
    }
  }

  /** The cached points jump over the range. */
  lemma MissAnswer(d: seq<Point>, start: int, store: seq<Point>, qs: int, qe: int)
    requires Series(store) && Series(d) && start <= qs < qe
    requires forall p :: p in d ==> p in store
    requires d != [] ==> forall p :: p in store && start <= p.t <= d[|d| - 1].t ==> p in d
    requires Before(d, qs) == UpTo(d, qe) < |d|
    ensures Between(store, qs, qe) == []
    ensures Before(d, qs) > 0 ==> d[Before(d, qs) - 1].t < qs
    ensures d[|d| - 1].t > qe
  {
    BeforeIs(d, qs);
    BeforeIs(d, qe + 1);
    forall p ensures p !in Between(store, qs, qe) {
      BetweenMember(store, qs, qe, p);
      SliceMember(d, qs, qe, p);
    }
    NoMembers(Between(store, qs, qe));
  }

  lemma {:induction false} BetweenBetween(s: seq<Point>, a: int, b: int, c: int)
    requires c <= b
    ensures Between(Between(s, a, b), 0, c) == Between(s, a, c)
  {
    if s != [] {
      var r, last := Between(s[..|s| - 1], a, b), s[|s| - 1];
      BetweenBetween(s[..|s| - 1], a, b, c);
      assert (r + [last])[..|r|] == r;
    }
  }

  /** Starting earlier makes no difference exactly when the gap holds no point. */
  lemma SameFromGap(s: seq<Point>, a: int, b: int, c: int)
    requires Series(s) && a <= b <= c + 1
    ensures Between(s, a, c) == Between(s, b, c) <==> Between(s, a, b - 1) == []
  {
    BetweenSplit(s, a, b - 1, c);
  }

  lemma SameBelow(s: seq<Point>, low: int, up: int, a: int, c: int)
    requires Series(s) && low <= a <= c + 1 && c <= up
    ensures Between(Between(s, low, up), 0, c) == Between(s, a, c) <==> Between(s, low, a - 1) == []
  {
    BetweenBetween(s, low, up, c);
    SameFromGap(s, low, a, c);
  }

  /** Below its end, a sound cache agrees with the store exactly when nothing was stored in the gap
      the answer may reach back over. */
  lemma AgreesIff(e: Entry, store: seq<Point>, cutoff: int, qs: int, qe: int)
    requires Series(store) && Sound(e, store, cutoff) && qs < qe
    ensures Between(Answer(e, store, qs, qe), 0, qe - 1) == Between(store, qs, qe - 1)
       <==> Between(store, Lower(e, qs, qe), qs - 1) == []
  {
    AnswerIs(e, store, cutoff, qs, qe);
    LowerBelow(e, qs, qe);
    SameBelow(store, Lower(e, qs, qe), Upper(e, qs, qe), qs, qe - 1);
  }

  lemma LowerBelow(e: Entry, qs: int, qe: int)
    requires qs < qe && (e.data.Some? ==> Series(e.data.value))
    ensures Lower(e, qs, qe) <= qs
  {
    if e.data.Some? { BeforeIs(e.data.value, qs); }
  }

  /** A contiguous cache agrees with a direct query, up to and including qe unless the cached points
      end at qe - 1. */
  lemma ContiguousAgrees(e: Entry, store: seq<Point>, cutoff: int, qs: int, qe: int)
    requires Series(store) && Contiguous(e, store, cutoff) && qs < qe
    ensures Answer(e, store, qs, qe) == Between(store, qs, Upper(e, qs, qe))
    ensures Between(Answer(e, store, qs, qe), 0, qe - 1) == Between(store, qs, qe - 1)
  {
    AnswerIs(e, store, cutoff, qs, qe);
    LowerBelow(e, qs, qe);
    GapEmpty(e, store, cutoff, qs, qe);
    SameFromGap(store, Lower(e, qs, qe), qs, Upper(e, qs, qe));
    SameBelow(store, Lower(e, qs, qe), Upper(e, qs, qe), qs, qe - 1);
  }

  /** The whole of a direct query comes back, the point at qe included, exactly when the cached points
      do not end at qe - 1 or the store holds no point at qe. */
  lemma CompleteIff(e: Entry, store: seq<Point>, cutoff: int, qs: int, qe: int)
    requires Series(store) && Contiguous(e, store, cutoff) && qs < qe
    ensures Answer(e, store, qs, qe) == Between(store, qs, qe) <==>
            Upper(e, qs, qe) == qe || Between(store, qe, qe) == []
  {
    ContiguousAgrees(e, store, cutoff, qs, qe);
    BetweenSplit(store, qs, qe - 1, qe);
  }

  lemma {:induction false} AllBelowEmpty(s: seq<Point>, a: int, b: int)
    requires b < a
    ensures Between(s, a, b) == []
  {
    if s != [] { AllBelowEmpty(s[..|s| - 1], a, b); }
  }

  lemma GapEmpty(e: Entry, store: seq<Point>, cutoff: int, qs: int, qe: int)
    requires Series(store) && Contiguous(e, store, cutoff) && qs < qe
    ensures Between(store, Lower(e, qs, qe), qs - 1) == []
  {
    if Lower(e, qs, qe) == qs {
      AllBelowEmpty(store, qs, qs - 1);
    } else {
      var d := e.data.value;
      BeforeIs(d, qs);
      NeighboursEmpty(d, e.timeStart, store, Before(d, qs), qs - 1);
    }
  }

  /** Between two neighbouring cached points the store holds nothing. */
  lemma NeighboursEmpty(d: seq<Point>, start: int, store: seq<Point>, i: nat, b: int)
    requires Series(store) && Series(d) && 0 < i < |d| && start <= d[0].t && b < d[i].t
    requires forall p :: p in store && start <= p.t <= d[|d| - 1].t ==> p in d
    ensures Between(store, d[i - 1].t + 1, b) == []
  {
    var low := d[i - 1].t + 1;
    Rising(d);
    assert start <= d[0].t < low;
    forall p: Point ensures p !in Between(store, low, b) {
      BetweenMember(store, low, b, p);
      NotBetweenNeighbours(d, i, p);
    }
    NoMembers(Between(store, low, b));
  }

  lemma NotBetweenNeighbours(d: seq<Point>, i: nat, p: Point)
    requires Series(d) && 0 < i < |d|
    ensures p in d ==> p.t <= d[i - 1].t || d[i].t <= p.t
    ensures d[i].t <= d[|d| - 1].t
  {
    Rising(d);
  }

  // ---- what queries keep -----------------------------------------------------------------

  /** What a lookup guarantees before storing: the fetched range leaves no gap behind it. */
  ghost predicate Joined(e: Entry, from: int) {
    e.data.Some? ==>
      from <= e.timeStart || (e.data.value != [] && from <= e.data.value[|e.data.value| - 1].t + 1)
  }

  lemma LookupSound(e: Entry, store: seq<Point>, cutoff: int, qs: int, qe: int)
    requires Series(store) && Sound(e, store, cutoff) && qs < qe
    ensures Sound(Lookup(e, qs, qe).entry, store, cutoff)
  {
    if e.data.Some? && e.timeStart <= qs {
      Pruned(e.data.value, e.timeStart, store, cutoff, qs);
    }
  }

  lemma LookupJoined(e: Entry, qs: int, qe: int)
    requires qs < qe && (e.data.Some? ==> Series(e.data.value))
    ensures Lookup(e, qs, qe).from < qe ==> Joined(Lookup(e, qs, qe).entry, Lookup(e, qs, qe).from)
  {
    if e.data.Some? && e.timeStart <= qs {
      var d := e.data.value;
      BeforeIs(d, qs);
      if Before(d, qs) < |d| {
        assert d[Before(d, qs)..][|d| - Before(d, qs) - 1] == d[|d| - 1];
      }
    }
  }

  /** Dropping the points before qs keeps the entry sound from qs on. */
  lemma Pruned(d: seq<Point>, start: int, store: seq<Point>, cutoff: int, qs: int)
    requires start <= qs && Sound(Entry(start, Some(d)), store, cutoff)
    ensures Sound(Entry(qs, Some(d[Before(d, qs)..])), store, cutoff)
    ensures d[Before(d, qs)..] != [] ==>
              qs <= d[Before(d, qs)].t && d[Before(d, qs)..][|d| - Before(d, qs) - 1] == d[|d| - 1]
  {
    var i := Before(d, qs);
    BeforeIs(d, qs);
    SliceSeries(d, i, |d|);
    assert d[i..|d|] == d[i..];
    forall p: Point ensures p in d[i..] <==> p in d && qs <= p.t {
      SliceMember(d, qs, qs, p);
    }
  }

  /** Storing what was fetched from a range that leaves no gap keeps the entry sound. */
  lemma StoreSound(e: Entry, store: seq<Point>, cutoff: int, from: int, qe: int)
    requires Series(store) && Sound(e, store, cutoff) && Joined(e, from)
    ensures Sound(Store(e, from, Between(store, from, qe), cutoff), store, cutoff)
  {
    var ts := Between(store, from, qe);
    if ts != [] {
      StoredSound(store, cutoff, from, qe);
      var d := if e.data.None? then [] else e.data.value;
      var stored := ts[..Before(ts, cutoff)];
      if d == [] {
        assert d + stored == stored;
        SoundEarlier(stored, from, if e.data.None? then from else e.timeStart, store, cutoff);
      } else if d[|d| - 1].t < ts[0].t {
        AppendSound(d, e.timeStart, store, cutoff, from, qe);
      }
    }
  }

  /** A later recorded start claims less. */
  lemma SoundEarlier(d: seq<Point>, start: int, later: int, store: seq<Point>, cutoff: int)
    requires start <= later && Sound(Entry(start, Some(d)), store, cutoff)
    ensures Sound(Entry(later, Some(d)), store, cutoff)
  {
  }

  /** The final part of what was fetched is sound from where the fetch began. */
  lemma StoredSound(store: seq<Point>, cutoff: int, from: int, qe: int)
    requires Series(store)
    ensures var ts := Between(store, from, qe);
      && Sound(Entry(from, Some(ts[..Before(ts, cutoff)])), store, cutoff)
      && forall p: Point :: p in ts[..Before(ts, cutoff)] ==> from <= p.t
  {
    var ts := Between(store, from, qe);
    var stored := ts[..Before(ts, cutoff)];
    StoredAre(store, cutoff, from, qe);
    if stored != [] { assert stored[|stored| - 1] in stored; }
  }

  lemma AppendSound(d: seq<Point>, start: int, store: seq<Point>, cutoff: int, from: int, qe: int)
    requires Series(store) && Sound(Entry(start, Some(d)), store, cutoff) && d != []
    requires from <= start || from <= d[|d| - 1].t + 1
    requires var ts := Between(store, from, qe); ts != [] && d[|d| - 1].t < ts[0].t
    ensures var ts := Between(store, from, qe);
      Sound(Entry(start, Some(d + ts[..Before(ts, cutoff)])), store, cutoff)
  {
    var ts := Between(store, from, qe);
    var x := ts[..Before(ts, cutoff)];
    StoredSound(store, cutoff, from, qe);
    JoinSeries(d, x);
    forall p: Point ensures p in d + x <==> p in d || p in x { JoinMember(d, x, p); }
  }

  /** Every query keeps the entry sound. */
  lemma AfterSound(e: Entry, store: seq<Point>, cutoff: int, qs: int, qe: int)
    requires Series(store) && Sound(e, store, cutoff) && qs < qe
    ensures Sound(After(e, store, cutoff, qs, qe), store, cutoff)
  {
    var hit := Lookup(e, qs, qe);
    LookupSound(e, store, cutoff, qs, qe);
    if hit.from < qe {
      LookupJoined(e, qs, qe);
      StoreSound(hit.entry, store, cutoff, hit.from, qe);
    }
  }

  lemma LookupAnchored(e: Entry, qs: int, qe: int)
    requires qs < qe && Anchored(e) && (e.data.Some? ==> Series(e.data.value))
    ensures Anchored(Lookup(e, qs, qe).entry)
  {
    if e.data.Some? { BeforeIs(e.data.value, qs); }
  }

  lemma StoreAnchored(e: Entry, store: seq<Point>, cutoff: int, from: int, qe: int)
    requires Series(store) && Anchored(e) && e.data != Some([])
    ensures Anchored(Store(e, from, Between(store, from, qe), cutoff))
  {
    var ts := Between(store, from, qe);
    var stored := ts[..Before(ts, cutoff)];
    StoredSound(store, cutoff, from, qe);
    if stored != [] { assert stored[0] in stored; }
    if e.data.Some? { assert (e.data.value + stored)[0] == e.data.value[0]; }
    else { assert [] + stored == stored; }
  }

  /** With an empty list in the entry, the start stays where it was whatever is stored. */
  lemma EmptyListHarm(e: Entry, store: seq<Point>, cutoff: int, qs: int, qe: int)
    requires Series(store) && e.data == Some([]) && qs < e.timeStart && qs < qe
    ensures Anchored(After(e, store, cutoff, qs, qe)) <==> !Harmful(e, store, cutoff, qs, qe)
  {
    var ts := Between(store, qs, qe);
    var stored := ts[..Before(ts, cutoff)];
    StoredAre(store, cutoff, qs, qe);
    assert Fetched(Lookup(e, qs, qe), store, qe) == ts;
    assert [] + stored == stored;
    if stored != [] {
      assert stored[0] in stored;
      forall p | p in stored ensures stored[0].t <= p.t { FirstIsSmallest(stored, p); }
    }
  }

  lemma FirstIsSmallest(s: seq<Point>, p: Point)
    requires Series(s) && p in s
    ensures s[0].t <= p.t
  {
    Rising(s);
  }

  lemma StoredAre(store: seq<Point>, cutoff: int, from: int, qe: int)
    requires Series(store)
    ensures var ts := Between(store, from, qe); var stored := ts[..Before(ts, cutoff)];
      && Series(stored)
      && (forall p :: p in stored <==> p in store && from <= p.t <= qe && p.t < cutoff)
      && (ts == [] ==> stored == [])
  {
    var ts := Between(store, from, qe);
    BetweenSeries(store, from, qe);
    SliceSeries(ts, 0, Before(ts, cutoff));
    forall p: Point
      ensures p in ts[..Before(ts, cutoff)] <==> p in store && from <= p.t <= qe && p.t < cutoff
    {
      SliceMember(ts, cutoff, cutoff, p);
      BetweenMember(store, from, qe, p);
    }
  }

  /** A query keeps a contiguous entry contiguous exactly when it is not harmful. */
  lemma ContiguousIff(e: Entry, store: seq<Point>, cutoff: int, qs: int, qe: int)
    requires Series(store) && Contiguous(e, store, cutoff) && qs < qe
    ensures Contiguous(After(e, store, cutoff, qs, qe), store, cutoff)
       <==> !Harmful(e, store, cutoff, qs, qe)
  {
    AfterSound(e, store, cutoff, qs, qe);
    if e.data == Some([]) && qs < e.timeStart {
      EmptyListHarm(e, store, cutoff, qs, qe);
    } else {
      var hit := Lookup(e, qs, qe);
      LookupAnchored(e, qs, qe);
      StoreAnchored(hit.entry, store, cutoff, hit.from, qe);
    }
  }

  /** After a hit, whatever is still fetched comes after everything cached. */
  lemma FetchedAfterCached(d: seq<Point>, start: int, store: seq<Point>, j: nat, qe: int)
    requires Series(store) && Series(d) && 0 < j <= |d| && start <= d[j - 1].t
    requires forall p :: p in store && start <= p.t <= d[|d| - 1].t ==> p in d
    requires j < |d| ==> qe < d[j].t
    ensures var ts := Between(store, d[j - 1].t + 1, qe); ts != [] ==> d[|d| - 1].t < ts[0].t
  {
    var ts := Between(store, d[j - 1].t + 1, qe);
    if ts != [] {
      var p := ts[0];
      assert p in ts;
      BetweenMember(store, d[j - 1].t + 1, qe, p);
      if j < |d| { NotBetweenNeighbours(d, j, p); }
    }
  }

  /** The recorded start never passes the latest request, once it is not after it. */
  lemma StartBound(e: Entry, store: seq<Point>, cutoff: int, qs: int, qe: int)
    requires Series(store) && Sound(e, store, cutoff) && qs < qe
    requires e.data.Some? ==> e.timeStart <= qs
    ensures var after := After(e, store, cutoff, qs, qe); after.data.Some? ==> after.timeStart <= qs
  {
    if e.data.Some? {
      var d := e.data.value;
      var i, j := Before(d, qs), UpTo(d, qe);
      BeforeIs(d, qs);
      BeforeIs(d, qe + 1);
      BeforeMonotone(d, qs, qe + 1);
      if i < |d| {
        StartAfterHit(d, e.timeStart, store, cutoff, qs, qe);
      }
    }
  }

  lemma StoreStart(e: Entry, from: int, ts: seq<Point>, cutoff: int, x: int)
    requires e.timeStart <= x && e.data.Some?
    requires var d := e.data.value;
      from <= x || ts == [] || (d != [] && d[|d| - 1].t < ts[0].t)
    ensures Store(e, from, ts, cutoff).timeStart <= x
  {
  }

  lemma StartAfterHit(d: seq<Point>, start: int, store: seq<Point>, cutoff: int, qs: int, qe: int)
    requires Series(store) && Sound(Entry(start, Some(d)), store, cutoff) && start <= qs < qe
    requires Before(d, qs) < |d|
    ensures After(Entry(start, Some(d)), store, cutoff, qs, qe).timeStart <= qs
  {
    var e, i, j := Entry(start, Some(d)), Before(d, qs), UpTo(d, qe);
    var hit := Lookup(e, qs, qe);
    HitRange(d, start, store, qs, qe);
    var last := d[i..][|d| - i - 1];
    if hit.from < qe {
      var ts := Fetched(hit, store, qe);
      StoreStart(Entry(qs, Some(d[i..])), hit.from, ts, cutoff, qs);
    }
  }

  lemma HitRange(d: seq<Point>, start: int, store: seq<Point>, qs: int, qe: int)
    requires Series(store) && Series(d) && start <= qs < qe && Before(d, qs) < |d|
    requires forall p :: p in store && start <= p.t <= d[|d| - 1].t ==> p in d
    ensures var from := Lookup(Entry(start, Some(d)), qs, qe).from;
      var ts := Between(store, from, qe);
      from < qe ==> from <= qs || ts == [] || d[|d| - 1].t < ts[0].t
  {
    var i, j := Before(d, qs), UpTo(d, qe);
    BeforeIs(d, qs);
    BeforeIs(d, qe + 1);
    BeforeMonotone(d, qs, qe + 1);
    if i < j { FetchedAfterCached(d, start, store, j, qe); }
  }

  // ---- runs ------------------------------------------------------------------------------

  datatype System = System(store: seq<Point>, cutoff: int, entry: Entry)

  /** Either the datastore and the clock move on, or a client asks for [qs, qe]. */
  datatype Event = Evolve(store: seq<Point>, cutoff: int) | Ask(qs: int, qe: int)

  const Initial := System([], 0, EmptyEntry)

  /** Points older than the cutoff are final; a request has a non-empty range. */
  ghost predicate Allowed(s: System, ev: Event) {
    match ev
    case Evolve(store, cutoff) =>
      && Series(store)
      && s.cutoff <= cutoff
      && forall p: Point :: p.t < s.cutoff ==> (p in s.store <==> p in store)
    case Ask(qs, qe) => qs < qe
  }

  function Next(s: System, ev: Event): System {
    match ev
    case Evolve(store, cutoff) => System(store, cutoff, s.entry)
    case Ask(qs, qe) => if qs < qe then s.(entry := After(s.entry, s.store, s.cutoff, qs, qe)) else s
  }

  function Run(evs: seq<Event>): System {
    if evs == [] then Initial else Next(Run(evs[..|evs| - 1]), evs[|evs| - 1])
  }

  ghost predicate Legal(evs: seq<Event>) {
    evs != [] ==> Legal(evs[..|evs| - 1]) && Allowed(Run(evs[..|evs| - 1]), evs[|evs| - 1])
  }

  /** No request in the run was harmful when it was made. */
  ghost predicate Harmless(evs: seq<Event>) {
    evs != [] ==>
      var s, ev := Run(evs[..|evs| - 1]), evs[|evs| - 1];
      && Harmless(evs[..|evs| - 1])
      && (ev.Ask? ==> !Harmful(s.entry, s.store, s.cutoff, ev.qs, ev.qe))
  }

  /** Request starts never go back. */
  ghost predicate Monotone(evs: seq<Event>) {
    forall i, j :: 0 <= i < j < |evs| && evs[i].Ask? && evs[j].Ask? ==> evs[i].qs <= evs[j].qs
  }

  ghost predicate AllFrom(evs: seq<Event>, x: int) {
    forall i :: 0 <= i < |evs| && evs[i].Ask? ==> evs[i].qs <= x
  }

  lemma EvolveSound(s: System, ev: Event)
    requires ev.Evolve? && Allowed(s, ev) && Sound(s.entry, s.store, s.cutoff)
    ensures Sound(s.entry, ev.store, ev.cutoff)
  {
    if s.entry.data.Some? && s.entry.data.value != [] {
      var d := s.entry.data.value;
      assert d[|d| - 1] in d;
    }
  }

  /** In every run, however requests move, the entry is sound. */
  lemma {:induction false} RunSound(evs: seq<Event>)
    requires Legal(evs)
    ensures Series(Run(evs).store) && Sound(Run(evs).entry, Run(evs).store, Run(evs).cutoff)
  {
    if evs != [] {
      var s, ev := Run(evs[..|evs| - 1]), evs[|evs| - 1];
      RunSound(evs[..|evs| - 1]);
      if ev.Ask? {
        AfterSound(s.entry, s.store, s.cutoff, ev.qs, ev.qe);
      } else {
        EvolveSound(s, ev);
      }
    }
  }

  lemma {:induction false} RunContiguous(evs: seq<Event>)
    requires Legal(evs) && Harmless(evs)
    ensures Series(Run(evs).store) && Contiguous(Run(evs).entry, Run(evs).store, Run(evs).cutoff)
  {
    RunSound(evs);
    if evs != [] {
      var s, ev := Run(evs[..|evs| - 1]), evs[|evs| - 1];
      RunContiguous(evs[..|evs| - 1]);
      if ev.Ask? {
        ContiguousIff(s.entry, s.store, s.cutoff, ev.qs, ev.qe);
      }
    }
  }

  lemma {:induction false} RunStart(evs: seq<Event>, x: int)
    requires Legal(evs) && Monotone(evs) && AllFrom(evs, x)
    ensures Run(evs).entry.data.Some? ==> Run(evs).entry.timeStart <= x
  {
    if evs != [] {
      var before := evs[..|evs| - 1];
      var s, ev := Run(before), evs[|evs| - 1];
      RunSound(before);
      if ev.Ask? {
        assert AllFrom(before, ev.qs);
        RunStart(before, ev.qs);
        StartBound(s.entry, s.store, s.cutoff, ev.qs, ev.qe);
      } else {
        RunStart(before, x);
      }
    }
  }

  /** Requests whose starts never go back are never harmful. */
  lemma {:induction false} MonotoneHarmless(evs: seq<Event>)
    requires Legal(evs) && Monotone(evs)
    ensures Harmless(evs)
  {
    if evs != [] {
      var before, ev := evs[..|evs| - 1], evs[|evs| - 1];
      MonotoneHarmless(before);
      if ev.Ask? {
        assert AllFrom(before, ev.qs);
        RunStart(before, ev.qs);
      }
    }
  }

  /** After every run without a harmful request, the cached answer is the direct query: complete
      below qe, and at qe too unless the cached points end at qe - 1. */
  lemma RunAgrees(evs: seq<Event>, qs: int, qe: int)
    requires Legal(evs) && Harmless(evs) && qs < qe
    ensures var s := Run(evs);
      && Answer(s.entry, s.store, qs, qe) == Between(s.store, qs, Upper(s.entry, qs, qe))
      && Between(Answer(s.entry, s.store, qs, qe), 0, qe - 1) == Between(s.store, qs, qe - 1)
  {
    RunContiguous(evs);
    ContiguousAgrees(Run(evs).entry, Run(evs).store, Run(evs).cutoff, qs, qe);
  }

  /** In every run with monotone starts, so in the use the cache is written for. */
  lemma MonotoneRunAgrees(evs: seq<Event>, qs: int, qe: int)
    requires Legal(evs) && Monotone(evs) && qs < qe
    ensures var s := Run(evs);
      && Answer(s.entry, s.store, qs, qe) == Between(s.store, qs, Upper(s.entry, qs, qe))
      && Between(Answer(s.entry, s.store, qs, qe), 0, qe - 1) == Between(s.store, qs, qe - 1)
  {
    MonotoneHarmless(evs);
    RunAgrees(evs, qs, qe);
  }

  // ---- a run that loses the last point ---------------------------------------------------

  const P99 := Point(99, 1.0)
  const P100 := Point(100, 2.0)
  const Stored2 := [P99, P100]

  lemma TwoBetween(a: int, b: int)
    ensures Between(Stored2, a, b) == Pick(P99, a, b) + Pick(P100, a, b)
  {
    BetweenSnoc([], P99, a, b);
    BetweenSnoc([P99], P100, a, b);
    assert [] + [P99] == [P99] && [P99] + [P100] == Stored2;
  }

  /** The first of two equal requests caches the point at 99; the one at 100 is not final yet. */
  lemma CacheUpTo99()
    ensures After(EmptyEntry, Stored2, 100, 90, 100) == Entry(90, Some([P99]))
  {
    TwoBetween(90, 100);
    BeforeAt(Stored2, 100, 1);
    assert Fetched(Hit([], 90, EmptyEntry), Stored2, 100) == Stored2;
    assert [] + Stored2[..1] == [P99];
  }

  lemma SecondLosesLast()
    ensures Answer(Entry(90, Some([P99])), Stored2, 90, 100) == [P99]
  {
    var d := [P99];
    BeforeAt(d, 90, 0);
    BeforeAt(d, 101, 1);
    assert d[0..1] == d;
    assert Lookup(Entry(90, Some(d)), 90, 100).cached == d;
    assert Lookup(Entry(90, Some(d)), 90, 100).from == 100;
    assert d + [] == d;
  }

  lemma FirstHasLast()
    ensures Answer(EmptyEntry, Stored2, 90, 100) == Stored2 == Between(Stored2, 90, 100)
  {
    TwoBetween(90, 100);
    assert Lookup(EmptyEntry, 90, 100) == Hit([], 90, EmptyEntry);
    assert [] + Stored2 == Stored2;
  }

  lemma Filled() returns (evs: seq<Event>)
    ensures Legal(evs) && Run(evs) == System(Stored2, 100, EmptyEntry) && |evs| == 1 && evs[0].Evolve?
  {
    evs := [] + [Evolve(Stored2, 100)];
    RunSnoc([], Evolve(Stored2, 100));
  }

  lemma AskedTwice() returns (evs: seq<Event>, again: seq<Event>)
    ensures again == evs + [Ask(90, 100)] && Legal(again) && Legal(evs) && |evs| == 1 && evs[0].Evolve?
    ensures Run(evs) == System(Stored2, 100, EmptyEntry)
    ensures Run(again) == System(Stored2, 100, Entry(90, Some([P99])))
    ensures Monotone(again + [Ask(90, 100)])
  {
    evs := Filled();
    again := evs + [Ask(90, 100)];
    RunSnoc(evs, Ask(90, 100));
    CacheUpTo99();
    OneQueryMonotone(evs[0], Ask(90, 100));
    assert again + [Ask(90, 100)] == [evs[0], Ask(90, 100), Ask(90, 100)];
  }

  lemma OneQueryMonotone(first: Event, ask: Event)
    requires first.Evolve?
    ensures Monotone([first, ask, ask])
  {
  }

  /** Asking the same thing twice loses the point at the end: the store holds it and the first answer
      has it, the second has not. */
  lemma RepeatedRequestLosesLast() returns (evs: seq<Event>, again: seq<Event>)
    ensures again == evs + [Ask(90, 100)] && Legal(again) && Monotone(again + [Ask(90, 100)])
    ensures Run(evs).store == Run(again).store == Stored2 && Between(Stored2, 90, 100) == Stored2
    ensures Answer(Run(evs).entry, Stored2, 90, 100) == Stored2
    ensures Answer(Run(again).entry, Stored2, 90, 100) == [P99]
  {
    evs, again := AskedTwice();
    FirstHasLast();
    SecondLosesLast();
  }

  // ---- a run whose starts go back --------------------------------------------------------

  const P95 := Point(95, 1.0)
  const P97 := Point(97, 2.0)
  const P110 := Point(110, 3.0)
  const P150 := Point(150, 4.0)
  const Stored4 := [P95, P97, P110, P150]

  function Pick(p: Point, a: int, b: int): seq<Point> {
    if a <= p.t <= b then [p] else []
  }

  lemma BetweenSnoc(s: seq<Point>, p: Point, a: int, b: int)
    ensures Between(s + [p], a, b) == Between(s, a, b) + Pick(p, a, b)
  {
    assert (s + [p])[..|s|] == s;
  }

  lemma FourBetween(a: int, b: int)
    ensures Between(Stored4, a, b) == Pick(P95, a, b) + Pick(P97, a, b) + Pick(P110, a, b) + Pick(P150, a, b)
  {
    BetweenSnoc([], P95, a, b);
    BetweenSnoc([P95], P97, a, b);
    BetweenSnoc([P95, P97], P110, a, b);
    BetweenSnoc([P95, P97, P110], P150, a, b);
    assert [] + [P95] == [P95] && [P95] + [P97] == [P95, P97];
    assert [P95, P97] + [P110] == [P95, P97, P110] && [P95, P97, P110] + [P150] == Stored4;
  }

  /** Where a bisection ends up, from the points on either side of it. */
  lemma BeforeAt(s: seq<Point>, x: int, k: nat)
    requires Series(s) && k <= |s|
    requires (k > 0 ==> s[k - 1].t < x) && (k < |s| ==> x <= s[k].t)
    ensures Before(s, x) == k
  {
    BeforeIs(s, x);
  }

  lemma RunSnoc(evs: seq<Event>, ev: Event)
    ensures Run(evs + [ev]) == Next(Run(evs), ev)
    ensures Legal(evs + [ev]) <==> Legal(evs) && Allowed(Run(evs), ev)
    ensures Harmless(evs + [ev]) ==> Harmless(evs)
    ensures Harmless(evs + [ev]) && ev.Ask?
      ==> !Harmful(Run(evs).entry, Run(evs).store, Run(evs).cutoff, ev.qs, ev.qe)
  {
    assert (evs + [ev])[..|evs|] == evs;
  }

  /** The first request leaves an empty list under the start 100. */
  lemma FirstAsk()
    ensures After(EmptyEntry, Stored4, 105, 100, 120) == Entry(100, Some([]))
  {
    FourBetween(100, 120);
    BeforeAt([P110], 105, 0);
    assert Fetched(Hit([], 100, EmptyEntry), Stored4, 120) == [P110];
  }

  /** The second starts earlier, and what it fetches is cached under the later start. */
  lemma SecondAsk()
    ensures After(Entry(100, Some([])), Stored4, 105, 90, 96) == Entry(100, Some([P95]))
  {
    FourBetween(90, 96);
    BeforeAt([P95], 105, 1);
    assert Fetched(Hit([], 90, Entry(100, Some([]))), Stored4, 96) == [P95];
    assert [] + [P95][..1] == [P95];
  }

  /** The third appends over the gap. */
  lemma ThirdAsk()
    ensures After(Entry(100, Some([P95])), Stored4, 200, 99, 160) == Entry(100, Some([P95, P110, P150]))
  {
    FourBetween(99, 160);
    BeforeAt([P110, P150], 200, 2);
    assert Fetched(Hit([], 99, Entry(100, Some([P95]))), Stored4, 160) == [P110, P150];
    assert [P95] + [P110, P150][..2] == [P95, P110, P150];
  }

  lemma FourthAnswer()
    ensures Answer(Entry(100, Some([P95, P110, P150])), Stored4, 100, 105) == [P97]
  {
    var d := [P95, P110, P150];
    FourBetween(96, 105);
    BeforeAt(d, 100, 1);
    BeforeAt(d, 106, 1);
    assert Lookup(Entry(100, Some(d)), 100, 105).cached == [];
    assert Lookup(Entry(100, Some(d)), 100, 105).from == 96;
  }

  /** Starts that go back can make a later answer wrong: a point from before the request appears,
      although the store holds nothing in the range asked for. */
  lemma MovingBackIsWrong() returns (evs: seq<Event>)
    ensures Legal(evs) && !Harmless(evs)
    ensures Between(Run(evs).store, 100, 105) == []
    ensures Answer(Run(evs).entry, Run(evs).store, 100, 105) == [P97]
  {
    evs := ThreeAsks();
    FourBetween(100, 105);
    FourthAnswer();
  }

  lemma TwoAsks() returns (evs: seq<Event>)
    ensures Legal(evs) && !Harmless(evs)
    ensures Run(evs) == System(Stored4, 105, Entry(100, Some([P95])))
  {
    var e0, e1, e2 := Evolve(Stored4, 105), Ask(100, 120), Ask(90, 96);
    RunSnoc([], e0);
    RunSnoc([] + [e0], e1);
    RunSnoc([] + [e0] + [e1], e2);
    FirstAsk();
    SecondAsk();
    assert P95 in Stored4;
    evs := [] + [e0] + [e1] + [e2];
  }

  lemma ThreeAsks() returns (evs: seq<Event>)
    ensures Legal(evs) && !Harmless(evs)
    ensures Run(evs) == System(Stored4, 200, Entry(100, Some([P95, P110, P150])))
  {
    var two := TwoAsks();
    RunSnoc(two, Evolve(Stored4, 200));
    RunSnoc(two + [Evolve(Stored4, 200)], Ask(99, 160));
    ThirdAsk();
    evs := two + [Evolve(Stored4, 200)] + [Ask(99, 160)];
  }

  // ---- the client ------------------------------------------------------------------------

  /** The client keeps one entry per query key; a key never seen has the empty entry. */
  class MetricsClient {
    var cache: map<string, Entry>

    constructor ()
      ensures cache == map[]
    {
      cache := map[];
    }

    function EntryOf(key: string): Entry
      reads this
    {
      if key in cache then cache[key] else EmptyEntry
    }

    /** Only this key's entry may have changed. */
    twostate predicate OnlyAt(key: string)
      reads this
    {
      forall k :: k != key ==> EntryOf(k) == old(EntryOf(k))
    }

    method CacheLookup(key: string, timeStart: int, timeEnd: int) returns (r: Result<(seq<Point>, int)>)
      modifies this
      ensures OnlyAt(key)
      ensures timeStart >= timeEnd ==> r.Failure? && EntryOf(key) == old(EntryOf(key))
      ensures timeStart < timeEnd ==>
        var hit := Lookup(old(EntryOf(key)), timeStart, timeEnd);
        r == Success((hit.cached, hit.from)) && EntryOf(key) == hit.entry
    {
      var centry := EntryOf(key);
      cache := cache[key := centry];
      if timeStart >= timeEnd {
        return Failure("time_start must be earlier than time_end");
      }
      if centry.data.None? {
        return Success(([], timeStart));
      }
      if timeStart < centry.timeStart {
        return Success(([], timeStart));
      }
      var cached, next, kept := Bisected(centry, timeStart, timeEnd);
      cache := cache[key := Entry(timeStart, if kept == [] then None else Some(kept))];
      return Success((cached, next));
    }

    /** The bisections of the cached list, and its pruning. */
    static method Bisected(centry: Entry, timeStart: int, timeEnd: int)
      returns (cached: seq<Point>, next: int, kept: seq<Point>)
      requires centry.data.Some? && centry.timeStart <= timeStart < timeEnd
      ensures Lookup(centry, timeStart, timeEnd) ==
              Hit(cached, next, Entry(timeStart, if kept == [] then None else Some(kept)))
    {
      var ts := centry.data.value;
      var cacheStart, cacheEnd := Before(ts, timeStart), UpTo(ts, timeEnd);
      BeforeMonotone(ts, timeStart, timeEnd + 1);
      cached, next := [], timeStart;
      if |ts| > 0 && cacheStart < |ts| {
        cached := ts[cacheStart..cacheEnd];
        var lastIndex := if cacheEnd > 0 then cacheEnd - 1 else |ts| - 1;
        next := ts[lastIndex].t + 1;
      }
      kept := ts[cacheStart..];
    }

    method CacheStore(key: string, timeStart: int, ts: seq<Point>, cutoff: int)
      modifies this
      ensures OnlyAt(key)
      ensures EntryOf(key) == Store(old(EntryOf(key)), timeStart, ts, cutoff)
    {
      var centry := EntryOf(key);
      if centry.data.None? {
        centry := Entry(timeStart, None);
      }
      var stored := ts[..Before(ts, cutoff)];
      if ts != [] {
        var data := if centry.data.Some? then centry.data.value else [];
        if |data| > 0 && ts[0].t <= data[|data| - 1].t {
          centry := Entry(timeStart, Some(stored));
        } else {
          centry := centry.(data := Some(data + stored));
        }
      }
      cache := cache[key := centry];
    }

    /** One query against the datastore's current points for the key. */
    method GetMetricValues(key: string, timeStart: int, timeEnd: int, store: seq<Point>, cutoff: int)
      returns (r: Result<seq<Point>>)
      modifies this
      ensures OnlyAt(key)
      ensures timeStart >= timeEnd ==> r.Failure? && EntryOf(key) == old(EntryOf(key))
      ensures timeStart < timeEnd ==>
        && r == Success(Answer(old(EntryOf(key)), store, timeStart, timeEnd))
        && EntryOf(key) == After(old(EntryOf(key)), store, cutoff, timeStart, timeEnd)
    {
      var found := CacheLookup(key, timeStart, timeEnd);
      if found.Failure? {
        return Failure(found.error);
      }
      var cached, next := found.value.0, found.value.1;
      var fetched := [];
      if next < timeEnd {
        fetched := Between(store, next, timeEnd);
        CacheStore(key, next, fetched, cutoff);
      }
      return Success(cached + fetched);
    }
  }
}
