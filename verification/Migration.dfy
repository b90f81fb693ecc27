/** The chunked node migration (clusterman/migration/worker.py) and the portions it is configured with
    (clusterman/migration/settings.py). */
module Migration {

  import opened Arithmetic
  import opened Sorting
  import opened Wrappers

  // ---- pool portions ---------------------------------------------------------------------

  /** A configured portion: the number in front of a percent sign, or a plain integer. */
  datatype Setting = PercentText(percent: real) | Number(count: int)

  datatype PoolPortion = OfPercent(value: real, minPortion: nat) | OfAbsolute(count: int) {

    /** Python's round(): to the nearest integer, ties to the even one. */
    static function Round(x: real): int {
      var f := x.Floor;
      var rest := x - f as real;
      if rest < 0.5 || (rest == 0.5 && f % 2 == 0) then f else f + 1
    }

    function Of(poolSize: nat): int {
      match this
      case OfPercent(value, minPortion) =>
        var share := Round(value * poolSize as real);
        if share < minPortion then minPortion else share
      case OfAbsolute(count) => count
    }

    /** The truth value of a portion. */
    predicate Positive() {
      match this
      case OfPercent(value, _) => value > 0.0
      case OfAbsolute(count) => count > 0
    }
  }

  function MakePortion(setting: Setting): Result<PoolPortion> {
    match setting
    case PercentText(percent) =>
      var value := percent / 100.0;
      if value < 0.0 then Failure("negative")
      else Success(OfPercent(value, if value != 0.0 then 1 else 0))
    case Number(count) =>
      if count < 0 then Failure("negative") else Success(OfAbsolute(count))
  }

  /** The check on the rate when a worker is set up. */
  function RateFromConfig(setting: Setting): Result<PoolPortion> {
    var made := MakePortion(setting);
    if made.Failure? then made
    else if !made.value.Positive() then Failure("rate must be greater than 0")
    else made
  }

  lemma RoundIsNearest(x: real)
    ensures var r := PoolPortion.Round(x);
      -0.5 <= r as real - x <= 0.5 && (r as real - x == 0.5 || r as real - x == -0.5 ==> r % 2 == 0)
  {
  }

  lemma RoundMonotone(x: real, n: int)
    ensures x <= n as real ==> PoolPortion.Round(x) <= n
    ensures n as real <= x ==> n <= PoolPortion.Round(x)
  {
  }

  lemma ProductBetween(v: real, n: real, u: real)
    requires 0.0 <= v && 0.0 <= n && u == v * n
    ensures 0.0 <= u
    ensures v <= 1.0 ==> u <= n
  {
  }

  /** A chunk has at least one node whatever the size of the pool exactly when the rate is accepted. */
  lemma RateAcceptedIff(setting: Setting)
    ensures RateFromConfig(setting).Success?
       <==> MakePortion(setting).Success? && forall poolSize: nat :: MakePortion(setting).value.Of(poolSize) >= 1
  {
    var made := MakePortion(setting);
    if made.Success? && !made.value.Positive() {
      assert made.value.Of(0) == 0;
    }
  }

  /** A negative setting is refused; an absolute one asks for that many nodes and 0% for none. */
  lemma PortionOf(setting: Setting, poolSize: nat)
    ensures MakePortion(setting).Success? <==> if setting.Number? then setting.count >= 0 else setting.percent >= 0.0
    ensures setting.Number? && setting.count >= 0 ==> MakePortion(setting).value.Of(poolSize) == setting.count
    ensures setting == PercentText(0.0) ==> MakePortion(setting).value.Of(poolSize) == 0
  {
    if setting == PercentText(0.0) {
      assert MakePortion(setting).value == OfPercent(0.0, 0);
      assert 0.0 * poolSize as real == 0.0;
    }
  }

  /** A percentage of at most a hundred never asks for more than the pool, and is the nearest whole
      number of nodes unless that is none. */
  lemma PercentShare(percent: real, poolSize: nat)
    requires 0.0 < percent <= 100.0 && poolSize > 0
    ensures var made := MakePortion(PercentText(percent));
      && made.Success?
      && 1 <= made.value.Of(poolSize) <= poolSize
      && (made.value.Of(poolSize) > 1
          ==> -0.5 <= made.value.Of(poolSize) as real - percent / 100.0 * poolSize as real <= 0.5)
      && (made.value.Of(poolSize) == 1 ==> percent / 100.0 * poolSize as real <= 1.5)
  {
    var v := percent / 100.0;
    var u := v * poolSize as real;
    ProductBetween(v, poolSize as real, u);
    ShareBetween(OfPercent(v, 1), poolSize, u);
  }

  lemma ShareBetween(portion: PoolPortion, poolSize: nat, u: real)
    requires portion.OfPercent? && portion.minPortion == 1 && u == portion.value * poolSize as real
    requires 0.0 <= u <= poolSize as real && poolSize > 0
    ensures 1 <= portion.Of(poolSize) <= poolSize
    ensures portion.Of(poolSize) > 1 ==> -0.5 <= portion.Of(poolSize) as real - u <= 0.5
    ensures portion.Of(poolSize) == 1 ==> u <= 1.5
  {
    RoundMonotone(u, poolSize);
    RoundIsNearest(u);
    assert portion.Of(poolSize) == if PoolPortion.Round(u) < 1 then 1 else PoolPortion.Round(u);
  }

  // ---- health ----------------------------------------------------------------------------

  /** What one pass of the health loop observes. */
  datatype Poll = Poll(drained: bool, capacity: bool, pods: bool)

  ghost predicate CapacityFrom(polls: seq<Poll>, d: nat) {
    exists i :: d <= i < |polls| && polls[i].capacity
  }

  ghost predicate PodsFrom(polls: seq<Poll>, d: nat, ignorePods: bool) {
    exists i :: d <= i < |polls| && (ignorePods || polls[i].pods)
  }

  /** At some poll the drained nodes were gone, and capacity and pods were fine then or later. */
  ghost predicate Recovered(polls: seq<Poll>, ignorePods: bool) {
    exists d: nat :: d < |polls| && polls[d].drained && CapacityFrom(polls, d) && PodsFrom(polls, d, ignorePods)
  }

  ghost predicate SeenGone(polls: seq<Poll>) {
    exists d: nat :: d < |polls| && polls[d].drained
  }

  ghost predicate CapacitySeen(polls: seq<Poll>) {
    exists d: nat :: d < |polls| && polls[d].drained && CapacityFrom(polls, d)
  }

  ghost predicate PodsSeen(polls: seq<Poll>, ignorePods: bool) {
    exists d: nat :: d < |polls| && polls[d].drained && PodsFrom(polls, d, ignorePods)
  }

  lemma RecoveredIff(polls: seq<Poll>, ignorePods: bool)
    ensures Recovered(polls, ignorePods) <==> CapacitySeen(polls) && PodsSeen(polls, ignorePods)
  {
    if CapacitySeen(polls) && PodsSeen(polls, ignorePods) {
      var c: nat :| c < |polls| && polls[c].drained && CapacityFrom(polls, c);
      var p: nat :| p < |polls| && polls[p].drained && PodsFrom(polls, p, ignorePods);
      var first := if c <= p then c else p;
      assert polls[first].drained && CapacityFrom(polls, first) && PodsFrom(polls, first, ignorePods);
    }
  }

  /** The polls are those that start before the timeout. */
  method MonitorPoolHealth(polls: seq<Poll>, ignorePods: bool) returns (healthy: bool)
    ensures healthy <==> Recovered(polls, ignorePods)
  {
    var drainingHappened, capacitySatisfied, podsHealthy := false, false, false;
    var i := 0;
    while i < |polls|
      invariant i <= |polls|
      invariant drainingHappened <==> SeenGone(polls[..i])
      invariant capacitySatisfied <==> CapacitySeen(polls[..i])
      invariant podsHealthy <==> PodsSeen(polls[..i], ignorePods)
      invariant !(capacitySatisfied && podsHealthy)
    {
      SeenSnoc(polls[..i], polls[i], ignorePods);
      assert polls[..i] + [polls[i]] == polls[..i + 1];
      drainingHappened := drainingHappened || polls[i].drained;
      capacitySatisfied := capacitySatisfied || (drainingHappened && polls[i].capacity);
      podsHealthy := podsHealthy || (drainingHappened && (ignorePods || polls[i].pods));
      i := i + 1;
      if drainingHappened && capacitySatisfied && podsHealthy {
        RecoveredIff(polls[..i], ignorePods);
        RecoveredLater(polls[..i], polls, ignorePods);
        return true;
      }
    }
    assert polls[..i] == polls;
    RecoveredIff(polls, ignorePods);
    return false;
  }

  lemma SeenSnoc(before: seq<Poll>, last: Poll, ignorePods: bool)
    ensures var polls := before + [last];
      && (SeenGone(polls) <==> SeenGone(before) || last.drained)
      && (CapacitySeen(polls) <==> CapacitySeen(before) || (SeenGone(polls) && last.capacity))
      && (PodsSeen(polls, ignorePods)
          <==> PodsSeen(before, ignorePods) || (SeenGone(polls) && (ignorePods || last.pods)))
  {
    var polls := before + [last];
    assert polls[|before|] == last;
    FromSnoc(before, last, ignorePods);
    if SeenGone(before) {
      var d: nat :| d < |before| && before[d].drained;
      assert polls[d].drained;
    }
  }

  lemma FromSnoc(before: seq<Poll>, last: Poll, ignorePods: bool)
    ensures forall d: nat | d <= |before| ::
      CapacityFrom(before + [last], d) <==> CapacityFrom(before, d) || last.capacity
    ensures forall d: nat | d <= |before| ::
      PodsFrom(before + [last], d, ignorePods) <==> PodsFrom(before, d, ignorePods) || ignorePods || last.pods
  {
    var polls := before + [last];
    assert polls[|before|] == last;
    forall d: nat | d <= |before|
      ensures CapacityFrom(polls, d) <==> CapacityFrom(before, d) || last.capacity
      ensures PodsFrom(polls, d, ignorePods) <==> PodsFrom(before, d, ignorePods) || ignorePods || last.pods
    {
      if CapacityFrom(before, d) {
        var i :| d <= i < |before| && before[i].capacity;
        assert polls[i].capacity;
      }
      if PodsFrom(before, d, ignorePods) {
        var i :| d <= i < |before| && (ignorePods || before[i].pods);
        assert polls[i] == before[i];
      }
    }
  }

  lemma RecoveredLater(before: seq<Poll>, polls: seq<Poll>, ignorePods: bool)
    requires before <= polls && Recovered(before, ignorePods)
    ensures Recovered(polls, ignorePods)
  {
    var d: nat :| d < |before| && before[d].drained && CapacityFrom(before, d) && PodsFrom(before, d, ignorePods);
    var c :| d <= c < |before| && before[c].capacity;
    var p :| d <= p < |before| && (ignorePods || before[p].pods);
    assert polls[d] == before[d] && polls[c] == before[c] && polls[p] == before[p];
  }

  // ---- selection -------------------------------------------------------------------------

  datatype Node = Node(id: string, uptime: real, taskCount: int)

  datatype Precedence = Uptime | TaskCount {

    function SortKey(node: Node): real {
      match this
      case Uptime => -node.uptime
      case TaskCount => node.taskCount as real
    }
  }

  function Order(precedence: Precedence): (Node, Node) -> bool {
    (a: Node, b: Node) => precedence.SortKey(a) <= precedence.SortKey(b)
  }

  function Filter(nodes: seq<Node>, selector: Node -> bool): seq<Node> {
    if nodes == [] then []
    else
      var rest, last := Filter(nodes[..|nodes| - 1], selector), nodes[|nodes| - 1];
      if selector(last) then rest + [last] else rest
  }

  function Selection(nodes: seq<Node>, selector: Node -> bool, precedence: Precedence): seq<Node> {
    SortBy(Filter(nodes, selector), Order(precedence))
  }

  lemma {:induction false} FilterMultiplicity(nodes: seq<Node>, selector: Node -> bool, n: Node)
    ensures multiset(Filter(nodes, selector))[n] == if selector(n) then multiset(nodes)[n] else 0
  {
    if nodes != [] {
      FilterMultiplicity(nodes[..|nodes| - 1], selector, n);
      assert nodes == nodes[..|nodes| - 1] + [nodes[|nodes| - 1]];
    }
  }

  /** a is to be migrated no later than b: oldest first, or fewest tasks first. */
  ghost predicate Precedes(precedence: Precedence, a: Node, b: Node) {
    if precedence == Uptime then a.uptime >= b.uptime else a.taskCount <= b.taskCount
  }

  /** The selection holds every selected node as often as the pool does, in order of precedence. */
  lemma SelectionIs(nodes: seq<Node>, selector: Node -> bool, precedence: Precedence, n: Node)
    ensures var s := Selection(nodes, selector, precedence);
      && (forall i, j :: 0 <= i < j < |s| ==> Precedes(precedence, s[i], s[j]))
      && multiset(s)[n] == if selector(n) then multiset(nodes)[n] else 0
  {
    var le := Order(precedence);
    assert forall a, b :: le(a, b) <==> precedence.SortKey(a) <= precedence.SortKey(b);
    SortByCorrect(Filter(nodes, selector), le);
    FilterMultiplicity(nodes, selector, n);
    var s := Selection(nodes, selector, precedence);
    forall i, j | 0 <= i < j < |s| ensures Precedes(precedence, s[i], s[j]) {
      assert le(s[i], s[j]);
    }
  }

  // ---- draining in chunks ----------------------------------------------------------------

  /** What a worker does to the pool, in order. */
  datatype Effect = Submit(node: Node) | Check(passed: bool)

  function Submitted(trace: seq<Effect>): seq<Node> {
    if trace == [] then []
    else
      var rest, last := Submitted(trace[..|trace| - 1]), trace[|trace| - 1];
      if last.Submit? then rest + [last.node] else rest
  }

  /** Nodes submitted since the last health check that passed. */
  function Outstanding(trace: seq<Effect>): nat {
    if trace == [] then 0
    else
      match trace[|trace| - 1]
      case Submit(_) => Outstanding(trace[..|trace| - 1]) + 1
      case Check(passed) => if passed then 0 else Outstanding(trace[..|trace| - 1])
  }

  /** At no point of the trace are more than n nodes outstanding. */
  ghost predicate Bounded(trace: seq<Effect>, n: int) {
    forall i :: 0 <= i <= |trace| ==> Outstanding(trace[..i]) <= n
  }

  ghost predicate AllPassed(trace: seq<Effect>) {
    forall i :: 0 <= i < |trace| && trace[i].Check? ==> trace[i].passed
  }

  function ChecksIn(trace: seq<Effect>): nat {
    if trace == [] then 0
    else ChecksIn(trace[..|trace| - 1]) + if trace[|trace| - 1].Check? then 1 else 0
  }

  lemma TraceSnoc(trace: seq<Effect>, e: Effect, n: int)
    ensures Submitted(trace + [e]) == Submitted(trace) + if e.Submit? then [e.node] else []
    ensures Outstanding(trace + [e])
         == if e.Submit? then Outstanding(trace) + 1 else if e.passed then 0 else Outstanding(trace)
    ensures ChecksIn(trace + [e]) == ChecksIn(trace) + if e.Check? then 1 else 0
    ensures AllPassed(trace + [e]) <==> AllPassed(trace) && (e.Check? ==> e.passed)
    ensures Bounded(trace + [e], n) <==> Bounded(trace, n) && Outstanding(trace + [e]) <= n
  {
    var t := trace + [e];
    assert t[..|trace|] == trace && t[..|t|] == t;
    assert t[|trace|] == e;
    assert forall i :: 0 <= i < |trace| ==> t[i] == trace[i];
    assert forall i :: 0 <= i <= |trace| ==> t[..i] == trace[..i];
  }

  /** Submits one chunk, node by node. */
  method SubmitChunk(trace: seq<Effect>, chunk: seq<Node>, n: int) returns (after: seq<Effect>)
    requires Bounded(trace, n) && AllPassed(trace) && Outstanding(trace) == 0 && |chunk| <= n
    ensures Submitted(after) == Submitted(trace) + chunk
    ensures Outstanding(after) == |chunk| && ChecksIn(after) == ChecksIn(trace)
    ensures Bounded(after, n) && AllPassed(after)
  {
    after := trace;
    var i := 0;
    while i < |chunk|
      invariant i <= |chunk|
      invariant Submitted(after) == Submitted(trace) + chunk[..i]
      invariant Outstanding(after) == i && ChecksIn(after) == ChecksIn(trace)
      invariant Bounded(after, n) && AllPassed(after)
    {
      TraceSnoc(after, Submit(chunk[i]), n);
      after := after + [Submit(chunk[i])];
      assert chunk[..i + 1] == chunk[..i] + [chunk[i]];
      i := i + 1;
    }
    assert chunk[..i] == chunk;
  }

  lemma ChunkPositive(rate: PoolPortion, poolSize: nat)
    requires exists setting :: RateFromConfig(setting) == Success(rate)
    ensures rate.Of(poolSize) >= 1
  {
    var setting :| RateFromConfig(setting) == Success(rate);
    RateAcceptedIff(setting);
  }

  /** Submits one chunk and waits for the pool to recover. */
  method DrainChunk(trace: seq<Effect>, chunk: seq<Node>, n: int, polls: seq<Poll>, ignorePods: bool)
    returns (healthy: bool, after: seq<Effect>)
    requires Bounded(trace, n) && AllPassed(trace) && Outstanding(trace) == 0 && |chunk| <= n
    ensures healthy <==> Recovered(polls, ignorePods)
    ensures Submitted(after) == Submitted(trace) + chunk && ChecksIn(after) == ChecksIn(trace) + 1
    ensures Bounded(after, n) && (healthy ==> AllPassed(after) && Outstanding(after) == 0)
    ensures |after| > 0 && (!healthy ==> after[|after| - 1] == Check(false) && AllPassed(after[..|after| - 1]))
  {
    var submitted := SubmitChunk(trace, chunk, n);
    healthy := MonitorPoolHealth(polls, ignorePods);
    TraceSnoc(submitted, Check(healthy), n);
    after := submitted + [Check(healthy)];
    assert after[..|submitted|] == submitted;
  }

  /** After so many health checks, chunk nodes were submitted before each, or fewer before the last one. */
  ghost predicate InChunks(submitted: nat, checks: nat, chunk: int, selected: nat) {
    && submitted == (if Multiple(chunk, checks) < selected then Multiple(chunk, checks) else selected)
    && (checks > 0 ==> Multiple(chunk, checks - 1) < selected)
  }

  /** The trace of draining the selected nodes in chunks, polls(k) being the polls made after the k-th
      chunk: a prefix of the selection is submitted, in whole chunks with a health check after each; the
      pool recovers after every chunk but the last one of a run that is not completed. */
  ghost predicate DrainedInChunks(selected: seq<Node>, chunk: int, ignorePods: bool, polls: nat -> seq<Poll>,
                                  completed: bool, trace: seq<Effect>)
  {
    && Submitted(trace) <= selected
    && Bounded(trace, chunk)
    && InChunks(|Submitted(trace)|, ChecksIn(trace), chunk, |selected|)
    && (forall k: nat :: k + 1 < ChecksIn(trace) ==> Recovered(polls(k), ignorePods))
    && (completed ==> Submitted(trace) == selected && AllPassed(trace) && Outstanding(trace) == 0)
    && (completed ==> forall k: nat :: k < ChecksIn(trace) ==> Recovered(polls(k), ignorePods))
    && (!completed ==> ChecksIn(trace) > 0 && !Recovered(polls(ChecksIn(trace) - 1), ignorePods))
    && (!completed ==> |trace| > 0 && trace[|trace| - 1] == Check(false) && AllPassed(trace[..|trace| - 1]))
  }

  /** The loop over the chunks. */
  method DrainChunks(selected: seq<Node>, chunk: int, ignorePods: bool, polls: nat -> seq<Poll>)
    returns (completed: bool, trace: seq<Effect>)
    requires chunk >= 1
    ensures DrainedInChunks(selected, chunk, ignorePods, polls, completed, trace)
  {
    trace := [];
    var i, round := 0, 0;
    while i < |selected|
      invariant 0 <= i == Multiple(chunk, round) && round == ChecksIn(trace)
      invariant InChunks(|Submitted(trace)|, round, chunk, |selected|)
      invariant Submitted(trace) == selected[..if i < |selected| then i else |selected|]
      invariant Outstanding(trace) == 0 && Bounded(trace, chunk) && AllPassed(trace)
      invariant forall k: nat :: k < round ==> Recovered(polls(k), ignorePods)
    {
      var end := if i + chunk < |selected| then i + chunk else |selected|;
      var healthy;
      healthy, trace := DrainChunk(trace, selected[i..end], chunk, polls(round), ignorePods);
      assert selected[..i] + selected[i..end] == selected[..end];
      i, round := i + chunk, round + 1;
      if !healthy {
        return false, trace;
      }
    }
    return true, trace;
  }

  /** Drains the selected nodes of a pool, as many at a time as the rate says. */
  method DrainNodeSelection(nodes: seq<Node>, selector: Node -> bool, precedence: Precedence, rate: PoolPortion,
                            ignorePods: bool, polls: nat -> seq<Poll>)
    returns (completed: bool, trace: seq<Effect>)
    requires exists setting :: RateFromConfig(setting) == Success(rate)
    ensures DrainedInChunks(Selection(nodes, selector, precedence), rate.Of(|nodes|), ignorePods, polls, completed,
                            trace)
  {
    ChunkPositive(rate, |nodes|);
    completed, trace := DrainChunks(Selection(nodes, selector, precedence), rate.Of(|nodes|), ignorePods, polls);
  }
}
