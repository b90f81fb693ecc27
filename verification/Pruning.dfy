/** Choosing the nodes to kill when the pool holds more capacity than its target
    (clusterman/autoscaler/pool_manager.py). */
module Pruning {
  import opened Sorting

  datatype AgentState = Unknown | Orphaned | Idle | Running

  datatype Node = Node(id: int, group: int, weight: real, tasks: int, batchTasks: int, state: AgentState,
                       safeToKill: bool, cordoned: bool, draining: bool, staleInstance: bool, longUp: bool)

  datatype GroupState = GroupState(target: real, fulfilled: real)

  /** A limit that may be infinite. */
  datatype Bound = Finite(value: int) | Infinite

  predicate Over(b: Bound, x: int) {
    b.Finite? && x > b.value
  }

  datatype PruneLimits = PruneLimits(maxTasksToKill: Bound, maxWeightToRemove: int)

  predicate Killable(l: PruneLimits, n: Node) {
    if n.state == Unknown then false
    else if !n.safeToKill then false
    else if n.cordoned then false
    else if l.maxTasksToKill.Infinite? || l.maxTasksToKill.value > n.tasks then true
    else n.tasks == 0
  }

  function KillableNodes(l: PruneLimits, nodes: seq<Node>): seq<Node> {
    if nodes == [] then []
    else KillableNodes(l, nodes[..|nodes| - 1]) +
         (if Killable(l, nodes[|nodes| - 1]) then [nodes[|nodes| - 1]] else [])
  }

  /** A known, safe and uncordoned node whose tasks may be killed, or that has none. */
  ghost predicate Eligible(l: PruneLimits, n: Node) {
    && n.state != Unknown && n.safeToKill && !n.cordoned
    && (n.tasks == 0 || l.maxTasksToKill.Infinite? || n.tasks < l.maxTasksToKill.value)
  }

  /** The eligible nodes are killable, each as often as the pool has it. */
  lemma {:induction false} KillableMember(l: PruneLimits, nodes: seq<Node>, n: Node)
    ensures multiset(KillableNodes(l, nodes))[n] == if Eligible(l, n) then multiset(nodes)[n] else 0
  {
    if nodes != [] {
      KillableMember(l, nodes[..|nodes| - 1], n);
      assert nodes == nodes[..|nodes| - 1] + [nodes[|nodes| - 1]];
    }
  }

  function Bit(b: bool): int { if b then 0 else 1 }

  /** The kill priority, most killable first. */
  function SortKey(n: Node): seq<int> {
    [Bit(n.draining), Bit(n.state == Orphaned), Bit(n.staleInstance), Bit(n.longUp), Bit(n.state == Idle),
     n.batchTasks, n.tasks]
  }

  predicate LexLe(a: seq<int>, b: seq<int>)
    requires |a| == |b|
  {
    a == [] || a[0] < b[0] || (a[0] == b[0] && LexLe(a[1..], b[1..]))
  }

  predicate KillFirst(a: Node, b: Node) {
    LexLe(SortKey(a), SortKey(b))
  }

  lemma {:induction false} LexTotal(a: seq<int>, b: seq<int>)
    requires |a| == |b|
    ensures LexLe(a, b) || LexLe(b, a)
  {
    if a != [] { LexTotal(a[1..], b[1..]); }
  }

  lemma {:induction false} LexTransitive(a: seq<int>, b: seq<int>, c: seq<int>)
    requires |a| == |b| == |c| && LexLe(a, b) && LexLe(b, c)
    ensures LexLe(a, c)
  {
    if a != [] && a[0] == b[0] == c[0] { LexTransitive(a[1..], b[1..], c[1..]); }
  }

  /** Draining nodes come first, then orphaned, stale, long-running and idle ones, then those with the
      fewest batch tasks, then those with the fewest tasks. */
  ghost predicate KillBefore(a: Node, b: Node) {
    if a.draining != b.draining then a.draining
    else if (a.state == Orphaned) != (b.state == Orphaned) then a.state == Orphaned
    else if a.staleInstance != b.staleInstance then a.staleInstance
    else if a.longUp != b.longUp then a.longUp
    else if (a.state == Idle) != (b.state == Idle) then a.state == Idle
    else if a.batchTasks != b.batchTasks then a.batchTasks < b.batchTasks
    else a.tasks <= b.tasks
  }

  lemma {:induction false} LexFirstDifference(a: seq<int>, b: seq<int>, k: nat)
    requires |a| == |b| && k < |a| && a[..k] == b[..k] && a[k] != b[k]
    ensures LexLe(a, b) <==> a[k] < b[k]
  {
    if k > 0 {
      assert a[0] == a[..k][0] == b[..k][0] == b[0];
      assert a[1..][..k - 1] == a[..k][1..] && b[1..][..k - 1] == b[..k][1..];
      LexFirstDifference(a[1..], b[1..], k - 1);
    }
  }

  lemma {:induction false} LexReflexive(a: seq<int>)
    ensures LexLe(a, a)
  {
    if a != [] { LexReflexive(a[1..]); }
  }

  lemma KillFirstIff(a: Node, b: Node)
    ensures KillFirst(a, b) <==> KillBefore(a, b)
  {
    var s, t := SortKey(a), SortKey(b);
    if s[0] != t[0] {
      LexFirstDifference(s, t, 0);
    } else if s[1] != t[1] {
      LexFirstDifference(s, t, 1);
    } else if s[2] != t[2] {
      LexFirstDifference(s, t, 2);
    } else if s[3] != t[3] {
      LexFirstDifference(s, t, 3);
    } else if s[4] != t[4] {
      LexFirstDifference(s, t, 4);
    } else if s[5] != t[5] {
      LexFirstDifference(s, t, 5);
    } else if s[6] != t[6] {
      LexFirstDifference(s, t, 6);
    } else {
      assert s == t;
      LexReflexive(s);
    }
  }

  lemma KillFirstTotal()
    ensures TotalPreorder(KillFirst)
  {
    forall a, b ensures KillFirst(a, b) || KillFirst(b, a) {
      LexTotal(SortKey(a), SortKey(b));
    }
    forall a, b, c | KillFirst(a, b) && KillFirst(b, c) ensures KillFirst(a, c) {
      LexTransitive(SortKey(a), SortKey(b), SortKey(c));
    }
  }

  // ---- what a set of marked nodes costs --------------------------------------------------

  function Weight(marked: seq<Node>): real {
    if marked == [] then 0.0 else Weight(marked[..|marked| - 1]) + marked[|marked| - 1].weight
  }

  function Tasks(marked: seq<Node>): int {
    if marked == [] then 0 else Tasks(marked[..|marked| - 1]) + marked[|marked| - 1].tasks
  }

  function GroupWeight(marked: seq<Node>, g: int): real {
    if marked == [] then 0.0
    else GroupWeight(marked[..|marked| - 1], g) +
         (if marked[|marked| - 1].group == g then marked[|marked| - 1].weight else 0.0)
  }

  function NonOrphanWeight(marked: seq<Node>): real {
    if marked == [] then 0.0
    else NonOrphanWeight(marked[..|marked| - 1]) +
         (if marked[|marked| - 1].state != Orphaned then marked[|marked| - 1].weight else 0.0)
  }

  function OfGroup(marked: seq<Node>, g: int): seq<Node> {
    if marked == [] then []
    else OfGroup(marked[..|marked| - 1], g) +
         (if marked[|marked| - 1].group == g then [marked[|marked| - 1]] else [])
  }

  /** The situation the nodes are chosen in. */
  datatype Pool = Pool(limits: PruneLimits, groups: map<int, GroupState>, nonOrphan: real, target: real)

  /** Marking n on top of the marked nodes would break one of the four limits. */
  predicate Blocked(p: Pool, marked: seq<Node>, n: Node)
    requires n.group in p.groups
  {
    || n.weight + Weight(marked) > p.limits.maxWeightToRemove as real
    || p.groups[n.group].fulfilled - GroupWeight(marked, n.group) - n.weight < p.groups[n.group].target
    || Over(p.limits.maxTasksToKill, Tasks(marked) + n.tasks)
    || (n.state != Orphaned && p.nonOrphan - NonOrphanWeight(marked) - n.weight < p.target)
  }

  /** All four limits hold for the marked nodes. */
  ghost predicate Safe(p: Pool, marked: seq<Node>) {
    && (marked != [] ==> Weight(marked) <= p.limits.maxWeightToRemove as real)
    && (marked != [] && p.limits.maxTasksToKill.Finite? ==> Tasks(marked) <= p.limits.maxTasksToKill.value)
    && (forall n :: n in marked ==>
          n.group in p.groups &&
          p.groups[n.group].fulfilled - GroupWeight(marked, n.group) >= p.groups[n.group].target)
    && ((exists n :: n in marked && n.state != Orphaned) ==> p.nonOrphan - NonOrphanWeight(marked) >= p.target)
  }

  ghost predicate NonNegative(nodes: seq<Node>) {
    forall i :: 0 <= i < |nodes| ==> nodes[i].weight >= 0.0 && nodes[i].tasks >= 0
  }

  /** The sums over the marked nodes grow by what the next one adds. */
  lemma AppendSums(marked: seq<Node>, n: Node, g: int)
    ensures Weight([]) == NonOrphanWeight([]) == GroupWeight([], g) == 0.0 && Tasks([]) == 0 && OfGroup([], g) == []
    ensures Weight(marked + [n]) == Weight(marked) + n.weight
    ensures Tasks(marked + [n]) == Tasks(marked) + n.tasks
    ensures GroupWeight(marked + [n], g) == GroupWeight(marked, g) + (if n.group == g then n.weight else 0.0)
    ensures NonOrphanWeight(marked + [n]) == NonOrphanWeight(marked) + (if n.state != Orphaned then n.weight else 0.0)
    ensures OfGroup(marked + [n], g) == OfGroup(marked, g) + (if n.group == g then [n] else [])
  {
    assert (marked + [n])[..|marked|] == marked;
  }

  /** Marking more nodes never unblocks a node. */
  lemma StillBlocked(p: Pool, marked: seq<Node>, m: Node, n: Node)
    requires n.group in p.groups && m.weight >= 0.0 && m.tasks >= 0
    requires Blocked(p, marked, n)
    ensures Blocked(p, marked + [m], n)
  {
    AppendSums(marked, m, n.group);
  }

  /** Marking a node that is not blocked keeps every limit. */
  lemma MarkSafe(p: Pool, marked: seq<Node>, n: Node)
    requires Safe(p, marked) && n.group in p.groups && !Blocked(p, marked, n)
    ensures Safe(p, marked + [n])
  {
    AppendSums(marked, n, n.group);
    forall m | m in marked + [n]
      ensures m.group in p.groups
      ensures p.groups[m.group].fulfilled - GroupWeight(marked + [n], m.group) >= p.groups[m.group].target
    {
      AppendSums(marked, n, m.group);
      assert m == n || m in marked;
    }
    if k :| k in marked + [n] && k.state != Orphaned {
      assert k == n || k in marked;
    }
  }

  /** And a blocked node breaks one of them. */
  lemma BlockedIff(p: Pool, marked: seq<Node>, n: Node)
    requires Safe(p, marked) && n.group in p.groups
    ensures Blocked(p, marked, n) <==> !Safe(p, marked + [n])
  {
    if !Blocked(p, marked, n) {
      MarkSafe(p, marked, n);
    } else {
      AppendSums(marked, n, n.group);
      assert n in marked + [n];
    }
  }

  // ---- the greedy choice -----------------------------------------------------------------

  /** The marked ones among nodes. */
  function Pick(nodes: seq<Node>, mark: seq<bool>): seq<Node>
    requires |mark| <= |nodes|
  {
    if mark == [] then []
    else Pick(nodes, mark[..|mark| - 1]) + (if mark[|mark| - 1] then [nodes[|mark| - 1]] else [])
  }

  /** In order, a node is marked exactly when the nodes marked before it leave room for it. */
  ghost predicate Greedy(p: Pool, nodes: seq<Node>, mark: seq<bool>)
    requires |mark| <= |nodes| && forall i :: 0 <= i < |nodes| ==> nodes[i].group in p.groups
  {
    forall i {:trigger mark[i]} :: 0 <= i < |mark| ==> (mark[i] <==> !Blocked(p, Pick(nodes, mark[..i]), nodes[i]))
  }

  /** As long as nodes are considered, the capacity is above the target. */
  ghost predicate Needed(p: Pool, nodes: seq<Node>, mark: seq<bool>, capacity: real)
    requires |mark| <= |nodes|
  {
    forall k {:trigger mark[k]} :: 0 <= k < |mark| ==> capacity - Weight(Pick(nodes, mark[..k])) > p.target
  }

  /** Unmarked nodes among the considered ones are blocked. */
  ghost predicate RestBlocked(p: Pool, nodes: seq<Node>, mark: seq<bool>, marked: seq<Node>)
    requires |mark| <= |nodes| && forall i :: 0 <= i < |nodes| ==> nodes[i].group in p.groups
  {
    forall k {:trigger mark[k]} :: 0 <= k < |mark| && !mark[k] ==> Blocked(p, marked, nodes[k])
  }

  lemma PickLast(nodes: seq<Node>, mark: seq<bool>, b: bool)
    requires |mark| < |nodes|
    ensures Pick(nodes, mark + [b]) == Pick(nodes, mark) + (if b then [nodes[|mark|]] else [])
  {
    assert (mark + [b])[..|mark|] == mark;
  }

  lemma ExtendGreedy(p: Pool, nodes: seq<Node>, mark: seq<bool>, capacity: real, b: bool)
    requires |mark| < |nodes| && forall i :: 0 <= i < |nodes| ==> nodes[i].group in p.groups
    requires Greedy(p, nodes, mark) && Needed(p, nodes, mark, capacity)
    requires b <==> !Blocked(p, Pick(nodes, mark), nodes[|mark|])
    requires capacity - Weight(Pick(nodes, mark)) > p.target
    ensures Greedy(p, nodes, mark + [b]) && Needed(p, nodes, mark + [b], capacity)
  {
    var next, i := mark + [b], |mark|;
    forall k | 0 <= k < |next|
      ensures next[k] <==> !Blocked(p, Pick(nodes, next[..k]), nodes[k])
      ensures capacity - Weight(Pick(nodes, next[..k])) > p.target
    {
      assert next[..k] == mark[..k];
      if k == i { assert mark[..k] == mark; } else { assert next[k] == mark[k]; }
    }
  }

  lemma ExtendRest(p: Pool, nodes: seq<Node>, mark: seq<bool>, b: bool)
    requires |mark| < |nodes| && NonNegative(nodes) && forall i :: 0 <= i < |nodes| ==> nodes[i].group in p.groups
    requires RestBlocked(p, nodes, mark, Pick(nodes, mark))
    requires b <==> !Blocked(p, Pick(nodes, mark), nodes[|mark|])
    ensures RestBlocked(p, nodes, mark + [b], Pick(nodes, mark + [b]))
  {
    PickLast(nodes, mark, b);
    var i, marked := |mark|, Pick(nodes, mark);
    if b {
      RestStillBlocked(p, nodes, mark, marked, nodes[i]);
    }
    var after := Pick(nodes, mark + [b]);
    assert after == if b then marked + [nodes[i]] else marked;
    forall k | 0 <= k < |mark + [b]| && !(mark + [b])[k] ensures Blocked(p, after, nodes[k]) {
      if k < i { assert (mark + [b])[k] == mark[k]; }
    }
  }

  lemma RestStillBlocked(p: Pool, nodes: seq<Node>, mark: seq<bool>, marked: seq<Node>, m: Node)
    requires |mark| < |nodes| && forall i :: 0 <= i < |nodes| ==> nodes[i].group in p.groups
    requires m.weight >= 0.0 && m.tasks >= 0 && RestBlocked(p, nodes, mark, marked)
    ensures RestBlocked(p, nodes, mark, marked + [m])
  {
    forall k | 0 <= k < |mark| && !mark[k] ensures Blocked(p, marked + [m], nodes[k]) {
      StillBlocked(p, marked, m, nodes[k]);
    }
  }

  /** Marking greedily, the marked nodes keep every limit and the others could not be added. */
  lemma {:induction false} GreedySafe(p: Pool, nodes: seq<Node>, mark: seq<bool>)
    requires |mark| <= |nodes| && NonNegative(nodes) && forall i :: 0 <= i < |nodes| ==> nodes[i].group in p.groups
    requires Greedy(p, nodes, mark)
    ensures Safe(p, Pick(nodes, mark)) && RestBlocked(p, nodes, mark, Pick(nodes, mark))
  {
    if mark != [] {
      var n := |mark| - 1;
      var before, b := mark[..n], mark[n];
      assert mark == before + [b];
      GreedyPart(p, nodes, mark, n);
      GreedySafe(p, nodes, before);
      SafeStep(p, nodes, before, b);
    }
  }

  lemma SafeStep(p: Pool, nodes: seq<Node>, before: seq<bool>, b: bool)
    requires |before| < |nodes| && NonNegative(nodes) && forall i :: 0 <= i < |nodes| ==> nodes[i].group in p.groups
    requires Safe(p, Pick(nodes, before)) && RestBlocked(p, nodes, before, Pick(nodes, before))
    requires b <==> !Blocked(p, Pick(nodes, before), nodes[|before|])
    ensures Safe(p, Pick(nodes, before + [b]))
    ensures RestBlocked(p, nodes, before + [b], Pick(nodes, before + [b]))
  {
    PickLast(nodes, before, b);
    ExtendRest(p, nodes, before, b);
    if b {
      MarkSafe(p, Pick(nodes, before), nodes[|before|]);
    } else {
      assert Pick(nodes, before + [b]) == Pick(nodes, before);
    }
  }

  lemma GreedyPart(p: Pool, nodes: seq<Node>, mark: seq<bool>, k: nat)
    requires k < |mark| <= |nodes| && forall i :: 0 <= i < |nodes| ==> nodes[i].group in p.groups
    requires Greedy(p, nodes, mark)
    ensures Greedy(p, nodes, mark[..k])
    ensures mark[k] <==> !Blocked(p, Pick(nodes, mark[..k]), nodes[k])
  {
    var before := mark[..k];
    forall i | 0 <= i < |before| ensures before[i] <==> !Blocked(p, Pick(nodes, before[..i]), nodes[i]) {
      assert before[i] == mark[i] && before[..i] == mark[..i];
    }
  }

  /** The loop's counters describe the marked nodes. */
  ghost predicate Tally(p: Pool, marked: seq<Node>, capacity: real, byGroup: map<int, seq<Node>>,
                        rem: map<int, GroupState>, removed: real, killed: int, curr: real, nonOrphan: real)
  {
    && removed == Weight(marked) && killed == Tasks(marked) && curr == capacity - Weight(marked)
    && nonOrphan == p.nonOrphan - NonOrphanWeight(marked)
    && rem.Keys == p.groups.Keys
    && (forall g :: g in rem ==> rem[g] == p.groups[g].(fulfilled := p.groups[g].fulfilled - GroupWeight(marked, g)))
    && (forall g :: Listed(byGroup, g) == OfGroup(marked, g))
  }

  function Listed(byGroup: map<int, seq<Node>>, g: int): seq<Node> {
    if g in byGroup then byGroup[g] else []
  }

  /** Marks nodes in order until the capacity is down to the target. */
  method MarkNodes(p: Pool, nodes: seq<Node>, capacity: real)
    returns (byGroup: map<int, seq<Node>>, ghost mark: seq<bool>)
    requires forall i :: 0 <= i < |nodes| ==> nodes[i].group in p.groups
    requires capacity > p.target
    ensures |mark| <= |nodes| && Greedy(p, nodes, mark) && Needed(p, nodes, mark, capacity)
    ensures capacity - Weight(Pick(nodes, mark)) <= p.target || |mark| == |nodes|
    ensures forall g :: Listed(byGroup, g) == OfGroup(Pick(nodes, mark), g)
  {
    ghost var marked: seq<Node> := [];
    byGroup, mark := map[], [];
    var rem := p.groups;
    var removed, killed, curr, nonOrphan := 0.0, 0, capacity, p.nonOrphan;
    var i := 0;
    while i < |nodes|
      invariant i <= |nodes| && |mark| == i && marked == Pick(nodes, mark)
      invariant Greedy(p, nodes, mark) && Needed(p, nodes, mark, capacity)
      invariant Tally(p, marked, capacity, byGroup, rem, removed, killed, curr, nonOrphan)
      invariant curr > p.target
    {
      var n := nodes[i];
      var skip := ShouldSkip(p, marked, rem, removed, killed, nonOrphan, n);
      ExtendGreedy(p, nodes, mark, capacity, !skip);
      PickLast(nodes, mark, !skip);
      mark, i := mark + [!skip], i + 1;
      if !skip {
        byGroup, rem, removed, killed, curr, nonOrphan :=
          MarkOne(p, marked, capacity, byGroup, rem, removed, killed, curr, nonOrphan, n);
        marked := marked + [n];
        if curr <= p.target {
          break;
        }
      }
    }
  }

  /** The four reasons to leave a node alone. */
  method ShouldSkip(p: Pool, ghost marked: seq<Node>, rem: map<int, GroupState>, removed: real, killed: int,
                    nonOrphan: real, n: Node)
    returns (skip: bool)
    requires n.group in p.groups && n.group in rem
    requires removed == Weight(marked) && killed == Tasks(marked) && nonOrphan == p.nonOrphan - NonOrphanWeight(marked)
    requires rem[n.group] == p.groups[n.group].(fulfilled := p.groups[n.group].fulfilled - GroupWeight(marked, n.group))
    ensures skip <==> Blocked(p, marked, n)
  {
    var newGroupCapacity := rem[n.group].fulfilled - n.weight;
    if n.weight + removed > p.limits.maxWeightToRemove as real {
      return true;
    }
    if newGroupCapacity < p.groups[n.group].target {
      return true;
    }
    if Over(p.limits.maxTasksToKill, killed + n.tasks) {
      return true;
    }
    if n.state != Orphaned {
      if nonOrphan - n.weight < p.target {
        return true;
      }
    }
    return false;
  }

  /** Marks one node. */
  method MarkOne(p: Pool, ghost marked: seq<Node>, ghost capacity: real, byGroup0: map<int, seq<Node>>,
                 rem0: map<int, GroupState>, removed0: real, killed0: int, curr0: real, nonOrphan0: real, n: Node)
    returns (byGroup: map<int, seq<Node>>, rem: map<int, GroupState>, removed: real, killed: int, curr: real,
             nonOrphan: real)
    requires n.group in p.groups
    requires Tally(p, marked, capacity, byGroup0, rem0, removed0, killed0, curr0, nonOrphan0)
    ensures Tally(p, marked + [n], capacity, byGroup, rem, removed, killed, curr, nonOrphan)
  {
    byGroup, rem := Take(p, marked, byGroup0, rem0, n);
    AppendSums(marked, n, n.group);
    curr, killed, removed := curr0 - n.weight, killed0 + n.tasks, removed0 + n.weight;
    nonOrphan := if n.state != Orphaned then nonOrphan0 - n.weight else nonOrphan0;
  }

  /** Records a marked node in the dictionaries. */
  method Take(p: Pool, ghost marked: seq<Node>, byGroup0: map<int, seq<Node>>, rem0: map<int, GroupState>, n: Node)
    returns (byGroup: map<int, seq<Node>>, rem: map<int, GroupState>)
    requires n.group in p.groups && rem0.Keys == p.groups.Keys
    requires forall g :: g in rem0 ==>
               rem0[g] == p.groups[g].(fulfilled := p.groups[g].fulfilled - GroupWeight(marked, g))
    requires forall g :: Listed(byGroup0, g) == OfGroup(marked, g)
    ensures rem.Keys == p.groups.Keys
    ensures forall g :: g in rem ==>
              rem[g] == p.groups[g].(fulfilled := p.groups[g].fulfilled - GroupWeight(marked + [n], g))
    ensures forall g :: Listed(byGroup, g) == OfGroup(marked + [n], g)
  {
    byGroup := byGroup0[n.group := Listed(byGroup0, n.group) + [n]];
    rem := rem0[n.group := rem0[n.group].(fulfilled := rem0[n.group].fulfilled - n.weight)];
    forall g ensures Listed(byGroup, g) == OfGroup(marked + [n], g) {
      AppendSums(marked, n, g);
      assert Listed(byGroup0, g) == OfGroup(marked, g);
    }
    forall g | g in rem
      ensures rem[g] == p.groups[g].(fulfilled := p.groups[g].fulfilled - GroupWeight(marked + [n], g))
    {
      AppendSums(marked, n, g);
    }
  }

  lemma {:induction false} PickMember(nodes: seq<Node>, mark: seq<bool>, n: Node)
    requires |mark| <= |nodes|
    ensures n in Pick(nodes, mark) <==> exists i :: 0 <= i < |mark| && mark[i] && nodes[i] == n
  {
    if mark != [] {
      var k := |mark| - 1;
      PickMember(nodes, mark[..k], n);
      if n in Pick(nodes, mark[..k]) {
        var i :| 0 <= i < k && mark[..k][i] && nodes[i] == n;
        assert mark[i];
      }
      if i :| 0 <= i < |mark| && mark[i] && nodes[i] == n {
        assert i < k ==> mark[..k][i];
      }
    }
  }

  /** The killable nodes in kill order. */
  function KillOrder(l: PruneLimits, nodes: seq<Node>): seq<Node> {
    SortBy(KillableNodes(l, nodes), KillFirst)
  }

  /** Each eligible node is listed as often as the pool has it, in order of kill priority. */
  lemma KillOrderIs(l: PruneLimits, nodes: seq<Node>, n: Node)
    ensures multiset(KillOrder(l, nodes))[n] == if Eligible(l, n) then multiset(nodes)[n] else 0
    ensures n in KillOrder(l, nodes) <==> n in nodes && Eligible(l, n)
    ensures forall i, j :: 0 <= i < j < |KillOrder(l, nodes)| ==>
              KillBefore(KillOrder(l, nodes)[i], KillOrder(l, nodes)[j])
  {
    var order := KillOrder(l, nodes);
    KillFirstTotal();
    SortByCorrect(KillableNodes(l, nodes), KillFirst);
    KillableMember(l, nodes, n);
    InOnce(order, n);
    InOnce(nodes, n);
    forall i, j | 0 <= i < j < |order| ensures KillBefore(order[i], order[j]) {
      KillFirstIff(order[i], order[j]);
    }
  }

  lemma InOnce(s: seq<Node>, n: Node)
    ensures n in s <==> multiset(s)[n] > 0
  {
  }

  /** What the choice is: in kill order a node is marked exactly when the nodes marked before leave
      room for it, until the capacity is down to the target or the list ends. */
  ghost predicate Chosen(p: Pool, nodes: seq<Node>, capacity: real, mark: seq<bool>) {
    var killable := KillOrder(p.limits, nodes);
    if capacity <= p.target then mark == []
    else
      && |mark| <= |killable|
      && (forall i :: 0 <= i < |killable| ==> killable[i].group in p.groups)
      && Greedy(p, killable, mark) && Needed(p, killable, mark, capacity)
      && (capacity - Weight(Pick(killable, mark)) <= p.target || |mark| == |killable|)
  }

  ghost function Kills(p: Pool, nodes: seq<Node>, mark: seq<bool>): seq<Node>
    requires |mark| <= |KillOrder(p.limits, nodes)|
  {
    Pick(KillOrder(p.limits, nodes), mark)
  }

  /** There is only one such choice. */
  lemma ChosenUnique(p: Pool, nodes: seq<Node>, capacity: real, a: seq<bool>, b: seq<bool>)
    requires Chosen(p, nodes, capacity, a) && Chosen(p, nodes, capacity, b)
    ensures a == b
  {
    if capacity > p.target {
      var killable := KillOrder(p.limits, nodes);
      var k := if |a| < |b| then |a| else |b|;
      SamePrefix(p, killable, a, b, k);
      if |a| < |b| {
        assert a[..k] == a;
        NeededAt(p, killable, b, capacity, k);
      } else if |b| < |a| {
        assert b[..k] == b;
        NeededAt(p, killable, a, capacity, k);
      } else {
        assert a[..k] == a && b[..k] == b;
      }
    }
  }

  lemma NeededAt(p: Pool, nodes: seq<Node>, mark: seq<bool>, capacity: real, k: nat)
    requires k < |mark| <= |nodes| && Needed(p, nodes, mark, capacity)
    ensures capacity - Weight(Pick(nodes, mark[..k])) > p.target
  {
    assert mark[k] || !mark[k];
  }

  lemma {:induction false} SamePrefix(p: Pool, nodes: seq<Node>, a: seq<bool>, b: seq<bool>, k: nat)
    requires k <= |a| <= |nodes| && k <= |b| <= |nodes| && forall i :: 0 <= i < |nodes| ==> nodes[i].group in p.groups
    requires Greedy(p, nodes, a) && Greedy(p, nodes, b)
    ensures a[..k] == b[..k]
  {
    if k > 0 {
      SamePrefix(p, nodes, a, b, k - 1);
      assert a[k - 1] == b[k - 1];
      assert a[..k] == a[..k - 1] + [a[k - 1]] && b[..k] == b[..k - 1] + [b[k - 1]];
    }
  }

  /** The chosen nodes are eligible ones and keep the weight, task, group and non-orphan limits; and
      unless they bring the capacity down to the target, no other eligible node could be added. */
  lemma ChosenSafeAndMaximal(p: Pool, nodes: seq<Node>, capacity: real, mark: seq<bool>)
    requires NonNegative(nodes) && Chosen(p, nodes, capacity, mark)
    ensures var marked := Kills(p, nodes, mark);
      && Safe(p, marked)
      && (forall n :: n in marked ==> n in nodes && Eligible(p.limits, n))
      && (capacity - Weight(marked) <= p.target ||
          forall n :: n in nodes && Eligible(p.limits, n) && n !in marked ==> !Safe(p, marked + [n]))
  {
    var killable, marked := KillOrder(p.limits, nodes), Kills(p, nodes, mark);
    if capacity > p.target {
      OrderNonNegative(p, nodes);
      GreedySafe(p, killable, mark);
      forall n ensures n in marked ==> n in nodes && Eligible(p.limits, n) {
        ChosenFrom(p, nodes, mark, n);
      }
      if capacity - Weight(marked) > p.target {
        forall n | n in nodes && Eligible(p.limits, n) && n !in marked ensures !Safe(p, marked + [n]) {
          ChosenFrom(p, nodes, mark, n);
          BlockedIff(p, marked, n);
        }
      }
    }
  }

  lemma OrderNonNegative(p: Pool, nodes: seq<Node>)
    requires NonNegative(nodes)
    ensures NonNegative(KillOrder(p.limits, nodes))
  {
    var killable := KillOrder(p.limits, nodes);
    forall i | 0 <= i < |killable| ensures killable[i].weight >= 0.0 && killable[i].tasks >= 0 {
      KillOrderIs(p.limits, nodes, killable[i]);
    }
  }

  /** Node by node: in kill order a node is chosen exactly when the nodes chosen before it, together with
      it, keep every limit. */
  lemma ChosenBySafety(p: Pool, nodes: seq<Node>, capacity: real, mark: seq<bool>, i: nat)
    requires NonNegative(nodes) && Chosen(p, nodes, capacity, mark) && i < |mark|
    ensures mark[i] <==> Safe(p, Kills(p, nodes, mark[..i]) + [KillOrder(p.limits, nodes)[i]])
    ensures capacity - Weight(Kills(p, nodes, mark[..i])) > p.target
  {
    var killable := KillOrder(p.limits, nodes);
    OrderNonNegative(p, nodes);
    GreedyPart(p, killable, mark, i);
    GreedySafe(p, killable, mark[..i]);
    BlockedIff(p, Pick(killable, mark[..i]), killable[i]);
    NeededAt(p, killable, mark, capacity, i);
  }

  /** Only eligible nodes are chosen, and those left out of the whole list are unmarked in it. */
  lemma ChosenFrom(p: Pool, nodes: seq<Node>, mark: seq<bool>, n: Node)
    requires |mark| <= |KillOrder(p.limits, nodes)|
    ensures n in Kills(p, nodes, mark) ==> n in nodes && Eligible(p.limits, n)
    ensures var killable := KillOrder(p.limits, nodes);
      |mark| == |killable| && n in nodes && Eligible(p.limits, n) && n !in Kills(p, nodes, mark) ==>
        exists i :: 0 <= i < |killable| && killable[i] == n && !mark[i]
  {
    KillOrderIs(p.limits, nodes, n);
    PickMember(KillOrder(p.limits, nodes), mark, n);
  }

  /** The nodes to kill, by group and in kill order. */
  method ChooseNodesToPrune(p: Pool, nodes: seq<Node>, capacity: real) returns (byGroup: map<int, seq<Node>>)
    requires forall i :: 0 <= i < |nodes| ==> nodes[i].group in p.groups
    ensures exists mark ::
      && Chosen(p, nodes, capacity, mark)
      && |mark| <= |KillOrder(p.limits, nodes)|
      && (forall g :: Listed(byGroup, g) == OfGroup(Kills(p, nodes, mark), g))
      && (NonNegative(nodes) ==> Safe(p, Kills(p, nodes, mark)))
  {
    byGroup := map[];
    if capacity <= p.target {
      assert Chosen(p, nodes, capacity, []);
      assert Kills(p, nodes, []) == [];
      return;
    }
    var killable := SortBy(KillableNodes(p.limits, nodes), KillFirst);
    forall i | 0 <= i < |killable| ensures killable[i].group in p.groups {
      KillOrderIs(p.limits, nodes, killable[i]);
    }
    ghost var mark;
    byGroup, mark := MarkNodes(p, killable, capacity);
    assert Chosen(p, nodes, capacity, mark);
    if NonNegative(nodes) {
      ChosenSafeAndMaximal(p, nodes, capacity, mark);
    }
  }
}
