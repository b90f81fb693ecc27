/** The simulated AWS cluster (clusterman/simulator/simulated_aws_cluster.py): a dictionary of
    instances and, per market, the list of its instance ids, oldest first. */
module SimulatedCluster {

  type Market = int

  type Index = map<Market, seq<nat>>

  /** The list of a market; the dictionary defaults to an empty list. */
  function Ids(index: Index, m: Market): seq<nat> {
    if m in index then index[m] else []
  }

  ghost predicate NoDuplicates(s: seq<nat>) {
    forall i, j :: 0 <= i < j < |s| ==> s[i] != s[j]
  }

  /** Ids are handed out in ascending order, so an ascending list has the oldest instances first. */
  ghost predicate OldestFirst(s: seq<nat>) {
    forall i, j :: 0 <= i < j < |s| ==> s[i] < s[j]
  }

  /** The instances are the duplicate-free disjoint union of the market lists, each id listed under
      its own market, every list has its oldest instances first, and every id has been handed out. */
  ghost predicate Consistent(instances: map<nat, Market>, index: Index, next: nat) {
    && (forall m, id :: Listed(instances, index, m, id))
    && (forall m :: OldestFirst(Ids(index, m)))
    && (forall id :: id in instances ==> id < next)
  }

  ghost predicate Listed(instances: map<nat, Market>, index: Index, m: Market, id: nat) {
    id in Ids(index, m) <==> id in instances && instances[id] == m
  }

  /** No id is listed under two markets. */
  lemma MarketsDisjoint(instances: map<nat, Market>, index: Index, next: nat, m: Market, k: Market, id: nat)
    requires Consistent(instances, index, next) && id in Ids(index, m) && id in Ids(index, k)
    ensures m == k
  {
    assert Listed(instances, index, m, id) && Listed(instances, index, k, id);
  }

  /** The ids first, first + 1, ..., n of them. */
  function Fresh(first: nat, n: nat): (s: seq<nat>)
    ensures |s| == n && forall i :: 0 <= i < n ==> s[i] == first + i
  {
    seq(n, i => first + i)
  }

  /** The instances with those ids, all in market m. */
  function FreshInstances(m: Market, first: nat, n: nat): map<nat, Market> {
    map id | id in Fresh(first, n) :: m
  }

  lemma FreshMember(first: nat, n: nat, id: nat)
    ensures id in Fresh(first, n) <==> first <= id < first + n
  {
    if first <= id < first + n {
      assert Fresh(first, n)[id - first] == id;
    }
  }

  lemma GrowConsistent(instances: map<nat, Market>, index: Index, next: nat, m: Market, n: nat)
    requires Consistent(instances, index, next)
    ensures Consistent(instances + FreshInstances(m, next, n), index[m := Ids(index, m) + Fresh(next, n)], next + n)
  {
    var all, ix := instances + FreshInstances(m, next, n), index[m := Ids(index, m) + Fresh(next, n)];
    forall k, id ensures Listed(all, ix, k, id) {
      assert Listed(instances, index, k, id);
      FreshMember(next, n, id);
    }
    forall k ensures OldestFirst(Ids(ix, k)) {
      assert OldestFirst(Ids(index, k));
      if k == m { GrowOldestFirst(instances, index, next, m, n); }
    }
    forall id | id in all ensures id < next + n {
      FreshMember(next, n, id);
    }
  }

  lemma GrowOldestFirst(instances: map<nat, Market>, index: Index, next: nat, m: Market, n: nat)
    requires Consistent(instances, index, next)
    ensures OldestFirst(Ids(index, m) + Fresh(next, n))
  {
    var s := Ids(index, m);
    assert OldestFirst(s);
    forall i | 0 <= i < |s| ensures s[i] < next {
      assert Listed(instances, index, m, s[i]);
    }
  }

  /** Dropping the n oldest ids of a market together with their instances. */
  lemma ShrinkConsistent(instances: map<nat, Market>, index: Index, next: nat, m: Market, n: nat)
    requires Consistent(instances, index, next) && n <= |Ids(index, m)|
    ensures Consistent(instances - Elements(Ids(index, m)[..n]), index[m := Ids(index, m)[n..]], next)
  {
    var s := Ids(index, m);
    var gone, ix := Elements(s[..n]), index[m := s[n..]];
    var left := instances - gone;
    assert OldestFirst(s);
    forall k, id ensures Listed(left, ix, k, id) {
      SplitMember(s, n, id);
      assert Listed(instances, index, k, id) && Listed(instances, index, m, id);
    }
    forall k ensures OldestFirst(Ids(ix, k)) {
      assert OldestFirst(Ids(index, k));
    }
  }

  function Elements(s: seq<nat>): set<nat> {
    set id | id in s
  }

  /** In an ascending list an element is in the first n or in the rest, never in both. */
  lemma SplitMember(s: seq<nat>, n: nat, id: nat)
    requires OldestFirst(s) && n <= |s|
    ensures id in s[n..] <==> id in s && id !in s[..n]
    ensures id in s[..n] ==> id in s
  {
    if id in s {
      var i :| 0 <= i < |s| && s[i] == id;
      if i < n { assert s[..n][i] == id; } else { assert s[n..][i - n] == id; }
    }
  }

  lemma DropEmptyKey(instances: map<nat, Market>, index: Index, next: nat, m: Market)
    requires Consistent(instances, index, next) && Ids(index, m) == []
    ensures Consistent(instances, index - {m}, next)
    ensures forall k :: Ids(index - {m}, k) == Ids(index, k)
  {
    var ix := index - {m};
    assert forall k :: Ids(ix, k) == Ids(index, k);
    forall k, id ensures Listed(instances, ix, k, id) {
      assert Listed(instances, index, k, id);
    }
    forall k ensures OldestFirst(Ids(ix, k)) {
      assert OldestFirst(Ids(index, k));
    }
  }

  class SimulatedAWSCluster {
    var instances: map<nat, Market>
    var idsByMarket: Index
    var nextId: nat

    ghost predicate Valid()
      reads this
    {
      Consistent(instances, idsByMarket, nextId)
    }

    constructor ()
      ensures Valid() && instances == map[] && idsByMarket == map[]
    {
      instances, idsByMarket, nextId := map[], map[], 0;
    }

    function MarketSize(m: Market): nat
      reads this
    {
      |Ids(idsByMarket, m)|
    }

    /** The requested number for a market; markets that are not named are emptied. */
    function Wanted(request: map<Market, int>, m: Market): int {
      if m in request then request[m] else 0
    }

    /** Resizes every market to the requested number: too many and the oldest go first, too few and
        fresh ids are appended. */
    method ModifySize(request: map<Market, int>) returns (added: map<nat, Market>, removed: set<nat>)
      requires Valid()
      modifies this
      ensures Valid() && old(nextId) <= nextId
      ensures forall m :: MarketSize(m) == if m in request && request[m] > 0 then request[m] else 0
      ensures forall m :: ResizedFrom(old(Ids(idsByMarket, m)), Wanted(request, m), Ids(idsByMarket, m), old(nextId))
      ensures forall m :: OldestGone(old(Ids(idsByMarket, m)), Ids(idsByMarket, m))
      ensures instances == (old(instances) - removed) + added
      ensures removed <= old(instances).Keys && forall id :: id in added ==> old(nextId) <= id < nextId
    {
      assert instances + map[] == instances;
      added, removed := ResizeAll(request, instances, idsByMarket, nextId);
      instances := instances + added;
      forall m ensures OldestGone(old(Ids(idsByMarket, m)), Ids(idsByMarket, m)) {
        ResizedOldestGone(old(Ids(idsByMarket, m)), Wanted(request, m), Ids(idsByMarket, m), old(nextId));
      }
    }

    /** The loop over the markets, in any order. */
    method ResizeAll(request: map<Market, int>, ghost before: map<nat, Market>, ghost index: Index, ghost first: nat)
      returns (added: map<nat, Market>, removed: set<nat>)
      requires Valid() && before == instances && index == idsByMarket && first == nextId
      modifies this
      ensures Pending(added, removed, before, first) && first <= nextId
      ensures forall m :: ResizedFrom(Ids(index, m), Wanted(request, m), Ids(idsByMarket, m), first)
    {
      var todo := request.Keys + idsByMarket.Keys;
      added, removed := map[], {};
      assert instances + added == instances;
      while todo != {}
        invariant Pending(added, removed, before, first) && first <= nextId
        invariant forall m :: RoundOf(m in todo, Ids(index, m), request, m, first)
        decreases todo
      {
        assert (forall k :: k !in todo) ==> todo == {};
        var m :| m in todo;
        assert RoundOf(true, Ids(index, m), request, m, first);
        OldIds(before, index, first, m);
        ghost var ids := idsByMarket;
        added, removed := ResizeMarket(m, Wanted(request, m), added, removed, before, first);
        forall k ensures RoundOf(k in todo - {m}, Ids(index, k), request, k, first) {
          assert k == m || Ids(idsByMarket, k) == Ids(ids, k);
        }
        todo := todo - {m};
      }
      forall m ensures ResizedFrom(Ids(index, m), Wanted(request, m), Ids(idsByMarket, m), first) {
        assert RoundOf(false, Ids(index, m), request, m, first);
      }
    }

    /** Mid-loop, a market is as before or already resized. */
    ghost predicate RoundOf(pending: bool, before: seq<nat>, request: map<Market, int>, m: Market, first: nat)
      reads this
    {
      if pending then Ids(idsByMarket, m) == before
      else ResizedFrom(before, Wanted(request, m), Ids(idsByMarket, m), first)
    }

    /** Mid-loop, the added instances are listed but not yet in the dictionary. */
    ghost predicate Pending(added: map<nat, Market>, removed: set<nat>, before: map<nat, Market>, first: nat)
      reads this
    {
      && Consistent(instances + added, idsByMarket, nextId)
      && (forall id :: id in added ==> first <= id < nextId)
      && (forall id :: id in before ==> id < first)
      && removed <= before.Keys && instances == before - removed
    }

    /** One round of the loop: market m goes to size num. */
    method ResizeMarket(m: Market, num: int, added0: map<nat, Market>, removed0: set<nat>,
                        ghost before: map<nat, Market>, ghost first: nat)
      returns (added: map<nat, Market>, removed: set<nat>)
      requires Pending(added0, removed0, before, first) && first <= nextId
      requires forall id :: id in Ids(idsByMarket, m) ==> id < first
      modifies this
      ensures Pending(added, removed, before, first) && old(nextId) <= nextId
      ensures ResizedFrom(old(Ids(idsByMarket, m)), num, Ids(idsByMarket, m), first)
      ensures forall k :: k != m ==> Ids(idsByMarket, k) == old(Ids(idsByMarket, k))
    {
      var ids := Ids(idsByMarket, m);
      var delta := num - |ids|;
      added, removed := added0, removed0;
      if delta > 0 {
        added := Grow(m, delta, added, removed, before, first);
      } else if delta < 0 {
        removed := Shrink(m, if -delta < |ids| then -delta else |ids|, added, removed, before, first);
      }
    }

    method Grow(m: Market, delta: nat, added0: map<nat, Market>, ghost removed: set<nat>,
                ghost before: map<nat, Market>, ghost first: nat)
      returns (added: map<nat, Market>)
      requires Pending(added0, removed, before, first) && first <= nextId
      modifies this`idsByMarket, this`nextId
      ensures Pending(added, removed, before, first) && nextId == old(nextId) + delta
      ensures idsByMarket == old(idsByMarket)[m := old(Ids(idsByMarket, m)) + Fresh(old(nextId), delta)]
    {
      GrowConsistent(instances + added0, idsByMarket, nextId, m, delta);
      added := added0 + FreshInstances(m, nextId, delta);
      assert instances + added == (instances + added0) + FreshInstances(m, nextId, delta);
      idsByMarket := idsByMarket[m := Ids(idsByMarket, m) + Fresh(nextId, delta)];
      forall id | id in added ensures first <= id < nextId + delta {
        FreshMember(nextId, delta, id);
      }
      nextId := nextId + delta;
    }

    method Shrink(m: Market, toDel: nat, ghost added: map<nat, Market>, removed0: set<nat>,
                  ghost before: map<nat, Market>, ghost first: nat)
      returns (removed: set<nat>)
      requires Pending(added, removed0, before, first) && toDel <= |Ids(idsByMarket, m)|
      requires forall id :: id in Ids(idsByMarket, m) ==> id < first
      modifies this`instances, this`idsByMarket
      ensures Pending(added, removed, before, first)
      ensures Ids(idsByMarket, m) == old(Ids(idsByMarket, m))[toDel..]
      ensures forall k :: k != m ==> Ids(idsByMarket, k) == old(Ids(idsByMarket, k))
    {
      var ids := Ids(idsByMarket, m);
      ShrinkConsistent(instances + added, idsByMarket, nextId, m, toDel);
      var gone := Elements(ids[..toDel]);
      forall id | id in gone ensures id in instances && id !in added {
        assert Listed(instances + added, idsByMarket, m, id) && id in ids;
      }
      assert (instances - gone) + added == (instances + added) - gone;
      instances := instances - gone;
      removed := removed0 + gone;
      idsByMarket := idsByMarket[m := ids[toDel..]];
      if ids[toDel..] == [] {
        DropEmptyKey(instances + added, idsByMarket, nextId, m);
        idsByMarket := idsByMarket - {m};
      }
    }

    /** Terminates the listed instances in order; an unknown id stops the loop there. */
    method TerminateInstancesById(ids: seq<nat>) returns (done: nat)
      requires Valid()
      modifies this`instances, this`idsByMarket
      ensures Valid() && done <= |ids|
      ensures instances == old(instances) - Elements(ids[..done])
      ensures done < |ids| ==> ids[done] !in instances
      ensures forall m :: Ids(idsByMarket, m) == Without(old(Ids(idsByMarket, m)), Elements(ids[..done]))
      ensures forall i :: 0 <= i < done ==> ids[i] in old(instances)
      ensures NoDuplicates(ids[..done])
    {
      done := 0;
      forall m ensures Ids(idsByMarket, m) == Without(Ids(idsByMarket, m), Elements(ids[..0])) {
        WithoutNone(Ids(idsByMarket, m));
        assert Elements(ids[..0]) == {};
      }
      while done < |ids|
        invariant Valid() && done <= |ids|
        invariant instances == old(instances) - Elements(ids[..done])
        invariant forall i :: 0 <= i < done ==> ids[i] in old(instances)
        invariant NoDuplicates(ids[..done])
        invariant forall m :: Ids(idsByMarket, m) == Without(old(Ids(idsByMarket, m)), Elements(ids[..done]))
      {
        if ids[done] !in instances {
          return;
        }
        TerminateOne(ids[done]);
        assert Elements(ids[..done + 1]) == Elements(ids[..done]) + {ids[done]};
        forall m ensures Ids(idsByMarket, m) == Without(old(Ids(idsByMarket, m)), Elements(ids[..done + 1])) {
          WithoutBoth(old(Ids(idsByMarket, m)), Elements(ids[..done]), {ids[done]});
        }
        done := done + 1;
      }
      assert ids[..done] == ids;
    }

    method TerminateOne(id: nat)
      requires Valid() && id in instances
      modifies this`instances, this`idsByMarket
      ensures Valid() && instances == old(instances) - {id}
      ensures forall k :: Ids(idsByMarket, k) == Without(old(Ids(idsByMarket, k)), {id})
    {
      var m := instances[id];
      RemoveConsistent(instances, idsByMarket, nextId, m, id);
      forall k | k != m ensures Without(Ids(idsByMarket, k), {id}) == Ids(idsByMarket, k) {
        assert Listed(instances, idsByMarket, k, id);
        WithoutAbsent(Ids(idsByMarket, k), id);
      }
      instances := instances - {id};
      idsByMarket := idsByMarket[m := Without(idsByMarket[m], {id})];
    }
  }

  lemma OldIds(instances: map<nat, Market>, index: Index, next: nat, m: Market)
    requires Consistent(instances, index, next)
    ensures forall id :: id in Ids(index, m) ==> id < next
  {
    forall id | id in Ids(index, m) ensures id < next {
      assert Listed(instances, index, m, id);
    }
  }

  /** after is before resized to num, with fresh ids from first on. */
  ghost predicate ResizedFrom(before: seq<nat>, num: int, after: seq<nat>, first: nat) {
    && |after| == (if num < 0 then 0 else num)
    && (num <= |before| ==> after == before[|before| - |after|..])
    && (num > |before| ==> before == after[..|before|])
    && (forall i :: |before| <= i < |after| ==> first <= after[i])
    && (forall i, j :: |before| <= i < j < |after| ==> after[i] < after[j])
  }

  /** Every id that is gone is older than every one that was kept. */
  ghost predicate OldestGone(before: seq<nat>, after: seq<nat>) {
    forall i, j :: 0 <= i < |before| && 0 <= j < |before| && before[i] !in after && before[j] in after ==>
      before[i] < before[j]
  }

  lemma ResizedOldestGone(before: seq<nat>, num: int, after: seq<nat>, first: nat)
    requires OldestFirst(before) && ResizedFrom(before, num, after, first)
    ensures OldestGone(before, after)
  {
    var gone := if num <= |before| then |before| - |after| else 0;
    forall i | 0 <= i < |before| ensures before[i] in after <==> gone <= i {
      if num > |before| {
        assert after[..|before|][i] == after[i];
      } else {
        SplitMember(before, gone, before[i]);
        if i < gone { assert before[..gone][i] == before[i]; } else { assert before[gone..][i - gone] == before[i]; }
      }
    }
  }

  /** s without the ids in x, in order. */
  function Without(s: seq<nat>, x: set<nat>): seq<nat> {
    if s == [] then [] else Without(s[..|s| - 1], x) + (if s[|s| - 1] in x then [] else [s[|s| - 1]])
  }

  /** Every market list without the ids in x. */
  function Removed(index: Index, x: set<nat>): Index {
    map m | m in index :: Without(index[m], x)
  }

  lemma RemovedIds(index: Index, x: set<nat>, m: Market)
    ensures Ids(Removed(index, x), m) == Without(Ids(index, m), x)
  {
  }

  lemma {:induction false} WithoutMember(s: seq<nat>, x: set<nat>, id: nat)
    ensures id in Without(s, x) <==> id in s && id !in x
  {
    if s != [] {
      WithoutMember(s[..|s| - 1], x, id);
      assert s == s[..|s| - 1] + [s[|s| - 1]];
    }
  }

  lemma {:induction false} WithoutNone(s: seq<nat>)
    ensures Without(s, {}) == s
  {
    if s != [] { WithoutNone(s[..|s| - 1]); }
  }

  lemma {:induction false} WithoutAbsent(s: seq<nat>, id: nat)
    requires id !in s
    ensures Without(s, {id}) == s
  {
    if s != [] {
      assert s[|s| - 1] in s;
      WithoutAbsent(s[..|s| - 1], id);
    }
  }

  lemma {:induction false} WithoutBoth(s: seq<nat>, x: set<nat>, y: set<nat>)
    ensures Without(Without(s, x), y) == Without(s, x + y)
  {
    if s != [] {
      var p, last := s[..|s| - 1], s[|s| - 1];
      WithoutBoth(p, x, y);
      if last in x {
        assert Without(s, x) == Without(p, x) && Without(s, x + y) == Without(p, x + y);
      } else {
        var w := Without(p, x) + [last];
        assert w[..|w| - 1] == Without(p, x) && w[|w| - 1] == last;
        assert w == Without(s, x);
      }
    }
  }

  lemma {:induction false} WithoutOldestFirst(s: seq<nat>, x: set<nat>)
    requires OldestFirst(s)
    ensures OldestFirst(Without(s, x))
  {
    if s != [] {
      var p, last := s[..|s| - 1], s[|s| - 1];
      WithoutOldestFirst(p, x);
      forall i | 0 <= i < |Without(p, x)| ensures Without(p, x)[i] < last {
        WithoutMember(p, x, Without(p, x)[i]);
      }
    }
  }

  lemma RemoveConsistent(instances: map<nat, Market>, index: Index, next: nat, m: Market, id: nat)
    requires Consistent(instances, index, next) && id in instances && instances[id] == m
    ensures m in index
    ensures Consistent(instances - {id}, index[m := Without(Ids(index, m), {id})], next)
  {
    assert Listed(instances, index, m, id);
    var ix, left := index[m := Without(Ids(index, m), {id})], instances - {id};
    forall k, j ensures Listed(left, ix, k, j) {
      WithoutMember(Ids(index, m), {id}, j);
      assert Listed(instances, index, k, j);
    }
    forall k ensures OldestFirst(Ids(ix, k)) {
      assert OldestFirst(Ids(index, k));
      WithoutOldestFirst(Ids(index, m), {id});
    }
  }
}
