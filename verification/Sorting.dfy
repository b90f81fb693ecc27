/** Python's sorted() with a key: a stable sort by a total preorder. */
module Sorting {

  ghost predicate TotalPreorder<T(!new)>(le: (T, T) -> bool) {
    && (forall a, b :: le(a, b) || le(b, a))
    && (forall a, b, c :: le(a, b) && le(b, c) ==> le(a, c))
  }

  ghost predicate Ordered<T>(s: seq<T>, le: (T, T) -> bool) {
    forall i, j :: 0 <= i < j < |s| ==> le(s[i], s[j])
  }

  /** Puts x behind every element that is at or before it. */
  function Insert<T>(s: seq<T>, x: T, le: (T, T) -> bool): (r: seq<T>)
    ensures |r| == |s| + 1
  {
    if s == [] || le(s[|s| - 1], x) then s + [x] else Insert(s[..|s| - 1], x, le) + [s[|s| - 1]]
  }

  function SortBy<T>(s: seq<T>, le: (T, T) -> bool): (r: seq<T>)
    ensures |r| == |s|
  {
    if s == [] then [] else Insert(SortBy(s[..|s| - 1], le), s[|s| - 1], le)
  }

  lemma {:induction false} InsertMultiset<T>(s: seq<T>, x: T, le: (T, T) -> bool)
    ensures multiset(Insert(s, x, le)) == multiset(s) + multiset{x}
  {
    if s != [] && !le(s[|s| - 1], x) {
      InsertMultiset(s[..|s| - 1], x, le);
      assert s == s[..|s| - 1] + [s[|s| - 1]];
    }
  }

  lemma {:induction false} InsertOrdered<T(!new)>(s: seq<T>, x: T, le: (T, T) -> bool)
    requires TotalPreorder(le) && Ordered(s, le)
    ensures Ordered(Insert(s, x, le), le)
  {
    var r := Insert(s, x, le);
    if s == [] || le(s[|s| - 1], x) {
      forall i | 0 <= i < |s| ensures le(r[i], x) {
        assert i < |s| - 1 ==> le(s[i], s[|s| - 1]);
      }
    } else {
      var p, last := s[..|s| - 1], s[|s| - 1];
      InsertOrdered(p, x, le);
      InsertMultiset(p, x, le);
      forall i | 0 <= i < |r| - 1 ensures le(r[i], last) {
        assert r[i] in multiset(Insert(p, x, le));
        if r[i] != x {
          var j :| 0 <= j < |p| && p[j] == r[i];
          assert le(s[j], s[|s| - 1]);
        }
      }
    }
  }

  /** The result holds exactly the given elements. */
  lemma {:induction false} SortByMultiset<T>(s: seq<T>, le: (T, T) -> bool)
    ensures multiset(SortBy(s, le)) == multiset(s)
  {
    if s != [] {
      var p, x := s[..|s| - 1], s[|s| - 1];
      SortByMultiset(p, le);
      InsertMultiset(SortBy(p, le), x, le);
      assert s == p + [x];
    }
  }

  /** And it is ordered. */
  lemma {:induction false} SortByCorrect<T(!new)>(s: seq<T>, le: (T, T) -> bool)
    requires TotalPreorder(le)
    ensures Ordered(SortBy(s, le), le)
    ensures multiset(SortBy(s, le)) == multiset(s)
  {
    SortByMultiset(s, le);
    if s != [] {
      var p, x := s[..|s| - 1], s[|s| - 1];
      SortByCorrect(p, le);
      InsertOrdered(SortBy(p, le), x, le);
    }
  }

  lemma SortByMember<T>(s: seq<T>, le: (T, T) -> bool, x: T)
    ensures x in SortBy(s, le) <==> x in s
  {
    SortByMultiset(s, le);
    assert x in multiset(SortBy(s, le)) <==> x in multiset(s);
  }

  ghost function SumOf<T>(s: seq<T>, f: T -> real): real {
    if s == [] then 0.0 else SumOf(s[..|s| - 1], f) + f(s[|s| - 1])
  }

  lemma {:induction false} InsertSum<T>(s: seq<T>, x: T, le: (T, T) -> bool, f: T -> real)
    ensures SumOf(Insert(s, x, le), f) == SumOf(s, f) + f(x)
  {
    var r := Insert(s, x, le);
    if s == [] || le(s[|s| - 1], x) {
      assert r[..|s|] == s;
    } else {
      InsertSum(s[..|s| - 1], x, le, f);
      assert r[..|s|] == Insert(s[..|s| - 1], x, le);
    }
  }

  /** Sorting does not change a sum. */
  lemma {:induction false} SortBySum<T>(s: seq<T>, le: (T, T) -> bool, f: T -> real)
    ensures SumOf(SortBy(s, le), f) == SumOf(s, f)
  {
    if s != [] {
      SortBySum(s[..|s| - 1], le, f);
      InsertSum(SortBy(s[..|s| - 1], le), s[|s| - 1], le, f);
    }
  }
}
