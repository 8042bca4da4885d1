/** Sorting by a comparator: what the controllers rely on, for any sort that meets it. */
module Sorting {

  ghost predicate TotalPreorder<T(!new)>(cmp: (T, T) -> int) {
    && (forall a, b :: cmp(a, b) < 0 <==> cmp(b, a) > 0)
    && (forall a, b, c :: cmp(a, b) <= 0 && cmp(b, c) <= 0 ==> cmp(a, c) <= 0)
  }

  ghost predicate Ordered<T>(s: seq<T>, cmp: (T, T) -> int) {
    forall i, j :: 0 <= i < j < |s| ==> cmp(s[i], s[j]) <= 0
  }

  function Insert<T>(x: T, s: seq<T>, cmp: (T, T) -> int): (r: seq<T>)
    ensures multiset(r) == multiset(s) + multiset{x}
  {
    if s == [] then [x]
    else if cmp(x, s[0]) <= 0 then [x] + s
    else
      assert s == [s[0]] + s[1..];
      [s[0]] + Insert(x, s[1..], cmp)
  }

  lemma {:induction false} InsertOrders<T(!new)>(x: T, s: seq<T>, cmp: (T, T) -> int)
    requires TotalPreorder(cmp) && Ordered(s, cmp)
    ensures Ordered(Insert(x, s, cmp), cmp)
  {
    if s == [] {
    } else if cmp(x, s[0]) <= 0 {
      forall y | y in s
        ensures cmp(x, y) <= 0
      {
        var j := Find(s, y);
        Transitive(x, s[0], y, cmp);
      }
      OrderedCons(x, s, cmp);
    } else {
      hide Insert;
      InsertOrders(x, s[1..], cmp);
      InsertStep(x, s, cmp);
      Transitive(s[0], x, x, cmp);
      hide TotalPreorder;
      HeadStaysFirst(x, s, Insert(x, s[1..], cmp), cmp);
    }
  }

  lemma InsertStep<T>(x: T, s: seq<T>, cmp: (T, T) -> int)
    requires s != [] && cmp(x, s[0]) > 0
    ensures Insert(x, s, cmp) == [s[0]] + Insert(x, s[1..], cmp)
  {
  }

  lemma HeadStaysFirst<T>(x: T, s: seq<T>, rest: seq<T>, cmp: (T, T) -> int)
    requires s != [] && Ordered(s, cmp) && cmp(s[0], x) <= 0 && Ordered(rest, cmp)
    requires multiset(rest) == multiset(s[1..]) + multiset{x}
    ensures Ordered([s[0]] + rest, cmp)
  {
    SameMembers(rest, s[1..] + [x]);
    forall y | y in rest
      ensures cmp(s[0], y) <= 0
    {
      if y != x {
        var k := Find(s[1..], y);
        assert s[k + 1] == y;
      }
    }
    OrderedCons(s[0], rest, cmp);
  }

  lemma OrderedCons<T>(x: T, s: seq<T>, cmp: (T, T) -> int)
    requires Ordered(s, cmp) && forall y :: y in s ==> cmp(x, y) <= 0
    ensures Ordered([x] + s, cmp)
  {
  }

  lemma Transitive<T(!new)>(a: T, b: T, c: T, cmp: (T, T) -> int)
    requires TotalPreorder(cmp)
    ensures cmp(a, b) < 0 <==> cmp(b, a) > 0
    ensures cmp(a, b) <= 0 && cmp(b, c) <= 0 ==> cmp(a, c) <= 0
    ensures cmp(a, a) == 0
  {
  }

  lemma SameMembers<T>(a: seq<T>, b: seq<T>)
    requires multiset(a) == multiset(b)
    ensures |a| == |b|
    ensures forall x :: x in a <==> x in b
  {
    assert |multiset(a)| == |a| && |multiset(b)| == |b|;
    assert forall x :: (x in a <==> x in multiset(a)) && (x in b <==> x in multiset(b));
  }

  lemma NothingToOrder<T>(cmp: (T, T) -> int)
    ensures Ordered([], cmp)
  {
  }

  method SortBy<T(!new)>(s: seq<T>, cmp: (T, T) -> int) returns (r: seq<T>)
    requires TotalPreorder(cmp)
    ensures multiset(r) == multiset(s) && |r| == |s| && Ordered(r, cmp)
  {
    hide Ordered, TotalPreorder, Insert;
    NothingToOrder(cmp);
    r := [];
    for i := 0 to |s|
      invariant multiset(r) == multiset(s[..i]) && Ordered(r, cmp)
    {
      InsertOrders(s[i], r, cmp);
      r := Insert(s[i], r, cmp);
      assert s[..i + 1] == s[..i] + [s[i]];
    }
    assert s[..|s|] == s;
    SameMembers(r, s);
  }

  /** A prefix of a sorted list holds nothing that comes after anything left out. */
  lemma PrefixComesFirst<T>(s: seq<T>, n: nat, cmp: (T, T) -> int)
    requires n <= |s| && (Ordered(s, cmp) || n == |s|)
    ensures multiset(s[..n]) + multiset(s[n..]) == multiset(s)
    ensures forall d, k :: d in s[..n] && k in s[n..] ==> cmp(d, k) <= 0
  {
    assert s == s[..n] + s[n..];
    forall d, k | d in s[..n] && k in s[n..]
      ensures cmp(d, k) <= 0
    {
      var i := Find(s[..n], d);
      var j := Find(s[n..], k);
      assert s[i] == d && s[n + j] == k;
    }
  }

  lemma Find<T>(s: seq<T>, x: T) returns (i: nat)
    requires x in s
    ensures i < |s| && s[i] == x
  {
    i :| 0 <= i < |s| && s[i] == x;
  }

  // ---------- lexicographic keys ----------

  predicate LexLess(a: seq<int>, b: seq<int>) {
    b != [] && (a == [] || a[0] < b[0] || (a[0] == b[0] && LexLess(a[1..], b[1..])))
  }

  lemma {:induction false} LexCompare(a: seq<int>, b: seq<int>, n: nat)
    requires n < |a| && n < |b| && a[..n] == b[..n] && a[n] != b[n]
    ensures LexLess(a, b) <==> a[n] < b[n]
    decreases n
  {
    if n > 0 {
      assert a[0] == a[..n][0] == b[..n][0] == b[0];
      assert a[1..][..n - 1] == a[..n][1..] && b[1..][..n - 1] == b[..n][1..];
      LexCompare(a[1..], b[1..], n - 1);
    }
  }

  lemma {:induction false} LexIrreflexive(a: seq<int>)
    ensures !LexLess(a, a)
  {
    if a != [] { LexIrreflexive(a[1..]); }
  }
}
