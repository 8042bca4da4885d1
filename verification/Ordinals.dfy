/** The address lists of a log set: the first replicas whose ordinal is not reserved. */
module Ordinals {

  /** The list is the r smallest ordinals that are not reserved, in increasing order. */
  ghost predicate SmallestUnreserved(list: seq<int>, r: int, reserved: seq<int>) {
    && |list| == (if r < 0 then 0 else r)
    && (forall i :: 0 <= i < |list| ==> 0 <= list[i] && list[i] !in reserved)
    && (forall i, j :: 0 <= i < j < |list| ==> list[i] < list[j])
    && (forall x, i :: 0 <= i < |list| && 0 <= x <= list[i] && x !in reserved ==> x in list)
  }

  /** How many entries of the reserved list can still be skipped from ordinal i on. */
  ghost function Ahead(reserved: seq<int>, i: int): nat {
    if reserved == [] then 0
    else (if reserved[0] >= i then 1 else 0) + Ahead(reserved[1..], i)
  }

  lemma {:induction false} AheadDrops(reserved: seq<int>, i: int)
    ensures Ahead(reserved, i + 1) <= Ahead(reserved, i)
    ensures i in reserved ==> Ahead(reserved, i + 1) < Ahead(reserved, i)
  {
    if reserved != [] {
      AheadDrops(reserved[1..], i);
    }
  }

  /** The loop behind both the HAKeeper service addresses and the gossip seeds; it ends for
      every reserved list. */
  method UnreservedOrdinals(r: int, reserved: seq<int>) returns (seeds: seq<int>)
    ensures SmallestUnreserved(seeds, r, reserved)
  {
    seeds := [];
    var i := 0;
    var count := 0;
    while count < r
      invariant 0 <= i && count == |seeds| && (r < 0 ==> count == 0) && (0 <= r ==> count <= r)
      invariant forall k :: 0 <= k < |seeds| ==> 0 <= seeds[k] < i && seeds[k] !in reserved
      invariant forall j, k :: 0 <= j < k < |seeds| ==> seeds[j] < seeds[k]
      invariant forall x :: 0 <= x < i && x !in reserved ==> x in seeds
      decreases (if count < r then r - count else 0) + Ahead(reserved, i)
    {
      AheadDrops(reserved, i);
      if i in reserved {
        i := i + 1;
        continue;
      }
      seeds := seeds + [i];
      count := count + 1;
      i := i + 1;
    }
  }

  /** The specification has one solution. */
  lemma {:induction false} SmallestUnreservedIsUnique(a: seq<int>, b: seq<int>, r: int, reserved: seq<int>, n: nat)
    requires SmallestUnreserved(a, r, reserved) && SmallestUnreserved(b, r, reserved) && n <= |a|
    ensures a[..n] == b[..n]
    decreases n
  {
    if n > 0 {
      SmallestUnreservedIsUnique(a, b, r, reserved, n - 1);
      NextIsNoLarger(a, b, r, reserved, n - 1);
      NextIsNoLarger(b, a, r, reserved, n - 1);
    }
  }

  lemma NextIsNoLarger(a: seq<int>, b: seq<int>, r: int, reserved: seq<int>, n: nat)
    requires SmallestUnreserved(a, r, reserved) && SmallestUnreserved(b, r, reserved) && n < |a| && a[..n] == b[..n]
    ensures a[n] <= b[n]
  {
    forall k | 0 <= k < n ensures a[k] < b[n] {
      assert a[..n][k] == b[..n][k];
    }
    assert b[n] <= a[n] ==> b[n] in a;
  }

  /** Reserving an ordinal of the list takes out that entry and appends one larger ordinal,
      leaving every other entry and its order as they were. */
  lemma ReservingOneShifts(list: seq<int>, next: seq<int>, r: int, reserved: seq<int>, at: nat)
    requires SmallestUnreserved(list, r, reserved) && at < |list|
    requires SmallestUnreserved(next, r, reserved + [list[at]])
    ensures next[..|next| - 1] == list[..at] + list[at + 1..]
    ensures next[|next| - 1] > list[|list| - 1]
  {
    var kept := list[..at] + list[at + 1..];
    var gone := reserved + [list[at]];
    var n := |list| - 1;
    KeptIsSmallest(list, r, reserved, at);
    PrefixIsSmallest(next, r, gone, n);
    SmallestUnreservedIsUnique(next[..n], kept, n, gone, n);
    assert next[..n][..n] == next[..n] && kept[..n] == kept;
    LastIsLarger(list, next, r, reserved, at);
  }

  lemma LastIsLarger(list: seq<int>, next: seq<int>, r: int, reserved: seq<int>, at: nat)
    requires SmallestUnreserved(list, r, reserved) && at < |list|
    requires SmallestUnreserved(next, r, reserved + [list[at]])
    requires next[..|next| - 1] == list[..at] + list[at + 1..]
    ensures next[|next| - 1] > list[|list| - 1]
  {
    var n := |list| - 1;
    forall k | 0 <= k < |list| ensures list[k] != next[n] {
      if k == at {
        assert list[at] in reserved + [list[at]];
      } else {
        var h := if k < at then k else k - 1;
        assert list[k] == (list[..at] + list[at + 1..])[h] == next[..n][h] == next[h];
      }
    }
    assert next[n] !in reserved by { assert next[n] !in reserved + [list[at]]; }
    assert next[n] !in list;
  }

  lemma KeptIsSmallest(list: seq<int>, r: int, reserved: seq<int>, at: nat)
    requires SmallestUnreserved(list, r, reserved) && at < |list|
    ensures SmallestUnreserved(list[..at] + list[at + 1..], |list| - 1, reserved + [list[at]])
  {
    var kept := list[..at] + list[at + 1..];
    var gone := reserved + [list[at]];
    assert forall i :: 0 <= i < |kept| ==> kept[i] == list[if i < at then i else i + 1];
    forall x, i | 0 <= i < |kept| && 0 <= x <= kept[i] && x !in gone
      ensures x in kept
    {
      assert x !in reserved && x in list && x != list[at];
      var k :| 0 <= k < |list| && list[k] == x;
      assert kept[if k < at then k else k - 1] == x;
    }
  }

  lemma PrefixIsSmallest(list: seq<int>, r: int, reserved: seq<int>, n: nat)
    requires SmallestUnreserved(list, r, reserved) && n <= |list|
    ensures SmallestUnreserved(list[..n], n, reserved)
  {
    forall x, i | 0 <= i < n && 0 <= x <= list[..n][i] && x !in reserved
      ensures x in list[..n]
    {
      assert x in list;
      var k :| 0 <= k < |list| && list[k] == x;
      assert k <= i && list[..n][k] == x;
    }
  }
}
