/** Scaling and rollout of a CN claim set. */
module ClaimSet {
  import opened Options
  import opened PodModel
  import opened ClaimOrder
  import opened Sorting

  // ---------- the fleet a claim set sees ----------

  datatype Fleet = Fleet(pending: nat, outdated: nat, updated: nat) {
    function Ready(): nat { outdated + updated }
    function Total(): nat { pending + outdated + updated }
    function Plus(f: Fleet): Fleet { Fleet(pending + f.pending, outdated + f.outdated, updated + f.updated) }

    /** Without n claims, the pending ones first and the up-to-date ones last. */
    function CutBack(n: nat): Fleet
      requires n <= Total()
    {
      if n <= pending then Fleet(pending - n, outdated, updated)
      else if n <= pending + outdated then Fleet(0, outdated - (n - pending), updated)
      else Fleet(0, 0, updated - (n - pending - outdated))
    }
  }

  /** 0 for a claim that is not ready, 1 for an outdated one, 2 for an up-to-date one; three
      more for a migrating one. */
  function Kind(m: Member): int {
    (if m.phase == BoundClaim then 2 else if m.phase == Outdated then 1 else 0) + if m.migrating then 3 else 0
  }

  function Count(s: seq<Member>, kind: int): nat {
    if s == [] then 0 else (if Kind(s[0]) == kind then 1 else 0) + Count(s[1..], kind)
  }

  function Resting(owned: seq<Member>): Fleet { Fleet(Count(owned, 0), Count(owned, 1), Count(owned, 2)) }

  function Moving(owned: seq<Member>): Fleet { Fleet(Count(owned, 3), Count(owned, 4), Count(owned, 5)) }

  function FleetOf(owned: seq<Member>): Fleet { Resting(owned).Plus(Moving(owned)) }

  /** A ready claim has its pod; lost claims are not owned. */
  ghost predicate Placed(owned: seq<Member>) {
    forall m :: m in owned ==> (m.Ready() ==> m.pod.Some?) && m.phase != Lost
  }

  ghost predicate NoneMigrating(owned: seq<Member>) {
    forall m :: m in owned ==> !m.migrating
  }

  lemma {:induction false} CountConcat(a: seq<Member>, b: seq<Member>, kind: int)
    ensures Count(a + b, kind) == Count(a, kind) + Count(b, kind)
  {
    if a == [] {
      assert a + b == b;
    } else {
      assert (a + b)[1..] == a[1..] + b;
      CountConcat(a[1..], b, kind);
    }
  }

  function Without(s: seq<Member>, i: nat): seq<Member>
    requires i < |s|
  {
    s[..i] + s[i + 1..]
  }

  lemma CountWithout(s: seq<Member>, i: nat, kind: int)
    requires i < |s|
    ensures |Without(s, i)| == |s| - 1
    ensures Count(s, kind) == Count([s[i]], kind) + Count(Without(s, i), kind)
    ensures multiset(Without(s, i)) == multiset(s) - multiset{s[i]}
  {
    assert s == s[..i] + ([s[i]] + s[i + 1..]);
    CountConcat(s[..i], [s[i]] + s[i + 1..], kind);
    CountConcat([s[i]], s[i + 1..], kind);
    CountConcat(s[..i], s[i + 1..], kind);
  }

  lemma {:induction false} CountPermuted(a: seq<Member>, b: seq<Member>, kind: int)
    requires multiset(a) == multiset(b)
    ensures Count(a, kind) == Count(b, kind)
    decreases |a|
  {
    SameMembers(a, b);
    if a != [] {
      hide Count, Without;
      var i := Find(b, a[0]);
      CountWithout(a, 0, kind);
      CountWithout(b, i, kind);
      CountPermuted(Without(a, 0), Without(b, i), kind);
    }
  }

  lemma CountSplit(deleted: seq<Member>, kept: seq<Member>, owned: seq<Member>, kind: int)
    requires multiset(deleted) + multiset(kept) == multiset(owned)
    ensures Count(deleted, kind) + Count(kept, kind) == Count(owned, kind)
  {
    CountPermuted(deleted + kept, owned, kind);
    CountConcat(deleted, kept, kind);
  }

  lemma CountNext(s: seq<Member>, i: nat, kind: int)
    requires i < |s|
    ensures Count(s[..i + 1], kind) == Count(s[..i], kind) + if Kind(s[i]) == kind then 1 else 0
  {
    assert s[..i + 1] == s[..i] + [s[i]];
    CountConcat(s[..i], [s[i]], kind);
  }

  lemma {:induction false} CountsAdd(s: seq<Member>)
    ensures Count(s, 0) + Count(s, 1) + Count(s, 2) + Count(s, 3) + Count(s, 4) + Count(s, 5) == |s|
  {
    if s != [] {
      CountsAdd(s[1..]);
      var k := Kind(s[0]);
      assert k == 0 || k == 1 || k == 2 || k == 3 || k == 4 || k == 5;
      hide Kind;
    }
  }

  lemma NoneMoving(s: seq<Member>)
    requires NoneMigrating(s)
    ensures Moving(s) == Fleet(0, 0, 0)
  {
    CountZero(s, 3);
    CountZero(s, 4);
    CountZero(s, 5);
  }

  lemma {:induction false} CountZero(s: seq<Member>, kind: int)
    requires forall m :: m in s ==> Kind(m) != kind
    ensures Count(s, kind) == 0
  {
    if s != [] { CountZero(s[1..], kind); }
  }

  lemma {:induction false} CountFound(s: seq<Member>, kind: int) returns (m: Member)
    requires Count(s, kind) > 0
    ensures m in s && Kind(m) == kind
  {
    if Kind(s[0]) == kind { m := s[0]; } else { m := CountFound(s[1..], kind); }
  }

  // ---------- new claims ----------

  function Min(a: int, b: int): int { if a <= b then a else b }

  function Max(a: int, b: int): int { if a >= b then a else b }

  function Ids(claims: seq<Member>): set<string> {
    set m | m in claims :: m.id
  }

  ghost predicate Distinct(ids: seq<string>) {
    forall i, j :: 0 <= i < j < |ids| ==> ids[i] != ids[j]
  }

  ghost predicate DistinctIds(claims: seq<Member>) {
    forall i, j :: 0 <= i < j < |claims| ==> claims[i].id != claims[j].id
  }

  /** The ids among the draws that are not used yet. */
  function Unused(draws: seq<string>, used: set<string>): set<string> {
    (set d | d in draws) - used
  }

  /** Draws ids at random until there are enough unused ones; with draws that hold too few the
      search does not end, which is `None`. */
  method GenAvailableIds(num: int, used: set<string>, draws: seq<string>) returns (ids: Option<seq<string>>)
    ensures ids.Some? <==> num <= |Unused(draws, used)|
    ensures ids.Some? ==> |ids.value| == Max(num, 0) && Distinct(ids.value)
    ensures ids.Some? ==> forall id :: id in ids.value ==> id in Unused(draws, used)
  {
    hide Unused;
    var found: seq<string> := [];
    var next := 0;
    UnusedFrom(draws, used, 0);
    while |found| < num
      invariant 0 <= next <= |draws| && Distinct(found) && |found| <= Max(num, 0)
      invariant Lists(found, Unused(draws[..next], used))
      decreases |draws| - next
    {
      if next == |draws| {
        assert draws[..next] == draws;
        return None;
      }
      var d := draws[next];
      UnusedNext(draws, used, next);
      if d !in used && d !in found {
        ListsMore(found, Unused(draws[..next], used), d);
        found := found + [d];
      }
      next := next + 1;
    }
    UnusedFrom(draws, used, next);
    return Some(found);
  }

  ghost predicate Lists(ids: seq<string>, all: set<string>) {
    |ids| == |all| && forall id :: id in ids <==> id in all
  }

  lemma ListsMore(ids: seq<string>, all: set<string>, d: string)
    requires Distinct(ids) && Lists(ids, all) && d !in ids
    ensures Distinct(ids + [d]) && Lists(ids + [d], all + {d})
  {
  }

  lemma UnusedNext(draws: seq<string>, used: set<string>, next: nat)
    requires next < |draws|
    ensures var d, before := draws[next], Unused(draws[..next], used);
            Unused(draws[..next + 1], used) == if d in used || d in before then before else before + {d}
  {
    assert draws[..next + 1] == draws[..next] + [draws[next]];
  }

  lemma UnusedFrom(draws: seq<string>, used: set<string>, n: nat)
    requires n <= |draws|
    ensures Unused(draws[..n], used) <= Unused(draws, used)
    ensures |Unused(draws[..n], used)| <= |Unused(draws, used)|
    ensures n == 0 ==> Unused(draws[..n], used) == {}
  {
    var a, b := Unused(draws[..n], used), Unused(draws, used);
    assert a <= b;
    assert b == a + (b - a);
    if n == 0 { assert a == {}; }
  }

  lemma UnusedAreNew(ids: seq<string>, draws: seq<string>, used: set<string>)
    requires forall id :: id in ids ==> id in Unused(draws, used)
    ensures forall id :: id in ids ==> id !in used
  {
  }

  method CollectIds(claims: seq<Member>) returns (ids: set<string>)
    ensures ids == Ids(claims)
  {
    ids := {};
    for i := 0 to |claims|
      invariant ids == Ids(claims[..i])
    {
      assert claims[..i + 1] == claims[..i] + [claims[i]];
      ids := ids + {claims[i].id};
    }
    assert claims[..|claims|] == claims;
  }

  function NewClaim(id: string): Member { Member(id, NoPhase, 0, false, None) }

  function NewClaims(ids: seq<string>): (r: seq<Member>)
    ensures |r| == |ids| && forall i :: 0 <= i < |r| ==> r[i] == NewClaim(ids[i])
  {
    seq(|ids|, i requires 0 <= i < |ids| => NewClaim(ids[i]))
  }

  lemma NewClaimsCount(owned: seq<Member>, ids: seq<string>)
    ensures Resting(owned + NewClaims(ids)) == Resting(owned).(pending := Resting(owned).pending + |ids|)
    ensures Moving(owned + NewClaims(ids)) == Moving(owned)
  {
    var created := NewClaims(ids);
    forall kind | 0 <= kind <= 5
      ensures Count(owned + created, kind) == Count(owned, kind) + Count(created, kind)
    {
      CountConcat(owned, created, kind);
    }
    forall kind | 1 <= kind <= 5
      ensures Count(created, kind) == 0
    {
      CountZero(created, kind);
    }
    CountsAdd(created);
    hide Count;
  }

  lemma NewIdsAreDistinct(owned: seq<Member>, ids: seq<string>)
    requires DistinctIds(owned) && Distinct(ids) && forall id :: id in ids ==> id !in Ids(owned)
    ensures DistinctIds(owned + NewClaims(ids))
  {
    var all := owned + NewClaims(ids);
    forall i, j | 0 <= i < j < |all|
      ensures all[i].id != all[j].id
    {
      if i < |owned| <= j { assert owned[i].id in Ids(owned) && ids[j - |owned|] in ids; }
    }
  }

  // ---------- cutting back ----------

  function NotMigrating(s: seq<Member>): seq<Member> {
    if s == [] then []
    else
      var front := NotMigrating(s[..|s| - 1]);
      if s[|s| - 1].migrating then front else front + [s[|s| - 1]]
  }

  function Migrating(s: seq<Member>): seq<Member> {
    if s == [] then []
    else
      var front := Migrating(s[..|s| - 1]);
      if s[|s| - 1].migrating then front + [s[|s| - 1]] else front
  }

  lemma {:induction false} SplitByMigration(s: seq<Member>)
    ensures multiset(NotMigrating(s)) + multiset(Migrating(s)) == multiset(s)
    ensures |NotMigrating(s)| + |Migrating(s)| == |s|
    ensures NoneMigrating(NotMigrating(s)) && (forall m :: m in Migrating(s) ==> m.migrating)
  {
    if s != [] {
      SplitByMigration(s[..|s| - 1]);
      assert s == s[..|s| - 1] + [s[|s| - 1]];
    }
  }

  lemma {:induction false} RestingCount(s: seq<Member>)
    ensures |NotMigrating(s)| == Resting(s).Total()
  {
    if s != [] {
      RestingCount(s[..|s| - 1]);
      var n := |s| - 1;
      assert s[..n + 1] == s;
      CountNext(s, n, 0);
      CountNext(s, n, 1);
      CountNext(s, n, 2);
    }
  }

  /** What a scale-in deletes and keeps. */
  ghost predicate CutsBack(owned: seq<Member>, deleted: seq<Member>, kept: seq<Member>, count: int) {
    && multiset(deleted) + multiset(kept) == multiset(owned) && |kept| == |owned| - |deleted|
    && NoneMigrating(deleted)
    && |deleted| == Min(Max(count, 0), |NotMigrating(owned)|)
    && forall d, k :: d in deleted && k in kept && !k.migrating ==> ClaimDeletionOrder(d, k) <= 0
  }

  lemma PrefixCutsBack(owned: seq<Member>, cps: seq<Member>, migrating: seq<Member>, n: nat, count: int)
    requires multiset(cps) == multiset(NotMigrating(owned)) && migrating == Migrating(owned)
    requires n == Min(Max(count, 0), |NotMigrating(owned)|) && |cps| == |NotMigrating(owned)|
    requires Ordered(cps, ClaimDeletionOrder) || n == |cps|
    ensures CutsBack(owned, cps[..n], cps[n..] + migrating, count)
  {
    hide ClaimDeletionOrder, Ordered, NotMigrating, Migrating;
    SplitByMigration(owned);
    SameMembers(cps, NotMigrating(owned));
    PrefixComesFirst(cps, n, ClaimDeletionOrder);
    PrefixParts(cps, n, migrating);
    assert NoneMigrating(cps[..n]);
    forall d, k | d in cps[..n] && k in cps[n..] + migrating && !k.migrating
      ensures ClaimDeletionOrder(d, k) <= 0
    {
      assert k in cps[n..];
    }
  }

  lemma PrefixParts(cps: seq<Member>, n: nat, migrating: seq<Member>)
    requires n <= |cps|
    ensures multiset(cps[..n]) + multiset(cps[n..] + migrating) == multiset(cps) + multiset(migrating)
    ensures forall m :: m in cps[..n] ==> m in cps
  {
    assert cps == cps[..n] + cps[n..];
  }

  /** Among claims that do not migrate, those of a smaller kind are deleted first. */
  lemma OrderRespectsKind(a: Member, b: Member)
    requires (a.Ready() ==> a.pod.Some?) && a.phase != Lost && b.phase != Lost && !a.migrating && !b.migrating
    requires ClaimDeletionOrder(a, b) <= 0
    ensures Kind(a) <= Kind(b)
  {
  }

  /** If a claim of some kind is kept, none of a larger kind is deleted. */
  lemma SmallerFirst(owned: seq<Member>, deleted: seq<Member>, kept: seq<Member>, count: int, kind: int)
    requires Placed(owned) && CutsBack(owned, deleted, kept, count) && 0 <= kind < 2 && Count(kept, kind) > 0
    ensures forall larger :: kind < larger <= 5 ==> Count(deleted, larger) == 0
  {
    var k := CountFound(kept, kind);
    SameMembers(deleted + kept, owned);
    assert k in deleted + kept;
    forall larger | kind < larger <= 5
      ensures Count(deleted, larger) == 0
    {
      forall d | d in deleted
        ensures Kind(d) <= kind
      {
        assert d in deleted + kept;
        OrderRespectsKind(d, k);
      }
      CountZero(deleted, larger);
    }
  }

  /** Cutting back takes pending claims before outdated ones and those before up-to-date ones,
      and none that migrates. */
  lemma KeptCounts(owned: seq<Member>, deleted: seq<Member>, kept: seq<Member>, count: int)
    requires Placed(owned) && CutsBack(owned, deleted, kept, count)
    ensures |deleted| <= Resting(owned).Total()
    ensures Resting(kept) == Resting(owned).CutBack(|deleted|) && Moving(kept) == Moving(owned)
  {
    RestingCount(owned);
    CountsAdd(deleted);
    NoneMoving(deleted);
    forall kind | 0 <= kind <= 5
      ensures Count(deleted, kind) + Count(kept, kind) == Count(owned, kind)
    {
      CountSplit(deleted, kept, owned, kind);
    }
    if Count(kept, 0) > 0 { SmallerFirst(owned, deleted, kept, count, 0); }
    if Count(kept, 1) > 0 { SmallerFirst(owned, deleted, kept, count, 1); }
    hide Count, CutsBack, Placed;
    assert forall kind :: 0 <= kind <= 5 ==> Count(deleted, kind) + Count(kept, kind) == Count(owned, kind);
    assert Count(deleted, 0) + Count(kept, 0) == Count(owned, 0) && Count(deleted, 1) + Count(kept, 1) == Count(owned, 1)
           && Count(deleted, 2) + Count(kept, 2) == Count(owned, 2) && Count(deleted, 3) + Count(kept, 3) == Count(owned, 3)
           && Count(deleted, 4) + Count(kept, 4) == Count(owned, 4) && Count(deleted, 5) + Count(kept, 5) == Count(owned, 5);
  }

  // ---------- one scaling step ----------

  /** How many claims a fleet with few enough ready ones should have: one more than wanted
      while outdated ones remain. */
  function Target(f: Fleet, wanted: nat): nat {
    if f.Ready() >= wanted && f.updated < wanted then wanted + 1 else wanted
  }

  /** What one scaling step leaves of the claims at rest and of those that migrate: too many
      ready claims are cut back to the wanted number, as far as claims at rest go; otherwise
      missing claims are created. Surplus claims that are not ready are not deleted. */
  function ScaledParts(rest: Fleet, moving: Fleet, wanted: nat): Fleet {
    var f := rest.Plus(moving);
    if f.Ready() > wanted then rest.CutBack(Min(f.Total() - wanted, rest.Total()))
    else rest.(pending := rest.pending + Max(Target(f, wanted) - f.Total(), 0))
  }

  /** The same with nothing migrating. */
  function Scaled(f: Fleet, wanted: nat): Fleet { ScaledParts(f, Fleet(0, 0, 0), wanted) }

  /** The lists one scaling step can lead to, whatever ids are drawn and however the sort breaks
      ties. */
  ghost predicate ScalesTo(before: seq<Member>, after: seq<Member>, wanted: nat) {
    if FleetOf(before).Ready() > wanted then exists deleted :: CutsTo(before, deleted, after, wanted)
    else exists ids :: |ids| == Max(Target(FleetOf(before), wanted) - |before|, 0) && after == before + NewClaims(ids)
  }

  ghost predicate CutsTo(before: seq<Member>, deleted: seq<Member>, after: seq<Member>, wanted: nat) {
    CutsBack(before, deleted, after, |before| - wanted)
  }

  class OwnedClaims {
    var owned: seq<Member>
    var lost: seq<Member>

    constructor (claims: seq<Member>, gone: seq<Member>)
      ensures owned == claims && lost == gone
    {
      owned, lost := claims, gone;
    }

    /** Deletes the first claims in deletion order, sparing those that migrate. */
    method ScaleIn(count: int) returns (deleted: seq<Member>)
      modifies this`owned
      ensures CutsBack(old(owned), deleted, owned, count)
    {
      hide ClaimDeletionOrder, Ordered, CutsBack;
      var cps: seq<Member>, migrating: seq<Member> := [], [];
      for i := 0 to |owned|
        invariant owned == old(owned)
        invariant cps == NotMigrating(owned[..i]) && migrating == Migrating(owned[..i])
      {
        assert owned[..i + 1][..i] == owned[..i];
        if owned[i].migrating {
          migrating := migrating + [owned[i]];
        } else {
          cps := cps + [owned[i]];
        }
      }
      assert owned[..|owned|] == owned;
      SplitByMigration(owned);
      var n := count;
      if count >= |cps| {
        n := |cps|;
      } else {
        var sorted := SortClaimsToDelete(cps);
        SameMembers(sorted, cps);
        cps := sorted;
      }
      if n < 0 {
        n := 0;
      }
      PrefixCutsBack(owned, cps, migrating, n, count);
      deleted := cps[..n];
      owned := cps[n..] + migrating;
    }

    /** Creates that many claims, none for a negative count, under ids that no owned or lost
        claim has. Without enough unused ids to draw nothing happens. */
    method ScaleOut(count: int, draws: seq<string>) returns (ids: Option<seq<string>>)
      modifies this`owned
      ensures ids.Some? <==> count <= |Unused(draws, Ids(old(owned)) + Ids(lost))|
      ensures ids.None? ==> owned == old(owned)
      ensures ids.Some? ==> |ids.value| == Max(count, 0) && owned == old(owned) + NewClaims(ids.value)
      ensures ids.Some? ==> Distinct(ids.value) && forall id :: id in ids.value ==> id !in Ids(old(owned)) + Ids(lost)
      ensures DistinctIds(old(owned)) ==> DistinctIds(owned)
    {
      hide Unused, Ids;
      var ofOwned := CollectIds(owned);
      var ofLost := CollectIds(lost);
      ids := GenAvailableIds(count, ofOwned + ofLost, draws);
      if ids.None? {
        return;
      }
      UnusedAreNew(ids.value, draws, ofOwned + ofLost);
      for i := 0 to |ids.value|
        invariant owned == old(owned) + NewClaims(ids.value[..i])
      {
        assert NewClaims(ids.value[..i + 1]) == NewClaims(ids.value[..i]) + [NewClaim(ids.value[i])];
        owned := owned + [NewClaim(ids.value[i])];
      }
      assert ids.value[..|ids.value|] == ids.value;
      if DistinctIds(old(owned)) { NewIdsAreDistinct(old(owned), ids.value); }
    }

    /** One scaling step, on any list: too many ready claims lead to a cut back to the wanted
        number of claims, otherwise the list only grows. On a list whose ready claims have
        their pods it does to the counts what `ScaledParts` says, for every way the sort may
        break ties, unless ids run out. */
    method Scale(wanted: nat, draws: seq<string>) returns (deleted: seq<Member>, ok: bool)
      modifies this`owned
      ensures FleetOf(old(owned)).Ready() > wanted ==> ok && CutsBack(old(owned), deleted, owned, |old(owned)| - wanted)
      ensures FleetOf(old(owned)).Ready() <= wanted ==> deleted == [] && old(owned) <= owned
      ensures FleetOf(old(owned)).Ready() <= wanted && ok ==> |owned| == Max(|old(owned)|, Target(FleetOf(old(owned)), wanted))
      ensures !ok ==> owned == old(owned) && |Unused(draws, Ids(owned) + Ids(lost))| <= wanted
      ensures ok ==> ScalesTo(old(owned), owned, wanted)
      ensures Placed(old(owned)) && ok ==>
        Resting(owned) == ScaledParts(Resting(old(owned)), Moving(old(owned)), wanted) && Moving(owned) == Moving(old(owned))
    {
      hide ClaimDeletionOrder, Count, CutsBack, Unused, FleetOf, Resting, Moving, ScaledParts, Placed, ScalesTo;
      deleted, ok := [], true;
      NoneReady(owned[..0]);
      var updated, outdated := 0, 0;
      for i := 0 to |owned|
        invariant owned == old(owned)
        invariant outdated == FleetOf(owned[..i]).outdated && updated == FleetOf(owned[..i]).updated
      {
        ReadyNext(owned, i);
        if owned[i].Ready() {
          if owned[i].phase == BoundClaim {
            updated := updated + 1;
          } else {
            outdated := outdated + 1;
          }
        }
      }
      assert owned[..|owned|] == owned;
      var current := |owned|;
      if updated + outdated > wanted {
        ReadyIsFew(owned);
        deleted := ScaleIn(current - wanted);
        CutIsScaling(old(owned), deleted, owned, wanted);
        if Placed(old(owned)) { CutBackIsScaled(old(owned), deleted, owned, wanted); }
        return;
      }
      var desired := wanted;
      if updated + outdated >= wanted && updated < wanted {
        desired := desired + 1;
      }
      if desired != current {
        var ids := ScaleOut(desired - current, draws);
        ok := ids.Some?;
        if ok {
          GrowthIsScaling(old(owned), ids.value, wanted);
          GrowthIsScaled(old(owned), ids.value, wanted);
        }
      } else {
        assert owned + NewClaims([]) == owned;
        GrowthIsScaling(owned, [], wanted);
        GrowthIsScaled(owned, [], wanted);
      }
    }
  }

  lemma CutIsScaling(owned: seq<Member>, deleted: seq<Member>, kept: seq<Member>, wanted: nat)
    requires FleetOf(owned).Ready() > wanted && CutsBack(owned, deleted, kept, |owned| - wanted)
    ensures ScalesTo(owned, kept, wanted)
  {
    hide CutsBack, FleetOf;
    assert CutsTo(owned, deleted, kept, wanted);
  }

  lemma GrowthIsScaling(owned: seq<Member>, ids: seq<string>, wanted: nat)
    requires FleetOf(owned).Ready() <= wanted && |ids| == Max(Target(FleetOf(owned), wanted) - |owned|, 0)
    ensures ScalesTo(owned, owned + NewClaims(ids), wanted)
  {
    hide FleetOf, Target;
  }

  lemma NoneReady(s: seq<Member>)
    requires s == []
    ensures FleetOf(s) == Fleet(0, 0, 0)
  {
    ReadyIsFew(s);
    hide Resting, Moving;
  }

  lemma ReadyIsFew(s: seq<Member>)
    ensures FleetOf(s).Ready() <= FleetOf(s).Total() == |s|
  {
    CountsAdd(s);
    hide Count;
  }

  lemma CutBackIsScaled(owned: seq<Member>, deleted: seq<Member>, kept: seq<Member>, wanted: nat)
    requires Placed(owned) && FleetOf(owned).Ready() > wanted && CutsBack(owned, deleted, kept, |owned| - wanted)
    ensures Resting(kept) == ScaledParts(Resting(owned), Moving(owned), wanted) && Moving(kept) == Moving(owned)
  {
    RestingCount(owned);
    ReadyIsFew(owned);
    KeptCounts(owned, deleted, kept, |owned| - wanted);
    CutSize(owned, deleted, kept, |owned| - wanted);
    hide Count, CutsBack, NotMigrating, Placed, Resting, Moving;
  }

  lemma GrowthIsScaled(owned: seq<Member>, ids: seq<string>, wanted: nat)
    requires FleetOf(owned).Ready() <= wanted && |ids| == Max(Target(FleetOf(owned), wanted) - |owned|, 0)
    ensures var all := owned + NewClaims(ids);
            Resting(all) == ScaledParts(Resting(owned), Moving(owned), wanted) && Moving(all) == Moving(owned)
  {
    ReadyIsFew(owned);
    NewClaimsCount(owned, ids);
    hide Count, Resting, Moving;
  }

  lemma CutSize(owned: seq<Member>, deleted: seq<Member>, kept: seq<Member>, count: int)
    requires CutsBack(owned, deleted, kept, count) && count >= 0
    ensures |deleted| == Min(count, |NotMigrating(owned)|)
  {
  }

  lemma ReadyNext(s: seq<Member>, i: nat)
    requires i < |s|
    ensures FleetOf(s[..i + 1]).outdated == FleetOf(s[..i]).outdated + if s[i].phase == Outdated then 1 else 0
    ensures FleetOf(s[..i + 1]).updated == FleetOf(s[..i]).updated + if s[i].phase == BoundClaim then 1 else 0
  {
    CountNext(s, i, 1);
    CountNext(s, i, 2);
    CountNext(s, i, 4);
    CountNext(s, i, 5);
    hide Count;
  }

  /** With claims migrating, a cut back may leave too few ready claims. It leaves enough if and
      only if no migrating claim is pending, or the pending claims at rest suffice for the
      cut, or the migrating claims alone are ready enough. */
  lemma ReadyFloorExactly(rest: Fleet, moving: Fleet, wanted: nat)
    requires rest.Plus(moving).Ready() > wanted
    ensures ScaledParts(rest, moving, wanted).Plus(moving).Ready() >= wanted <==>
            || moving.pending == 0
            || rest.Plus(moving).Total() - wanted <= rest.pending
            || moving.Ready() >= wanted
  {
  }

  /** A scaling step, on any list whose ready claims have their pods, by its counts; new claims
      are not ready, so the ready claims still have theirs. */
  lemma ScalesToCounts(before: seq<Member>, after: seq<Member>, wanted: nat)
    requires Placed(before) && ScalesTo(before, after, wanted)
    ensures Resting(after) == ScaledParts(Resting(before), Moving(before), wanted) && Moving(after) == Moving(before)
    ensures Placed(after) && (NoneMigrating(before) ==> NoneMigrating(after))
  {
    hide Count, CutsBack, FleetOf, Resting, Moving, ScaledParts, Target;
    if FleetOf(before).Ready() > wanted {
      var deleted :| CutsTo(before, deleted, after, wanted);
      CutBackIsScaled(before, deleted, after, wanted);
      KeptAreOwned(before, deleted, after, |before| - wanted);
    } else {
      var ids :| |ids| == Max(Target(FleetOf(before), wanted) - |before|, 0) && after == before + NewClaims(ids);
      GrowthIsScaled(before, ids, wanted);
    }
  }

  lemma KeptAreOwned(owned: seq<Member>, deleted: seq<Member>, kept: seq<Member>, count: int)
    requires CutsBack(owned, deleted, kept, count)
    ensures forall m :: m in kept ==> m in owned
  {
    SameMembers(deleted + kept, owned);
    assert forall m :: m in kept ==> m in deleted + kept;
  }

  /** What keeps enough ready claims in a cut back, on the list. */
  ghost predicate FloorHolds(owned: seq<Member>, wanted: nat) {
    Moving(owned).pending == 0 || |owned| - wanted <= Resting(owned).pending || Moving(owned).Ready() >= wanted
  }

  /** Whatever a cut back deletes, it leaves enough ready claims exactly if that holds. */
  lemma ReadyFloorOnLists(owned: seq<Member>, after: seq<Member>, wanted: nat)
    requires Placed(owned) && FleetOf(owned).Ready() > wanted && ScalesTo(owned, after, wanted)
    ensures FleetOf(after).Ready() >= wanted <==> FloorHolds(owned, wanted)
  {
    hide Count, ScalesTo, Resting, Moving, Placed, ScaledParts, NoneMigrating;
    ScalesToCounts(owned, after, wanted);
    ReadyIsFew(owned);
    ReadyFloorExactly(Resting(owned), Moving(owned), wanted);
  }

  /** It does not hold for two ready claims at rest and a pending one that migrates, if one is
      wanted: no cut back leaves a ready claim. */
  lemma ReadyFloorBreaks(a: Member, b: Member, m: Member, owned: seq<Member>, after: seq<Member>, wanted: nat)
    requires Kind(a) == 2 && Kind(b) == 2 && Kind(m) == 3 && a.pod.Some? && b.pod.Some? && m.phase != Lost
    requires owned == [a, b, m] && wanted == 1 && ScalesTo(owned, after, wanted)
    ensures FleetOf(owned).Ready() > wanted && !FloorHolds(owned, wanted)
    ensures FleetOf(after).Ready() < wanted
  {
    hide ScalesTo, Placed, Kind, FleetOf, FloorHolds;
    ThreeClaims(a, b, m, owned, wanted);
    ReadyFloorOnLists(owned, after, wanted);
  }

  lemma ThreeClaims(a: Member, b: Member, m: Member, owned: seq<Member>, wanted: nat)
    requires Kind(a) == 2 && Kind(b) == 2 && Kind(m) == 3 && a.pod.Some? && b.pod.Some? && m.phase != Lost
    requires owned == [a, b, m] && wanted == 1
    ensures Placed(owned) && FleetOf(owned).Ready() > wanted && !FloorHolds(owned, wanted)
  {
    CountThree(a, b, m, 0);
    CountThree(a, b, m, 1);
    CountThree(a, b, m, 2);
    CountThree(a, b, m, 3);
    CountThree(a, b, m, 4);
    CountThree(a, b, m, 5);
    hide Count;
  }

  lemma CountThree(a: Member, b: Member, c: Member, kind: int)
    ensures Count([a, b, c], kind) == (if Kind(a) == kind then 1 else 0) + (if Kind(b) == kind then 1 else 0) + if Kind(c) == kind then 1 else 0
  {
    hide Kind;
    CountNext([a, b, c], 0, kind);
    CountNext([a, b, c], 1, kind);
    CountNext([a, b, c], 2, kind);
    assert [a, b, c][..0] == [] && [a, b, c][..3] == [a, b, c];
  }

  // ---------- rollout ----------

  /** Some pending claims become Bound: as many as `k` says, but at least one if there is one. */
  function BindSome(f: Fleet, k: nat): Fleet {
    var n := if f.pending == 0 then 0 else if k == 0 then 1 else if k > f.pending then f.pending else k;
    Fleet(f.pending - n, f.outdated, f.updated + n)
  }

  function Round(f: Fleet, wanted: nat, k: nat): Fleet { BindSome(Scaled(f, wanted), k) }

  /** One round for each entry of `ks`. */
  function Rounds(f: Fleet, wanted: nat, ks: seq<nat>): Fleet
    decreases |ks|
  {
    if ks == [] then f else Rounds(Round(f, wanted, ks[0]), wanted, ks[1..])
  }

  /** Scaling never takes the ready claims below the wanted number, creates no claim past one
      more than wanted, and never adds an outdated one. */
  lemma ScalingIsSafe(f: Fleet, wanted: nat)
    ensures f.Ready() >= wanted ==> Scaled(f, wanted).Ready() >= wanted
    ensures f.Ready() < wanted ==> Scaled(f, wanted).Ready() == f.Ready()
    ensures Scaled(f, wanted).Total() > f.Total() ==> Scaled(f, wanted).Total() <= wanted + 1
    ensures Scaled(f, wanted).outdated <= f.outdated
  {
  }

  /** How far a fleet is from rolled out; the outdated claims weigh most. */
  function Distance(f: Fleet, wanted: nat): nat {
    4 * f.outdated
    + (if f.Ready() < wanted then 4 * (wanted - f.Ready()) + 3
       else if f.Ready() > wanted then 1
       else if f.outdated > 0 || f.pending > 0 then 2
       else 0)
  }

  lemma RoundApproaches(f: Fleet, wanted: nat, k: nat)
    requires f != Fleet(0, 0, wanted)
    ensures Distance(Round(f, wanted, k), wanted) < Distance(f, wanted)
  {
    var s := Scaled(f, wanted);
    if f.Ready() < wanted {
      assert s.pending > 0 && s.Ready() == f.Ready();
    } else if f.Ready() == wanted {
      assert s.pending > 0 && s.outdated == f.outdated;
    } else {
      assert s.pending == 0 && s.Ready() == wanted && (f.outdated > 0 ==> s.outdated < f.outdated);
    }
  }

  lemma {:induction false} StaysRolledOut(wanted: nat, ks: seq<nat>)
    ensures Rounds(Fleet(0, 0, wanted), wanted, ks) == Fleet(0, 0, wanted)
    decreases |ks|
  {
    if ks != [] { StaysRolledOut(wanted, ks[1..]); }
  }

  /** From any fleet at all, alternating scaling with claims becoming Bound, however many at a
      time, reaches exactly the wanted number of up-to-date claims and nothing else, and stays
      there. */
  lemma {:induction false} RolloutConverges(f: Fleet, wanted: nat, ks: seq<nat>)
    requires |ks| >= Distance(f, wanted)
    ensures Rounds(f, wanted, ks) == Fleet(0, 0, wanted)
    decreases |ks|
  {
    if f == Fleet(0, 0, wanted) {
      StaysRolledOut(wanted, ks);
    } else {
      RoundApproaches(f, wanted, ks[0]);
      RolloutConverges(Round(f, wanted, ks[0]), wanted, ks[1..]);
    }
  }

  /** All along such a rollout the ready claims, once as many as wanted, never become fewer,
      and the claims never become more than they were or one past the wanted number. */
  lemma {:induction false} RolloutIsSafe(f: Fleet, wanted: nat, ks: seq<nat>)
    ensures f.Ready() >= wanted ==> Rounds(f, wanted, ks).Ready() >= wanted
    ensures Rounds(f, wanted, ks).Total() <= if f.Total() > wanted + 1 then f.Total() else wanted + 1
    decreases |ks|
  {
    if ks != [] {
      ScalingIsSafe(f, wanted);
      RolloutIsSafe(Round(f, wanted, ks[0]), wanted, ks[1..]);
    }
  }

  // ---------- rollout of a list of claims ----------

  /** The claim gets its pod. */
  ghost predicate BecomesBound(before: Member, after: Member) {
    Kind(before) == 0 && after == before.(phase := BoundClaim, pod := after.pod) && after.pod.Some?
  }

  /** Some pending claims become Bound, at least one if there is one. */
  ghost predicate Binds(before: seq<Member>, after: seq<Member>) {
    && |before| == |after|
    && (forall i :: 0 <= i < |before| ==> after[i] == before[i] || BecomesBound(before[i], after[i]))
    && (Count(before, 0) > 0 ==> Count(after, 0) < Count(before, 0))
  }

  lemma {:induction false} BindingCounts(before: seq<Member>, after: seq<Member>)
    requires |before| == |after|
    requires forall i :: 0 <= i < |before| ==> after[i] == before[i] || BecomesBound(before[i], after[i])
    ensures Count(after, 0) <= Count(before, 0) && Count(after, 1) == Count(before, 1)
    ensures Count(after, 2) == Count(before, 2) + (Count(before, 0) - Count(after, 0))
  {
    if before != [] { BindingCounts(before[1..], after[1..]); }
  }

  /** Binding does to the counts what `BindSome` says. */
  lemma BindsIsBindSome(before: seq<Member>, after: seq<Member>) returns (k: nat)
    requires Binds(before, after) && Placed(before) && NoneMigrating(before)
    ensures FleetOf(after) == BindSome(FleetOf(before), k)
    ensures Placed(after) && NoneMigrating(after)
  {
    BindingCounts(before, after);
    BindingKeepsPlaced(before, after);
    hide Count, Binds;
    NoneMoving(before);
    NoneMoving(after);
    k := Count(before, 0) - Count(after, 0);
  }

  lemma BindingKeepsPlaced(before: seq<Member>, after: seq<Member>)
    requires Binds(before, after) && Placed(before) && NoneMigrating(before)
    ensures Placed(after) && NoneMigrating(after) && (Count(before, 0) > 0 ==> Count(after, 0) < Count(before, 0))
  {
    hide Count;
    forall m | m in after
      ensures (m.Ready() ==> m.pod.Some?) && m.phase != Lost && !m.migrating
    {
      var i :| 0 <= i < |after| && after[i] == m;
      assert before[i] in before;
    }
  }

  /** `lists[i]` after i rounds of a scaling step and claims becoming Bound. */
  ghost predicate IsRollout(lists: seq<seq<Member>>, wanted: nat) {
    && lists != [] && Placed(lists[0]) && NoneMigrating(lists[0])
    && forall i :: 0 <= i < |lists| - 1 ==> exists scaled :: ScalesTo(lists[i], scaled, wanted) && Binds(scaled, lists[i + 1])
  }

  lemma ListRound(before: seq<Member>, scaled: seq<Member>, after: seq<Member>, wanted: nat) returns (k: nat)
    requires Placed(before) && NoneMigrating(before) && ScalesTo(before, scaled, wanted) && Binds(scaled, after)
    ensures Placed(after) && NoneMigrating(after) && FleetOf(after) == Round(FleetOf(before), wanted, k)
  {
    hide Count, Resting, Moving, ScaledParts, ScalesTo, Binds, Placed, NoneMigrating, BindSome;
    ScalesToCounts(before, scaled, wanted);
    NoneMoving(before);
    NoneMoving(scaled);
    k := BindsIsBindSome(scaled, after);
  }

  /** The counts of a list in rollout run through the rounds of its fleet. */
  lemma {:induction false} RolloutCounts(lists: seq<seq<Member>>, wanted: nat, i: nat) returns (ks: seq<nat>)
    requires IsRollout(lists, wanted) && i < |lists|
    ensures |ks| == i && FleetOf(lists[i]) == Rounds(FleetOf(lists[0]), wanted, ks)
    ensures Placed(lists[i]) && NoneMigrating(lists[i])
  {
    if i == 0 {
      ks := [];
    } else {
      ks := RolloutCounts(lists, wanted, i - 1);
      var scaled :| ScalesTo(lists[i - 1], scaled, wanted) && Binds(scaled, lists[i - 1 + 1]);
      var k := ListRound(lists[i - 1], scaled, lists[i], wanted);
      hide FleetOf, ScalesTo, Binds, Placed, NoneMigrating;
      OneMoreRound(FleetOf(lists[0]), wanted, ks, k);
      ks := ks + [k];
    }
  }

  lemma {:induction false} OneMoreRound(f: Fleet, wanted: nat, ks: seq<nat>, k: nat)
    ensures Rounds(f, wanted, ks + [k]) == Round(Rounds(f, wanted, ks), wanted, k)
    decreases |ks|
  {
    hide Round;
    if ks == [] {
      assert [k][1..] == [];
      assert ks + [k] == [k];
    } else {
      assert (ks + [k])[1..] == ks[1..] + [k];
      OneMoreRound(Round(f, wanted, ks[0]), wanted, ks[1..], k);
    }
  }

  /** Rollout of a claim set, on its claims: starting from any list without migrating claims
      whose ready claims have pods, ready claims once enough stay enough, the list never
      grows past what it was or one more than wanted, and after enough rounds it holds
      exactly the wanted number of claims, all of them up to date. */
  lemma ClaimSetRollsOut(lists: seq<seq<Member>>, wanted: nat, i: nat)
    requires IsRollout(lists, wanted) && i < |lists|
    ensures FleetOf(lists[0]).Ready() >= wanted ==> FleetOf(lists[i]).Ready() >= wanted
    ensures |lists[i]| <= Max(|lists[0]|, wanted + 1)
    ensures i >= Distance(FleetOf(lists[0]), wanted) ==>
      |lists[i]| == wanted && forall m :: m in lists[i] ==> m.phase == BoundClaim && m.pod.Some?
  {
    hide IsRollout, FleetOf, Rounds, Distance, Placed, NoneMigrating;
    var ks := RolloutCounts(lists, wanted, i);
    RolloutIsSafe(FleetOf(lists[0]), wanted, ks);
    ReadyIsFew(lists[0]);
    ReadyIsFew(lists[i]);
    if i >= Distance(FleetOf(lists[0]), wanted) {
      RolloutConverges(FleetOf(lists[0]), wanted, ks);
      RolledOut(lists[i], wanted);
    }
  }

  lemma RolledOut(s: seq<Member>, wanted: nat)
    requires NoneMigrating(s) && Placed(s) && FleetOf(s) == Fleet(0, 0, wanted)
    ensures |s| == wanted && forall m :: m in s ==> m.phase == BoundClaim && m.pod.Some?
  {
    ReadyIsFew(s);
    hide Count;
    AllUpdated(s);
  }

  lemma {:induction false} AllUpdated(s: seq<Member>)
    requires NoneMigrating(s) && Count(s, 0) == 0 && Count(s, 1) == 0
    ensures forall m :: m in s ==> m.phase == BoundClaim
  {
    if s != [] { AllUpdated(s[1..]); }
  }
}
