/** Store health as a log set observes it, and the automatic eviction built on it. */
module Failover {

  datatype StorePhase = Up | Down

  /** `since` is the last transition time. */
  datatype Store = Store(pod: string, phase: StorePhase, since: int)

  datatype PodView = PodView(name: string, available: bool)

  datatype Status = Status(available: seq<Store>, failed: seq<Store>)

  // ---------- one observation ----------

  /** Stores by pod name, later entries overwriting earlier ones. */
  function Index(stores: seq<Store>): map<string, Store> {
    if stores == [] then map[]
    else Index(stores[..|stores| - 1])[stores[|stores| - 1].pod := stores[|stores| - 1]]
  }

  function Previous(s: Status): map<string, Store> {
    Index(s.failed) + Index(s.available)
  }

  function Judge(previous: map<string, Store>, pod: PodView, now: int): Store {
    var phase := if pod.available then Up else Down;
    if pod.name in previous && previous[pod.name].phase == phase
    then Store(pod.name, phase, previous[pod.name].since)
    else Store(pod.name, phase, now)
  }

  function Judged(previous: map<string, Store>, pods: seq<PodView>, now: int, phase: StorePhase): seq<Store> {
    if pods == [] then []
    else
      var front := Judged(previous, pods[..|pods| - 1], now, phase);
      var last := Judge(previous, pods[|pods| - 1], now);
      if last.phase == phase then front + [last] else front
  }

  function Collect(s: Status, pods: seq<PodView>, now: int): Status {
    Status(Judged(Previous(s), pods, now, Up), Judged(Previous(s), pods, now, Down))
  }

  class FailoverStatus {
    var available: seq<Store>
    var failed: seq<Store>

    function Value(): Status
      reads this
    {
      Status(available, failed)
    }

    constructor ()
      ensures Value() == Status([], [])
    {
      available, failed := [], [];
    }

    method CollectStoreStatus(pods: seq<PodView>, now: int)
      modifies this
      ensures Value() == Collect(old(Value()), pods, now)
    {
      var previous: map<string, Store> := map[];
      for i := 0 to |failed|
        invariant previous == Index(failed[..i])
      {
        assert failed[..i + 1][..i] == failed[..i];
        previous := previous[failed[i].pod := failed[i]];
      }
      assert failed[..|failed|] == failed;
      for i := 0 to |available|
        invariant previous == Index(failed) + Index(available[..i])
      {
        assert available[..i + 1][..i] == available[..i];
        previous := previous[available[i].pod := available[i]];
      }
      assert available[..|available|] == available;
      var ups: seq<Store>, downs: seq<Store> := [], [];
      for i := 0 to |pods|
        invariant ups == Judged(previous, pods[..i], now, Up)
        invariant downs == Judged(previous, pods[..i], now, Down)
      {
        assert pods[..i + 1][..i] == pods[..i];
        var store := Store(pods[i].name, Up, now);
        if !pods[i].available {
          store := store.(phase := Down);
        }
        if pods[i].name in previous && previous[pods[i].name].phase == store.phase {
          store := store.(since := previous[pods[i].name].since);
        }
        if store.phase == Up {
          ups := ups + [store];
        } else {
          downs := downs + [store];
        }
      }
      assert pods[..|pods|] == pods;
      available, failed := ups, downs;
    }

    /** The failed stores that have been so for at least the timeout, in order. */
    method StoresFailedFor(now: int, timeout: int) returns (stores: seq<Store>)
      ensures stores == FailedFor(failed, now, timeout)
    {
      stores := [];
      for i := 0 to |failed|
        invariant stores == FailedFor(failed[..i], now, timeout)
      {
        assert failed[..i + 1][..i] == failed[..i];
        if now - failed[i].since >= timeout {
          stores := stores + [failed[i]];
        }
      }
      assert failed[..|failed|] == failed;
    }
  }

  function FailedFor(failed: seq<Store>, now: int, timeout: int): (r: seq<Store>)
    ensures forall x :: x in r <==> x in failed && now - x.since >= timeout
  {
    if failed == [] then []
    else
      var n := |failed| - 1;
      assert failed == failed[..n] + [failed[n]];
      var front := FailedFor(failed[..n], now, timeout);
      if now - failed[n].since >= timeout then front + [failed[n]] else front
  }

  // ---------- what the transition time means ----------

  ghost predicate UniqueNames(pods: seq<PodView>) {
    forall i, j :: 0 <= i < j < |pods| ==> pods[i].name != pods[j].name
  }

  ghost predicate Names(pods: seq<PodView>, name: string) {
    exists i :: 0 <= i < |pods| && pods[i].name == name
  }

  lemma IndexNext(stores: seq<Store>, last: Store)
    ensures Index(stores + [last]) == Index(stores)[last.pod := last]
  {
    assert (stores + [last])[..|stores|] == stores;
  }

  /** What the index says of a pod: its judgement, if it is of the phase. */
  ghost predicate IndexedAs(index: map<string, Store>, x: Store, phase: StorePhase) {
    if x.phase == phase then x.pod in index && index[x.pod] == x else x.pod !in index
  }

  lemma JudgedNext(previous: map<string, Store>, pods: seq<PodView>, now: int, phase: StorePhase)
    requires pods != []
    ensures var front, last := Judged(previous, pods[..|pods| - 1], now, phase), Judge(previous, pods[|pods| - 1], now);
            Judged(previous, pods, now, phase) == if last.phase == phase then front + [last] else front
  {
  }

  lemma JudgeNames(previous: map<string, Store>, pod: PodView, now: int)
    ensures Judge(previous, pod, now).pod == pod.name
  {
  }

  lemma {:induction false} NotIndexed(previous: map<string, Store>, pods: seq<PodView>, now: int, phase: StorePhase, name: string)
    requires !Names(pods, name)
    ensures name !in Index(Judged(previous, pods, now, phase))
  {
    if pods != [] {
      var n := |pods| - 1;
      assert forall i :: 0 <= i < n ==> pods[..n][i] == pods[i];
      NotIndexed(previous, pods[..n], now, phase, name);
      IndexNext(Judged(previous, pods[..n], now, phase), Judge(previous, pods[n], now));
      hide Index;
    }
  }

  lemma {:induction false} IndexedAt(previous: map<string, Store>, pods: seq<PodView>, now: int, phase: StorePhase, i: nat)
    requires UniqueNames(pods) && i < |pods|
    ensures IndexedAs(Index(Judged(previous, pods, now, phase)), Judge(previous, pods[i], now), phase)
  {
    hide Index, Judged, Judge;
    var n := |pods| - 1;
    var before := pods[..n];
    JudgedNext(previous, pods, now, phase);
    JudgeNames(previous, pods[n], now);
    JudgeNames(previous, pods[i], now);
    IndexNext(Judged(previous, before, now, phase), Judge(previous, pods[n], now));
    assert forall k :: 0 <= k < n ==> before[k] == pods[k] && pods[k].name != pods[n].name;
    if i < n {
      IndexedAt(previous, before, now, phase, i);
    } else {
      NotIndexed(previous, before, now, phase, pods[n].name);
    }
  }

  /** A pod is indexed among the stores of a phase exactly when it is judged to be in it. */
  lemma JudgedIndex(previous: map<string, Store>, pods: seq<PodView>, now: int, phase: StorePhase, name: string)
    requires UniqueNames(pods)
    ensures !Names(pods, name) ==> name !in Index(Judged(previous, pods, now, phase))
    ensures forall i :: 0 <= i < |pods| && pods[i].name == name ==>
      IndexedAs(Index(Judged(previous, pods, now, phase)), Judge(previous, pods[i], now), phase)
  {
    hide Index, Judged, IndexedAs;
    if !Names(pods, name) { NotIndexed(previous, pods, now, phase, name); }
    forall i | 0 <= i < |pods| && pods[i].name == name
      ensures IndexedAs(Index(Judged(previous, pods, now, phase)), Judge(previous, pods[i], now), phase)
    {
      IndexedAt(previous, pods, now, phase, i);
    }
  }

  /** What is remembered of an observation is the judgement of each of its pods. */
  lemma Remembered(s: Status, pods: seq<PodView>, now: int, name: string)
    requires UniqueNames(pods)
    ensures name in Previous(Collect(s, pods, now)) <==> Names(pods, name)
    ensures forall i :: 0 <= i < |pods| && pods[i].name == name ==>
      name in Previous(Collect(s, pods, now)) && Previous(Collect(s, pods, now))[name] == Judge(Previous(s), pods[i], now)
  {
    JudgedIndex(Previous(s), pods, now, Up, name);
    JudgedIndex(Previous(s), pods, now, Down, name);
  }

  /** The transition time a pod gets: that of its store before if it was in the same phase. */
  ghost function SinceOf(s: Status, pod: PodView, now: int): int {
    var was, phase := Previous(s), if pod.available then Up else Down;
    if pod.name in was && was[pod.name].phase == phase then was[pod.name].since else now
  }

  lemma {:induction false} JudgedCount(previous: map<string, Store>, pods: seq<PodView>, now: int)
    ensures |Judged(previous, pods, now, Up)| + |Judged(previous, pods, now, Down)| == |pods|
  {
    if pods != [] { JudgedCount(previous, pods[..|pods| - 1], now); }
  }

  lemma {:induction false} JudgedHas(previous: map<string, Store>, pods: seq<PodView>, now: int, i: nat)
    requires i < |pods|
    ensures var x := Judge(previous, pods[i], now); x in Judged(previous, pods, now, x.phase)
  {
    var n := |pods| - 1;
    if i < n {
      JudgedHas(previous, pods[..n], now, i);
      assert pods[..n][i] == pods[i];
    }
  }

  /** Every observed pod is listed once, among the available stores exactly if it is available,
      and there are no other stores. */
  lemma EveryPodIsListedOnce(s: Status, pods: seq<PodView>, now: int)
    ensures var c := Collect(s, pods, now);
            && |c.available| + |c.failed| == |pods|
            && (forall i :: 0 <= i < |pods| ==>
                  var x := Store(pods[i].name, if pods[i].available then Up else Down, SinceOf(s, pods[i], now));
                  if pods[i].available then x in c.available else x in c.failed)
            && (forall x :: x in c.available ==> x.phase == Up) && (forall x :: x in c.failed ==> x.phase == Down)
  {
    JudgedCount(Previous(s), pods, now);
    forall i | 0 <= i < |pods|
      ensures var x := Judge(Previous(s), pods[i], now); x in Judged(Previous(s), pods, now, x.phase)
    {
      JudgedHas(Previous(s), pods, now, i);
    }
    forall x, phase | x in Judged(Previous(s), pods, now, phase)
      ensures x.phase == phase
    {
      JudgedMembers(Previous(s), pods, now, phase, x);
    }
    hide Previous, Judged;
  }

  datatype Observation = Observation(now: int, pods: seq<PodView>)

  function StatusAfter(history: seq<Observation>): Status {
    if history == [] then Status([], [])
    else
      var n := |history| - 1;
      Collect(StatusAfter(history[..n]), history[n].pods, history[n].now)
  }

  predicate Saw(o: Observation, name: string, phase: StorePhase) {
    exists i :: 0 <= i < |o.pods| && o.pods[i].name == name && (o.pods[i].available <==> phase == Up)
  }

  /** Observation j opens the unbroken run of observations, up to the latest, that saw the pod
      in this phase. */
  ghost predicate OpensRun(history: seq<Observation>, j: nat, name: string, phase: StorePhase) {
    && j < |history|
    && (forall k :: j <= k < |history| ==> Saw(history[k], name, phase))
    && (j > 0 ==> !Saw(history[j - 1], name, phase))
  }

  ghost predicate UniqueThroughout(history: seq<Observation>) {
    forall k :: 0 <= k < |history| ==> UniqueNames(history[k].pods)
  }

  lemma RunExtends(history: seq<Observation>, j: nat, name: string, phase: StorePhase)
    requires history != [] && OpensRun(history[..|history| - 1], j, name, phase) && Saw(history[|history| - 1], name, phase)
    ensures OpensRun(history, j, name, phase)
  {
    hide Saw;
    var before := history[..|history| - 1];
    assert forall k :: 0 <= k < |before| ==> before[k] == history[k];
  }

  lemma RunOpensNow(history: seq<Observation>, name: string, phase: StorePhase)
    requires history != [] && Saw(history[|history| - 1], name, phase)
    requires var before := history[..|history| - 1]; before != [] ==> !Saw(before[|before| - 1], name, phase)
    ensures OpensRun(history, |history| - 1, name, phase)
  {
    hide Saw;
  }

  /** Over any observations with unique pod names, a store's transition time is the time of
      the first observation of its current unbroken run of the same phase. */
  lemma {:induction false} TransitionTimeOpensRun(history: seq<Observation>, name: string) returns (j: nat)
    requires UniqueThroughout(history) && name in Previous(StatusAfter(history))
    ensures var x := Previous(StatusAfter(history))[name];
            x.pod == name && OpensRun(history, j, name, x.phase) && x.since == history[j].now
    decreases |history|
  {
    assert history != [] by { assert Previous(Status([], [])) == map[]; }
    hide Index, Judged, OpensRun, UniqueNames;
    var n := |history| - 1;
    var before, last := history[..n], history[n];
    var prev := Previous(StatusAfter(before));
    Remembered(StatusAfter(before), last.pods, last.now, name);
    assert Names(last.pods, name);
    var i :| 0 <= i < |last.pods| && last.pods[i].name == name;
    var x := Judge(prev, last.pods[i], last.now);
    assert Saw(last, name, x.phase);
    assert UniqueThroughout(before);
    if name in prev && prev[name].phase == x.phase {
      j := TransitionTimeOpensRun(before, name);
      RunExtends(history, j, name, x.phase);
      assert j < n by { assert OpensRun(before, j, name, x.phase); RunIndex(before, j, name, x.phase); }
    } else {
      j := n;
      if n > 0 { NotSeenBefore(before, name, x.phase); }
      RunOpensNow(history, name, x.phase);
    }
  }

  lemma RunIndex(history: seq<Observation>, j: nat, name: string, phase: StorePhase)
    requires OpensRun(history, j, name, phase)
    ensures j < |history|
  {
  }

  /** A pod that is not remembered in a phase was not in it at the latest observation. */
  lemma NotSeenBefore(history: seq<Observation>, name: string, phase: StorePhase)
    requires history != [] && UniqueNames(history[|history| - 1].pods)
    requires !(name in Previous(StatusAfter(history)) && Previous(StatusAfter(history))[name].phase == phase)
    ensures !Saw(history[|history| - 1], name, phase)
  {
    var n := |history| - 1;
    Remembered(StatusAfter(history[..n]), history[n].pods, history[n].now, name);
  }

  lemma {:induction false} JudgedMembers(previous: map<string, Store>, pods: seq<PodView>, now: int, phase: StorePhase, x: Store)
    ensures x in Judged(previous, pods, now, phase)
            <==> exists i :: 0 <= i < |pods| && x == Judge(previous, pods[i], now) && x.phase == phase
  {
    if pods != [] {
      var n := |pods| - 1;
      JudgedMembers(previous, pods[..n], now, phase, x);
      assert forall i :: 0 <= i < n ==> pods[..n][i] == pods[i];
    }
  }

  /** A store on the failed list has been seen Down by every observation of an unbroken run
      that opened at its transition time. */
  lemma FailedSinceTransition(history: seq<Observation>, x: Store) returns (j: nat)
    requires UniqueThroughout(history) && x in StatusAfter(history).failed
    ensures x.phase == Down && OpensRun(history, j, x.pod, Down) && x.since == history[j].now
  {
    var n := |history| - 1;
    var before := StatusAfter(history[..n]);
    JudgedMembers(Previous(before), history[n].pods, history[n].now, Down, x);
    Remembered(before, history[n].pods, history[n].now, x.pod);
    j := TransitionTimeOpensRun(history, x.pod);
  }
}
