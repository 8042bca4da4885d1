/** How a CN pool sizes its set of pods and picks the idle pods to give up. */
module PoolScaling {
  import opened Options
  import opened ApiServer
  import opened PodModel
  import opened PoolProtocol
  import opened Sorting

  /** A pod as the pool's cache lists it: the version it was read at, and its creation time
      in whole seconds. */
  datatype Listed = Listed(name: string, version: nat, pod: Pod, created: int) {
    predicate Idle() { !pod.InUse() && pod.Phase() != Terminating }
  }

  function DeletionCost(p: Listed): int {
    var score :=
      match p.pod.Phase()
      case Terminating => 0
      case Unknown => 0x100
      case Idle => 0x200
      case Text(t) => if t == "" then 0x100 else 0x400
      case _ => 0x400;
    if p.pod.ClaimedBy() != Text("") then score + 1 else score
  }

  function DeletionOrder(a: Listed, b: Listed): int {
    var c := DeletionCost(a) - DeletionCost(b);
    if c == 0 then -(a.created - b.created) else c
  }

  /** What a pod is worth to the pool, as a key, smallest given up first: a pod that is already
      going, one that is not up yet, an idle one, one in use; within these a pod nobody has
      claimed before one that is claimed; within these the younger first. */
  function DeletionKey(p: Listed): seq<int> {
    var phase := p.pod.Phase();
    var worth :=
      if phase == Terminating then 0 else if phase == Unknown || phase == Text("") then 1 else if phase == Idle then 2 else 3;
    [worth, if p.pod.ClaimedBy() == Text("") then 0 else 1, -p.created]
  }

  /** The order is that of the keys. */
  lemma OrderIsLexicographic(a: Listed, b: Listed)
    ensures DeletionOrder(a, b) < 0 <==> LexLess(DeletionKey(a), DeletionKey(b))
    ensures DeletionOrder(a, b) == 0 <==> DeletionKey(a) == DeletionKey(b)
  {
    var k, l := DeletionKey(a), DeletionKey(b);
    assert DeletionCost(a) == 0x100 * (if k[0] == 3 then 4 else k[0]) + k[1];
    assert DeletionCost(b) == 0x100 * (if l[0] == 3 then 4 else l[0]) + l[1];
    hide DeletionCost;
    if k == l {
      LexIrreflexive(k);
      assert k[0] == l[0] && k[1] == l[1] && k[2] == l[2];
    } else {
      var n := if k[0] != l[0] then 0 else if k[1] != l[1] then 1 else 2;
      assert k[..n] == l[..n] && k[n] != l[n];
      LexCompare(k, l, n);
    }
  }

  function InUseCount(listed: seq<Listed>): nat {
    if listed == [] then 0
    else InUseCount(listed[..|listed| - 1]) + if listed[|listed| - 1].pod.InUse() then 1 else 0
  }

  function IdleOf(listed: seq<Listed>): seq<Listed> {
    if listed == [] then []
    else IdleOf(listed[..|listed| - 1]) + if listed[|listed| - 1].Idle() then [listed[|listed| - 1]] else []
  }

  function TerminatingOf(listed: seq<Listed>): seq<Listed> {
    if listed == [] then []
    else
      TerminatingOf(listed[..|listed| - 1])
      + if listed[|listed| - 1].pod.Phase() == Terminating then [listed[|listed| - 1]] else []
  }

  function PendingCount(claims: seq<ClaimPhase>): nat {
    if claims == [] then 0
    else PendingCount(claims[..|claims| - 1]) + if claims[|claims| - 1] == Pending then 1 else 0
  }

  /** Every listed pod is in use, terminating or idle, and counted once. */
  lemma {:induction false} EveryPodIsCountedOnce(listed: seq<Listed>)
    ensures InUseCount(listed) + |IdleOf(listed)| + |TerminatingOf(listed)| == |listed|
    ensures forall p :: p in IdleOf(listed) <==> p in listed && p.Idle()
    ensures forall p: Listed :: p.Idle() <==> p.pod.Phase() !in {Bound, Draining, Terminating}
    ensures forall p :: p in TerminatingOf(listed) <==> p in listed && p.pod.Phase() == Terminating
  {
    if listed != [] {
      var front, last := listed[..|listed| - 1], listed[|listed| - 1];
      EveryPodIsCountedOnce(front);
      assert listed == front + [last];
      assert last.pod.InUse() || last.Idle() || last.pod.Phase() == Terminating;
    }
  }

  /** The pending claims, counted. */
  lemma {:induction false} PendingExactly(claims: seq<ClaimPhase>)
    ensures PendingCount(claims) == |set i | 0 <= i < |claims| && claims[i] == Pending|
  {
    var here := set i | 0 <= i < |claims| && claims[i] == Pending;
    if claims == [] {
      assert here == {};
    } else {
      var n := |claims| - 1;
      var front := claims[..n];
      var before := set i | 0 <= i < n && front[i] == Pending;
      PendingExactly(front);
      assert forall i :: 0 <= i < n ==> front[i] == claims[i];
      hide PendingCount;
      OneMore(claims);
      assert forall i :: i in here <==> i in before || (i == n && claims[n] == Pending);
      assert here == if claims[n] == Pending then before + {n} else before;
    }
  }

  lemma OneMore(claims: seq<ClaimPhase>)
    requires claims != []
    ensures PendingCount(claims) == PendingCount(claims[..|claims| - 1]) + if claims[|claims| - 1] == Pending then 1 else 0
  {
  }

  function Names(pods: seq<Listed>): seq<string> {
    seq(|pods|, i requires 0 <= i < |pods| => pods[i].name)
  }

  function NameSet(pods: seq<Listed>): set<string> {
    set p | p in pods :: p.name
  }

  function Max(a: int, b: int): int { if a >= b then a else b }

  /** The list shows versions the server has written, one of each pod. */
  ghost predicate IsListing(s: State, listed: seq<Listed>) {
    && (forall p :: p in listed ==> p.version in s.pods.log && s.pods.log[p.version] == Write(p.name, p.pod))
    && (forall p, q :: p in listed && q in listed && p.name == q.name ==> p == q)
  }

  /** The update of a pod is refused if the pod changed since it was listed, and may fail for
      reasons of its own. */
  ghost predicate Accepted(s: State, p: Listed, unreachable: set<string>) {
    s.pods.Current(p.version) && p.name !in unreachable
  }

  /** `t` is `s` with the marked pods, and no others, made Terminating and retired. */
  ghost predicate Marked(s: State, t: State, marked: set<string>)
    requires s.pods.Valid() && t.pods.Valid()
  {
    && t == s.(pods := t.pods, retired := s.retired + marked)
    && t.pods.live.Keys == s.pods.live.Keys
    && (forall v :: v in s.pods.log ==> v in t.pods.log && t.pods.log[v] == s.pods.log[v])
    && (forall p :: p in s.pods.live ==> MarkedPod(s, t, marked, p))
  }

  ghost predicate MarkedPod(s: State, t: State, marked: set<string>, p: string)
    requires s.pods.Valid() && t.pods.Valid() && p in s.pods.live && p in t.pods.live
  {
    if p in marked then t.pods.Get(p) == MarkTerminating(s.pods.Get(p)) && !s.pods.Get(p).InUse()
    else t.pods.live[p] == s.pods.live[p] && t.pods.Get(p) == s.pods.Get(p)
  }

  /** `u` is `t` after pod p has been marked too. */
  ghost predicate MarkStep(t: State, u: State, p: Listed)
    requires t.pods.Valid()
  {
    && u == t.(pods := t.pods.Put(p.name, MarkTerminating(p.pod)), retired := t.retired + {p.name})
    && p.name in t.pods.live && t.pods.Get(p.name) == p.pod
  }

  lemma MarkKeepsInv(t: State, p: Listed)
    requires Inv(t) && t.pods.Current(p.version) && t.pods.log[p.version] == Write(p.name, p.pod) && p.Idle()
    ensures Enabled(t, RetireIdle(p.version))
    ensures var u := Apply(DrainConfig(0, 0), t, RetireIdle(p.version));
            Inv(u) && MarkStep(t, u, p)
  {
    hide Ownership, Recycling;
    StepKeepsInv(DrainConfig(0, 0), t, RetireIdle(p.version));
    UpdateFacts(t.pods, p.version, MarkTerminating(p.pod));
  }

  lemma MarkOne(s: State, t: State, u: State, marked: set<string>, p: Listed)
    requires s.pods.Valid() && t.pods.Valid() && u.pods.Valid()
    requires Marked(s, t, marked) && MarkStep(t, u, p) && p.name !in marked && p.Idle()
    ensures Marked(s, u, marked + {p.name})
  {
    PutFacts(t.pods, p.name, MarkTerminating(p.pod));
    assert u.retired == s.retired + (marked + {p.name});
    assert u.pods.live.Keys == s.pods.live.Keys;
    forall q | q in s.pods.live
      ensures MarkedPod(s, u, marked + {p.name}, q)
    {
      assert MarkedPod(s, t, marked, q);
    }
  }

  /** Of the first i picked pods exactly those are marked whose update is accepted. */
  ghost predicate MarksPrefix(s: State, picked: seq<Listed>, i: nat, unreachable: set<string>, marked: seq<Listed>) {
    && i <= |picked| && |marked| <= i
    && (forall p :: p in marked <==> p in picked[..i] && Accepted(s, p, unreachable))
    && ((forall p :: p in picked[..i] ==> Accepted(s, p, unreachable)) ==> marked == picked[..i])
  }

  lemma MarksNone(s: State, picked: seq<Listed>, unreachable: set<string>)
    ensures MarksPrefix(s, picked, 0, unreachable, [])
  {
  }

  lemma MarksNext(s: State, picked: seq<Listed>, i: nat, unreachable: set<string>, marked: seq<Listed>)
    requires i < |picked| && MarksPrefix(s, picked, i, unreachable, marked)
    ensures Accepted(s, picked[i], unreachable) ==> MarksPrefix(s, picked, i + 1, unreachable, marked + [picked[i]])
    ensures !Accepted(s, picked[i], unreachable) ==> MarksPrefix(s, picked, i + 1, unreachable, marked)
    ensures forall p :: p in marked ==> p in picked[..i]
  {
    hide Accepted;
    assert picked[..i + 1] == picked[..i] + [picked[i]];
  }

  lemma MarksAll(s: State, picked: seq<Listed>, unreachable: set<string>, marked: seq<Listed>)
    requires MarksPrefix(s, picked, |picked|, unreachable, marked)
    ensures forall p :: p in marked <==> p in picked && Accepted(s, p, unreachable)
    ensures |marked| <= |picked|
    ensures (forall p :: p in picked ==> Accepted(s, p, unreachable)) ==> marked == picked
  {
    hide Accepted;
    assert picked[..|picked|] == picked;
  }

  lemma NotMarkedYet(s: State, picked: seq<Listed>, marked: seq<Listed>, i: nat)
    requires IsListing(s, picked) && i < |picked| && forall p :: p in marked ==> p in picked[..i]
    requires forall j, k :: 0 <= j < k < |picked| ==> picked[j] != picked[k]
    ensures picked[i].name !in NameSet(marked)
    ensures picked[i].version in s.pods.log && s.pods.log[picked[i].version] == Write(picked[i].name, picked[i].pod)
  {
    assert picked[i] in picked;
    forall p | p in marked
      ensures p.name != picked[i].name
    {
      assert p in picked && p in picked[..i];
    }
  }

  lemma StartMarking(s: State)
    requires s.pods.Valid()
    ensures Marked(s, s, {})
  {
    assert s.retired + {} == s.retired;
  }

  lemma KeepsLog(s: State, t: State, marked: set<string>, p: Listed)
    requires s.pods.Valid() && t.pods.Valid() && Marked(s, t, marked) && p.version in s.pods.log
    ensures p.version in t.pods.log && t.pods.log[p.version] == s.pods.log[p.version]
  {
  }

  lemma UnmarkedIsCurrent(s: State, t: State, marked: set<string>, p: Listed)
    requires s.pods.Valid() && t.pods.Valid() && Marked(s, t, marked) && p.name !in marked
    requires p.version in s.pods.log && s.pods.log[p.version].name == p.name
    ensures t.pods.Current(p.version) <==> s.pods.Current(p.version)
  {
    assert p.name in s.pods.live ==> MarkedPod(s, t, marked, p.name);
  }

  lemma OrderIsTotalPreorder()
    ensures TotalPreorder(DeletionOrder)
  {
  }

  /** The pool controller's view: the shared state, and the pod set it writes. */
  class PoolActor {
    var state: State
    var replicas: int
    var podsToDelete: seq<string>

    constructor (s: State, spec: int)
      ensures state == s && replicas == spec && podsToDelete == []
    {
      state, replicas, podsToDelete := s, spec, [];
    }

    /** Marks the picked pods Terminating; a refused update leaves its pod alone. */
    method MarkPods(picked: seq<Listed>, unreachable: set<string>) returns (marked: seq<Listed>)
      requires Inv(state) && IsListing(state, picked) && forall p :: p in picked ==> p.Idle()
      requires forall i, j :: 0 <= i < j < |picked| ==> picked[i] != picked[j]
      modifies this`state
      ensures Inv(state) && Marked(old(state), state, NameSet(marked))
      ensures forall p :: p in marked <==> p in picked && Accepted(old(state), p, unreachable)
      ensures |marked| <= |picked|
      ensures (forall p :: p in picked ==> Accepted(old(state), p, unreachable)) ==> marked == picked
    {
      hide Ownership, Recycling, Marked, MarkStep, Enabled, Apply, IsListing, MarksPrefix;
      StartMarking(state);
      marked := [];
      assert NameSet(marked) == {};
      MarksNone(state, picked, unreachable);
      for i := 0 to |picked|
        invariant state.pods.Valid() && Inv(state) && Marked(old(state), state, NameSet(marked))
        invariant MarksPrefix(old(state), picked, i, unreachable, marked)
      {
        var p := picked[i];
        MarksNext(old(state), picked, i, unreachable, marked);
        NotMarkedYet(old(state), picked, marked, i);
        KeepsLog(old(state), state, NameSet(marked), p);
        UnmarkedIsCurrent(old(state), state, NameSet(marked), p);
        if p.name !in unreachable && state.pods.Current(p.version) {
          MarkKeepsInv(state, p);
          ghost var before := state;
          state := Apply(DrainConfig(0, 0), state, RetireIdle(p.version));
          MarkOne(old(state), before, state, NameSet(marked), p);
          assert NameSet(marked + [p]) == NameSet(marked) + {p.name};
          marked := marked + [p];
        }
      }
      MarksAll(old(state), picked, unreachable, marked);
    }

    /** One sync of the pool on its current pod set. `kept` are the idle pods it leaves alone,
        `picked` those it tries to give up and `marked` those it does. */
    method Sync(listed: seq<Listed>, claims: seq<ClaimPhase>, legacyInUse: nat, maxIdle: nat, maxPods: int, unreachable: set<string>)
        returns (written: bool, picked: seq<Listed>, kept: seq<Listed>, marked: seq<Listed>)
      requires Inv(state) && IsListing(state, listed) && NoDuplicates(listed)
      modifies this
      // nothing happens beyond the limit on pods
      ensures written <==> legacyInUse + Desired(listed, claims, maxIdle) <= maxPods
      ensures !written ==> state == old(state) && replicas == old(replicas) && podsToDelete == old(podsToDelete)
      // the pods that go are idle ones the server accepted to mark, cheapest first
      ensures Inv(state) && Marked(old(state), state, NameSet(marked))
      ensures multiset(picked) + multiset(kept) == multiset(IdleOf(listed))
      ensures forall d, k :: d in picked && k in kept ==> !LexLess(DeletionKey(k), DeletionKey(d))
      ensures forall p :: p in marked <==> p in picked && Accepted(old(state), p, unreachable)
      ensures (forall p :: p in picked ==> Accepted(old(state), p, unreachable)) ==> marked == picked
      ensures written ==> podsToDelete == Names(TerminatingOf(listed)) + Names(marked)
      // the size
      ensures written ==> Desired(listed, claims, maxIdle) <= replicas <= Max(old(replicas), Desired(listed, claims, maxIdle))
      ensures replicas > old(replicas) ==> legacyInUse + replicas <= maxPods
      ensures PendingCount(claims) > 0 || old(replicas) < Desired(listed, claims, maxIdle) ==> picked == []
      ensures written && picked == [] ==> replicas == Max(old(replicas), Desired(listed, claims, maxIdle))
      ensures written && PendingCount(claims) == 0 && Desired(listed, claims, maxIdle) <= old(replicas)
              ==> Surplus(old(replicas), InUseCount(listed), |IdleOf(listed)|, maxIdle, |marked|, marked == picked, replicas)
    {
      hide Marked, IsListing, Ownership, Recycling, NoDuplicates, Accepted, DeletionOrder, DeletionKey, LexLess;
      picked, marked := [], [];
      assert NameSet(marked) == {};
      StartMarking(state);
      var inUse, idle, terminating := CountPods(listed);
      kept := idle;
      var pending := 0;
      for i := 0 to |claims|
        invariant pending == PendingCount(claims[..i])
      {
        assert claims[..i + 1][..i] == claims[..i];
        if claims[i] == Pending {
          pending := pending + 1;
        }
      }
      assert claims[..|claims|] == claims;
      var desired := inUse + pending + maxIdle;
      var active := inUse + |idle|;
      written := legacyInUse + desired <= maxPods;
      if !written {
        return;
      }
      podsToDelete := Names(terminating);
      if desired <= replicas {
        if pending > 0 {
          return;
        }
        var scaleInCount := Max(active - desired, replicas - desired);
        picked, kept := PickIdle(idle, scaleInCount);
        forall d, k | d in picked && k in kept
          ensures !LexLess(DeletionKey(k), DeletionKey(d))
        {
          NotAfter(d, k);
        }
        PickedIsListing(state, listed, picked, kept);
        PickedIsDistinct(listed, picked, kept);
        marked := MarkPods(picked, unreachable);
        replicas := Max(replicas - |marked|, desired);
        podsToDelete := podsToDelete + Names(marked);
      } else {
        replicas := desired;
      }
    }
  }

  /** A scale-in with nothing pending, by the idle pods that survive it. A set with at least as
      many active pods as replicas keeps at least the allowed idle pods whatever updates are
      refused; if none is, exactly those survive and the set has the desired size. A set with
      fewer active pods than replicas loses too many, unless none are allowed anyway. */
  ghost predicate Surplus(spec: int, inUse: nat, idle: nat, maxIdle: nat, marked: nat, allMarked: bool, replicas: int) {
    var survivors := idle - marked;
    && survivors >= 0
    && (inUse + idle >= spec ==> survivors >= maxIdle)
    && (allMarked ==> survivors <= maxIdle && (survivors == maxIdle <==> inUse + idle >= spec || maxIdle == 0))
    && (allMarked && inUse + idle >= spec ==> replicas == inUse + maxIdle)
  }

  const NEW_POD := Pod(map[PhaseKey := Unknown], None, false, None)
  const IDLE_POD := Pod(map[PhaseKey := Idle], None, false, None)

  /** The state after pod p is created, and after its store has registered too. */
  function NewPodState(p: string): State { INIT.(pods := INIT.pods.Put(p, NEW_POD)) }

  function IdlePodState(p: string): State { NewPodState(p).(pods := NewPodState(p).pods.Put(p, IDLE_POD)) }

  lemma InitHoldsInv()
    ensures Inv(INIT)
  {
  }

  lemma NewPodIsReached(p: string)
    ensures Enabled(INIT, CreatePod(p, NEW_POD.labels))
    ensures NewPodState(p) == Apply(DrainConfig(0, 0), INIT, CreatePod(p, NEW_POD.labels)) && Inv(NewPodState(p))
    ensures p in NewPodState(p).pods.live && NewPodState(p).pods.Get(p) == NEW_POD
  {
    InitHoldsInv();
    hide Ownership, Recycling;
    StepKeepsInv(DrainConfig(0, 0), INIT, CreatePod(p, NEW_POD.labels));
  }

  lemma IdlePodIsReached(p: string)
    ensures NewPodState(p).pods.Valid() && Enabled(NewPodState(p), ReconcileStore(p, true))
    ensures IdlePodState(p) == Apply(DrainConfig(0, 0), NewPodState(p), ReconcileStore(p, true)) && Inv(IdlePodState(p))
  {
    NewPodIsReached(p);
    hide Ownership, Recycling;
    StepKeepsInv(DrainConfig(0, 0), NewPodState(p), ReconcileStore(p, true));
    assert NEW_POD.labels[PhaseKey := Idle] == IDLE_POD.labels;
  }

  /** A pool with three replicas, one pod that is idle, and nothing pending: a sync that may keep
      one idle pod, with every update accepted, leaves none. The state is reached, and the list
      shows its pod as it is. */
  method LosesItsOnlyIdlePod(actor: PoolActor, p: string, maxIdle: nat) returns (listed: seq<Listed>, marked: seq<Listed>)
    requires actor.state == IdlePodState(p) && actor.replicas == 3 && maxIdle == 1
    modifies actor
    ensures Inv(old(actor.state)) && IsListing(old(actor.state), listed) && NoDuplicates(listed)
    ensures InUseCount(listed) == 0 && |IdleOf(listed)| == 1 && Names(listed) == [p]
    ensures |IdleOf(listed)| - |marked| < maxIdle
    ensures actor.state.pods.Valid() && p in actor.state.pods.live && actor.state.pods.Get(p).Phase() == Terminating
    ensures p in actor.state.retired && actor.podsToDelete == [p]
  {
    var s := actor.state;
    var pod := Listed(p, 2, IDLE_POD, 0);
    listed := [pod];
    IdlePodIsListed(s, p, pod);
    OnlyIdle(pod);
    hide Inv, Apply, Enabled, IdleOf, InUseCount, TerminatingOf, IsListing, Accepted, Marked, NoDuplicates, Surplus;
    var written, picked, kept;
    written, picked, kept, marked := actor.Sync(listed, [], 0, maxIdle, 10, {});
    OneMarked(s, pod, picked, kept, marked, actor.replicas);
    MarkedIsTerminating(s, actor.state, pod);
  }

  lemma MarkedIsTerminating(s: State, t: State, pod: Listed)
    requires Inv(s) && Inv(t) && Marked(s, t, NameSet([pod])) && pod.name in s.pods.live
    ensures t.pods.Valid() && pod.name in t.pods.live && t.pods.Get(pod.name).Phase() == Terminating && pod.name in t.retired
  {
    hide Ownership, Recycling;
    assert pod in [pod] && pod.name in NameSet([pod]);
    assert MarkedPod(s, t, NameSet([pod]), pod.name);
  }

  lemma IdlePodIsListed(s: State, p: string, pod: Listed)
    requires s == IdlePodState(p) && pod == Listed(p, 2, IDLE_POD, 0)
    ensures Inv(s) && IsListing(s, [pod]) && Accepted(s, pod, {}) && pod.Idle() && p in s.pods.live
  {
    IdlePodIsReached(p);
    assert s.pods.log[2] == Write(p, IDLE_POD);
  }

  lemma OneMarked(s: State, pod: Listed, picked: seq<Listed>, kept: seq<Listed>, marked: seq<Listed>, replicas: int)
    requires Accepted(s, pod, {}) && multiset(picked) + multiset(kept) == multiset([pod])
    requires (forall p :: p in picked ==> Accepted(s, p, {})) ==> marked == picked
    requires Surplus(3, 0, 1, 1, |marked|, marked == picked, replicas)
    ensures marked == [pod]
  {
    forall p | p in picked
      ensures p == pod
    {
      assert p in multiset(picked) + multiset(kept);
    }
    assert |multiset(picked) + multiset(kept)| == 1;
  }

  lemma OnlyIdle(p: Listed)
    requires p.Idle()
    ensures IdleOf([p]) == [p] && InUseCount([p]) == 0 && TerminatingOf([p]) == [] && NoDuplicates([p])
  {
    assert [p][..0] == [];
    assert IdleOf([]) == [] && InUseCount([]) == 0 && TerminatingOf([]) == [];
    SingleIsDistinct(p);
    hide NoDuplicates;
  }

  lemma SingleIsDistinct(p: Listed)
    ensures NoDuplicates([p])
  {
    assert multiset([p]) == multiset{p};
  }

  function Desired(listed: seq<Listed>, claims: seq<ClaimPhase>, maxIdle: nat): nat {
    InUseCount(listed) + PendingCount(claims) + maxIdle
  }

  lemma NotAfter(d: Listed, k: Listed)
    requires DeletionOrder(d, k) <= 0
    ensures !LexLess(DeletionKey(k), DeletionKey(d))
  {
    OrderIsLexicographic(k, d);
    OrderIsTotalPreorder();
    Transitive(d, k, k, DeletionOrder);
  }

  method PickIdle(idle: seq<Listed>, count: nat) returns (picked: seq<Listed>, kept: seq<Listed>)
    ensures multiset(picked) + multiset(kept) == multiset(idle) && |picked| + |kept| == |idle|
    ensures |picked| == if |idle| > count then count else |idle|
    ensures forall d, k :: d in picked && k in kept ==> DeletionOrder(d, k) <= 0
  {
    OrderIsTotalPreorder();
    hide DeletionOrder;
    var sorted := SortBy(idle, DeletionOrder);
    var n := if |sorted| > count then count else |sorted|;
    PrefixComesFirst(sorted, n, DeletionOrder);
    picked, kept := sorted[..n], sorted[n..];
  }

  method CountPods(listed: seq<Listed>) returns (inUse: nat, idle: seq<Listed>, terminating: seq<Listed>)
    ensures inUse == InUseCount(listed) && idle == IdleOf(listed) && terminating == TerminatingOf(listed)
  {
    inUse, idle, terminating := 0, [], [];
    for i := 0 to |listed|
      invariant inUse == InUseCount(listed[..i]) && idle == IdleOf(listed[..i]) && terminating == TerminatingOf(listed[..i])
    {
      assert listed[..i + 1][..i] == listed[..i];
      if listed[i].pod.InUse() {
        inUse := inUse + 1;
      } else if listed[i].pod.Phase() == Terminating {
        terminating := terminating + [listed[i]];
      } else {
        idle := idle + [listed[i]];
      }
    }
    assert listed[..|listed|] == listed;
  }

  ghost predicate NoDuplicates(s: seq<Listed>) {
    forall x :: multiset(s)[x] <= 1
  }

  lemma {:induction false} IdleAreListed(listed: seq<Listed>)
    ensures multiset(IdleOf(listed)) <= multiset(listed)
  {
    if listed != [] {
      IdleAreListed(listed[..|listed| - 1]);
      assert listed == listed[..|listed| - 1] + [listed[|listed| - 1]];
    }
  }

  lemma PickedIsListing(s: State, listed: seq<Listed>, picked: seq<Listed>, kept: seq<Listed>)
    requires IsListing(s, listed) && multiset(picked) + multiset(kept) == multiset(IdleOf(listed))
    ensures IsListing(s, picked) && forall p :: p in picked ==> p.Idle()
  {
    EveryPodIsCountedOnce(listed);
    SameMembers(picked + kept, IdleOf(listed));
    hide IdleOf;
    assert forall p :: p in picked ==> p in picked + kept;
  }

  lemma PickedIsDistinct(listed: seq<Listed>, picked: seq<Listed>, kept: seq<Listed>)
    requires NoDuplicates(listed) && multiset(picked) + multiset(kept) == multiset(IdleOf(listed))
    ensures forall i, j :: 0 <= i < j < |picked| ==> picked[i] != picked[j]
  {
    IdleAreListed(listed);
    hide IdleOf;
    forall i, j | 0 <= i < j < |picked|
      ensures picked[i] != picked[j]
    {
      CountedTwice(picked, i, j);
      assert multiset(picked)[picked[i]] <= multiset(listed)[picked[i]];
    }
  }

  lemma CountedTwice(s: seq<Listed>, i: nat, j: nat)
    requires i < j < |s|
    ensures s[i] == s[j] ==> multiset(s)[s[i]] >= 2
  {
    assert s == s[..j] + ([s[j]] + s[j + 1..]);
    assert s[..j][i] == s[i] && s[i] in multiset(s[..j]);
  }
}
