/** The passes of the claim controller over a claim that is not deleted: bind it to a pod, or
    keep the pod it has. */
module ClaimPasses {
  import opened Options
  import opened ApiServer
  import opened PodModel
  import opened PoolProtocol
  import opened ClaimController

  const NO_CONFIG := DrainConfig(0, 0)

  /** Which calls of a pass go through: telling the store to work, writing the claim's spec, and
      writing its status. */
  datatype Calls = Calls(stored: bool, patched: bool, recorded: bool) {
    predicate All() { stored && patched && recorded }
  }

  /** What a read of the claim's pod shows besides its labels. */
  datatype PodRead = Gone(recently: bool) | Finished | Alive

  /** A direct pod, or one no operation is going on with. */
  predicate Bindable(pod: Pod) {
    DirectKey in pod.labels || Lookup(pod.labels, LifecycleKey) == Text("Normal")
  }

  /** Being bound takes a claim out of no phase and Pending; it does not make an outdated claim
      up to date. */
  function BoundPhase(p: ClaimPhase): ClaimPhase {
    if p == NoPhase || p == Pending then BoundClaim else p
  }

  /** Only claim c differs between the states' claims. */
  ghost predicate OnlyClaim(s: State, t: State, c: string) {
    && c in s.claims && c in t.claims && t.claims == s.claims[c := t.claims[c]]
    && t.claims[c] == s.claims[c].(podName := t.claims[c].podName, phase := t.claims[c].phase)
    && t.finalizing == s.finalizing && t.retired == s.retired && t.now == s.now && t.rounds == s.rounds
  }

  class ClaimActor {
    var cluster: Cluster

    constructor (initial: State)
      ensures fresh(cluster) && cluster.s == initial
    {
      cluster := new Cluster(initial);
    }

    method SetPhase(c: string, phase: ClaimPhase)
      requires Inv(cluster.s) && c in cluster.s.claims
      modifies cluster
      ensures Inv(cluster.s)
      ensures cluster.s == old(cluster.s).(claims := old(cluster.s).claims[c := old(cluster.s).claims[c].(phase := phase)])
    {
      hide Ownership, Recycling;
      StepKeepsInv(NO_CONFIG, cluster.s, SetClaimPhase(c, phase));
      cluster.s := cluster.s.(claims := cluster.s.claims[c := cluster.s.claims[c].(phase := phase)]);
    }

    /** The claim's spec and status follow the pod: the pod is named once the store and the spec
        are written, and the claim counts as bound once its status is. */
    method SyncBindPod(c: string, p: string, calls: Calls) returns (ok: bool)
      requires Inv(cluster.s) && Active(cluster.s, c) && Owns(cluster.s, c, p)
      requires if c in cluster.s.binding then cluster.s.binding[c] == p else cluster.s.claims[c].podName == Some(p)
      modifies cluster
      ensures Inv(cluster.s) && OnlyClaim(old(cluster.s), cluster.s, c) && cluster.s.pods == old(cluster.s).pods
      ensures cluster.s.binding == old(cluster.s).binding - {c}
      ensures ok <==> Bindable(old(cluster.s).pods.Get(p)) && calls.All()
      ensures cluster.s.claims[c].podName ==
              if Bindable(old(cluster.s).pods.Get(p)) && calls.stored && calls.patched then Some(p) else old(cluster.s).claims[c].podName
      ensures cluster.s.claims[c].phase == if ok then BoundPhase(old(cluster.s).claims[c].phase) else old(cluster.s).claims[c].phase
    {
      hide Ownership, Recycling;
      if !Bindable(cluster.s.pods.Get(p)) || !calls.stored || !calls.patched {
        GiveUpBinding(c);
        return false;
      }
      if c in cluster.s.binding {
        StepKeepsInv(NO_CONFIG, cluster.s, CommitBind(c));
        cluster.s := cluster.s.(
          claims := cluster.s.claims[c := cluster.s.claims[c].(podName := Some(p))],
          binding := cluster.s.binding - {c});
      }
      ok := calls.recorded;
      if ok {
        SetPhase(c, BoundPhase(cluster.s.claims[c].phase));
      }
    }

    method GiveUpBinding(c: string)
      requires Inv(cluster.s) && c in cluster.s.claims
      modifies cluster
      ensures Inv(cluster.s) && cluster.s == old(cluster.s).(binding := old(cluster.s).binding - {c})
    {
      hide Ownership, Recycling;
      if c in cluster.s.binding {
        StepKeepsInv(NO_CONFIG, cluster.s, AbortBind(c));
        cluster.s := cluster.s.(binding := cluster.s.binding - {c});
      }
    }

    /** A claim without a pod: it is Pending until the pod it takes is named, told to work and
        recorded. A pass that stops half way leaves the pod to the next one. */
    method Bind(c: string, orphans: seq<string>, idle: seq<nat>, named: set<string>, broken: set<string>, calls: Calls) returns (bound: bool)
      requires Inv(cluster.s) && Active(cluster.s, c) && c !in cluster.s.binding && cluster.s.claims[c].podName == None
      requires ListsOwned(cluster.s, c, orphans) && CanBeTaken(cluster.s, idle)
      modifies cluster
      ensures Inv(cluster.s) && OnlyClaim(old(cluster.s), cluster.s, c) && cluster.s.binding == old(cluster.s).binding
      ensures cluster.s.claims[c].phase == if bound then BoundClaim else Pending
      ensures bound ==> cluster.s.claims[c].podName.Some?
      ensures cluster.s.claims[c].podName.Some? ==> calls.stored && calls.patched && Owns(cluster.s, c, cluster.s.claims[c].podName.value)
      ensures orphans != [] ==> cluster.s.pods == old(cluster.s).pods && cluster.s.claims[c].podName in {None, Some(orphans[0])}
      ensures orphans == [] ==> cluster.s.pods == old(cluster.s).pods || exists p :: TookFirst(old(cluster.s), cluster.s, c, idle, named, broken, p)
    {
      hide Ownership, Recycling, TakenFrom, TookFirst, Decides, ListsOwned, Owns, Bindable;
      SetPhase(c, Pending);
      ghost var pending := cluster.s;
      SameLists(old(cluster.s), pending, c, orphans, idle);
      var claimed, failed := cluster.SelectCN(c, orphans, idle, named, broken);
      bound := false;
      if claimed.Some? {
        assert cluster.s.binding - {c} == old(cluster.s).binding;
        if orphans == [] {
          TookFacts(old(cluster.s), pending, cluster.s, c, idle, named, broken, claimed.value);
        }
        ghost var taken := cluster.s;
        bound := SyncBindPod(c, claimed.value, calls);
        OwnsByPods(taken, cluster.s, c, claimed.value);
        if orphans == [] { TookKeeps(old(cluster.s), taken, cluster.s, c, idle, named, broken, claimed.value); }
      }
    }

    /** A claim that names a pod. A pod that has been gone for a while, or has ended, makes the
        claim Lost; otherwise the claim's labels are renewed on the pod the pass has read,
        unless it has changed since, and spec and status follow. */
    method Sync(c: string, read: PodRead, snapshot: nat, calls: Calls) returns (ok: bool)
      requires Inv(cluster.s) && Active(cluster.s, c) && c !in cluster.s.binding && cluster.s.claims[c].podName.Some?
      requires read.Gone? ==> cluster.s.claims[c].podName.value !in cluster.s.pods.live
      requires !read.Gone? ==> snapshot in cluster.s.pods.log && cluster.s.pods.log[snapshot].name == cluster.s.claims[c].podName.value
      modifies cluster
      ensures Inv(cluster.s) && OnlyClaim(old(cluster.s), cluster.s, c) && cluster.s.binding == old(cluster.s).binding
      ensures read.Gone? || read.Finished? ==> cluster.s.pods == old(cluster.s).pods && !ok
      ensures read.Gone? ==>
        if !read.recently && calls.patched then cluster.s.claims[c].phase == Lost && cluster.s.claims[c].podName == None
        else cluster.s == old(cluster.s)
      ensures read.Finished? ==> cluster.s.claims[c].phase == Lost && cluster.s.claims[c].podName == old(cluster.s).claims[c].podName
      ensures read.Alive? ==> cluster.s.claims[c].podName == old(cluster.s).claims[c].podName
      ensures read.Alive? ==> cluster.s.claims[c].phase == if ok then BoundPhase(old(cluster.s).claims[c].phase) else old(cluster.s).claims[c].phase
      ensures read.Alive? && !old(cluster.s).pods.Current(snapshot) ==> cluster.s == old(cluster.s) && !ok
      ensures read.Alive? && old(cluster.s).pods.Current(snapshot) ==> Renewed(old(cluster.s), cluster.s, c, snapshot)
    {
      hide Ownership, Recycling, Renewed;
      ok := false;
      match read
      case Gone(recently) =>
        if recently || !calls.patched {
          return;
        }
        StepKeepsInv(NO_CONFIG, cluster.s, SyncGone(c));
        cluster.s := cluster.s.(claims := cluster.s.claims[c := cluster.s.claims[c].(podName := None)]);
        SetPhase(c, Lost);
      case Finished =>
        SetPhase(c, Lost);
      case Alive =>
        if !cluster.s.pods.Current(snapshot) {
          return;
        }
        RenewFacts(cluster.s, c, snapshot);
        var w := cluster.s.pods.log[snapshot];
        cluster.s := cluster.s.(pods := cluster.s.pods.Update(snapshot, EnsureOwnership(w.content, c, cluster.s.claims[c])));
        ghost var renewed := cluster.s;
        ok := SyncBindPod(c, w.name, calls);
        RenewedByPods(old(cluster.s), renewed, cluster.s, c, snapshot);
    }

    /** The pass a claim gets: none once it is Lost, else to be bound or kept. */
    method Observe(c: string, orphans: seq<string>, idle: seq<nat>, named: set<string>, broken: set<string>, read: PodRead, snapshot: nat, calls: Calls)
      requires Inv(cluster.s) && Active(cluster.s, c) && c !in cluster.s.binding
      requires ListsOwned(cluster.s, c, orphans) && CanBeTaken(cluster.s, idle)
      requires var p := cluster.s.claims[c].podName;
               p.Some? ==> if read.Gone? then p.value !in cluster.s.pods.live
                           else snapshot in cluster.s.pods.log && cluster.s.pods.log[snapshot].name == p.value
      modifies cluster
      ensures Inv(cluster.s)
      ensures old(cluster.s).claims[c].phase == Lost ==> cluster.s == old(cluster.s)
      ensures OnlyClaim(old(cluster.s), cluster.s, c)
      ensures old(cluster.s).claims[c].phase == Outdated && old(cluster.s).claims[c].podName.Some? ==> cluster.s.claims[c].phase in {Outdated, Lost}
    {
      hide Ownership, Recycling;
      if cluster.s.claims[c].phase == Lost {
        return;
      }
      if cluster.s.claims[c].podName.None? {
        var _ := Bind(c, orphans, idle, named, broken, calls);
      } else {
        var _ := Sync(c, read, snapshot, calls);
      }
    }
  }

  /** The listed versions show pods that are Idle and not outdated. */
  ghost predicate CanBeTaken(s: State, idle: seq<nat>) {
    forall v :: v in idle ==>
      v in s.pods.log && s.pods.log[v].content.Phase() == Idle && OutdatedKey !in s.pods.log[v].content.labels
  }

  lemma SameLists(s: State, t: State, c: string, orphans: seq<string>, idle: seq<nat>)
    requires s.pods.Valid() && t.pods == s.pods && ListsOwned(s, c, orphans) && CanBeTaken(s, idle)
    ensures ListsOwned(t, c, orphans) && CanBeTaken(t, idle)
  {
    forall p
      ensures Owns(s, c, p) <==> Owns(t, c, p)
    {
    }
    hide Owns;
    assert forall k :: 0 <= k < |orphans| ==> Owns(s, c, orphans[k]);
  }

  lemma OwnsByPods(s: State, t: State, c: string, p: string)
    requires s.pods.Valid() && t.pods == s.pods
    ensures Owns(s, c, p) <==> Owns(t, c, p)
  {
  }

  /** The claim took the first pod of the list that was not passed over, with all labels set. */
  ghost predicate TookFirst(s: State, t: State, c: string, idle: seq<nat>, named: set<string>, broken: set<string>, p: string) {
    && s.pods.Valid() && t.pods.Valid() && c in s.claims && TakenFrom(s, t, c, p)
    && (forall v :: v in idle ==> v in s.pods.log)
    && exists k :: 0 <= k < |idle| && Decides(s, idle, named, broken, k, Some(p))
  }

  lemma TookFacts(s: State, pending: State, t: State, c: string, idle: seq<nat>, named: set<string>, broken: set<string>, p: string)
    requires s.pods.Valid() && t.pods.Valid() && pending.pods == s.pods && c in s.claims && c in pending.claims && CanBeTaken(s, idle)
    requires pending.claims[c] == s.claims[c].(phase := Pending) && TakenFrom(pending, t, c, p)
    requires exists k :: 0 <= k < |idle| && Decides(pending, idle, named, broken, k, Some(p))
    ensures TookFirst(s, t, c, idle, named, broken, p)
  {
    forall key
      ensures TakenLabel(s.pods.Get(p), c, s.claims[c], t.pods.Get(p).labels, key)
    {
      assert TakenLabel(pending.pods.Get(p), c, pending.claims[c], t.pods.Get(p).labels, key);
    }
    hide TakenLabel;
    var k :| 0 <= k < |idle| && Decides(pending, idle, named, broken, k, Some(p));
    assert Decides(s, idle, named, broken, k, Some(p));
  }

  lemma TookKeeps(s: State, t: State, u: State, c: string, idle: seq<nat>, named: set<string>, broken: set<string>, p: string)
    requires TookFirst(s, t, c, idle, named, broken, p) && u.pods == t.pods
    ensures TookFirst(s, u, c, idle, named, broken, p)
  {
    hide TakenLabel, Decides;
  }

  /** The pod read at v carries the claim's labels, and is otherwise as it was. */
  ghost predicate Renewed(s: State, t: State, c: string, v: nat) {
    && s.pods.Valid() && t.pods.Valid() && c in s.claims && v in s.pods.log && s.pods.log[v].name in t.pods.live
    && var was, pod := s.pods.log[v].content, t.pods.Get(s.pods.log[v].name);
       && pod == was.(labels := pod.labels)
       && forall key :: TakenLabel(was, c, s.claims[c], pod.labels, key)
  }

  lemma RenewFacts(s: State, c: string, v: nat)
    requires Inv(s) && Active(s, c) && c !in s.binding && v in s.pods.log && s.pods.Current(v)
    requires s.claims[c].podName == Some(s.pods.log[v].name)
    ensures var t := s.(pods := s.pods.Update(v, EnsureOwnership(s.pods.log[v].content, c, s.claims[c])));
            Inv(t) && Owns(t, c, s.pods.log[v].name) && Renewed(s, t, c, v)
  {
    hide Ownership, Recycling;
    var w := s.pods.log[v];
    var to := EnsureOwnership(w.content, c, s.claims[c]);
    StepKeepsInv(NO_CONFIG, s, SyncOwnership(c, v));
    UpdateFacts(s.pods, v, to);
    OwnershipFacts(w.content, c, s.claims[c]);
    PutFacts(s.pods, w.name, to);
    hide Enabled, Apply;
    forall key
      ensures TakenLabel(w.content, c, s.claims[c], to.labels, key)
    {
      OwnershipLabels(w.content, c, s.claims[c], key);
    }
    hide TakenLabel, EnsureOwnership;
  }

  lemma RenewedByPods(s: State, t: State, u: State, c: string, v: nat)
    requires Renewed(s, t, c, v) && u.pods == t.pods
    ensures Renewed(s, u, c, v)
  {
    hide TakenLabel;
  }
}
