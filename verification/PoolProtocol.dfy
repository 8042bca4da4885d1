/** The CN pool protocol: claim, pool and store controllers racing on pod labels through the
    API server, one API call a step. */
module PoolProtocol {
  import opened Options
  import opened ApiServer
  import opened StoreScore
  import opened PodModel

  /** `binding[c]` is the pod the running Bind pass of claim c has taken but not yet written
      into the claim; `finalizing` holds the claims whose deletion their controller has seen;
      `retired` the pods the pool marked Terminating and put in PodsToDelete; `rounds[p]` the
      latest observation round that rewrote the score of pod p. */
  datatype State = State(
    now: nat,
    pods: Store<Pod>,
    claims: map<string, Claim>,
    binding: map<string, string>,
    finalizing: set<string>,
    retired: set<string>,
    rounds: map<string, Record>)

  /** A round of observation and the score it started from. */
  datatype Record = Record(round: Round, before: Option<Score>)

  const INIT := State(0, EmptyStore(), map[], map[], {}, {}, map[])

  datatype Step =
    | Tick(seconds: nat)
    | CreatePod(pod: string, labels: Labels)
    | DeletePod(pod: string)
    | RewritePod(pod: string, to: Pod)
    | CreateClaim(claim: string, spec: Claim)
    | DeleteClaim(claim: string)
    | SetClaimPhase(claim: string, phase: ClaimPhase)
    | BindOrphan(claim: string, pod: string)
    | BindIdle(claim: string, snapshot: nat)
    | CommitBind(claim: string)
    | AbortBind(claim: string)
    | SyncOwnership(claim: string, snapshot: nat)
    | SyncGone(claim: string)
    | BeginFinalize(claim: string)
    | FinalizePod(claim: string, pod: string)
    | EndFinalize(claim: string)
    | RetireIdle(snapshot: nat)
    | RetireTerminating(snapshot: nat)
    | ReconcileStore(pod: string, registered: bool)
    | ObserveStore(pod: string, round: Round)

  /** Non-deleting claims other than `claim` that name the pod. */
  function Holders(s: State, claim: string, pod: string): set<string> {
    set h | h in s.claims && h != claim && !s.claims[h].deleting && s.claims[h].podName == Some(pod)
  }

  predicate Owns(s: State, claim: string, pod: string)
    requires s.pods.Valid()
  {
    pod in s.pods.live && s.pods.Get(pod).OwnedBy(claim)
  }

  /** A pass of the claim controller other than finalization can act on the claim. */
  predicate Active(s: State, claim: string) {
    claim in s.claims && claim !in s.finalizing
  }

  predicate Enabled(s: State, step: Step)
    requires s.pods.Valid()
  {
    match step
    case Tick(_) => true
    case CreatePod(p, labels) =>
      !s.pods.Used(p) && Lookup(labels, PhaseKey) == Unknown && ClaimedByKey !in labels
    case DeletePod(p) => p in s.pods.live
    case RewritePod(p, to) =>
      // writers of other labels and annotations
      && p in s.pods.live
      && to.Phase() == s.pods.Get(p).Phase() && to.ClaimedBy() == s.pods.Get(p).ClaimedBy()
      && to.reclaimedAt == s.pods.Get(p).reclaimedAt && to.score == s.pods.Get(p).score
    case CreateClaim(c, spec) => c !in s.claims && spec.podName == None && !spec.deleting
    case DeleteClaim(c) => c in s.claims
    case SetClaimPhase(c, _) => c in s.claims
    case BindOrphan(c, p) => Active(s, c) && c !in s.binding && Owns(s, c, p)
    case BindIdle(c, snapshot) =>
      && Active(s, c) && c !in s.binding
      && (forall p :: p in s.pods.live ==> !Owns(s, c, p))
      && snapshot in s.pods.log
      && s.pods.log[snapshot].content.Phase() == Idle
      && OutdatedKey !in s.pods.log[snapshot].content.labels
    case CommitBind(c) => Active(s, c) && c in s.binding
    case AbortBind(c) => c in s.binding
    case SyncOwnership(c, snapshot) =>
      && Active(s, c) && c !in s.binding
      && snapshot in s.pods.log
      && s.claims[c].podName == Some(s.pods.log[snapshot].name)
    case SyncGone(c) =>
      && Active(s, c) && c !in s.binding
      && s.claims[c].podName.Some? && s.claims[c].podName.value !in s.pods.live
    case BeginFinalize(c) => c in s.claims && s.claims[c].deleting && c !in s.binding
    case FinalizePod(c, p) => c in s.claims && c in s.finalizing && Owns(s, c, p)
    case EndFinalize(c) =>
      && c in s.claims && c in s.finalizing
      && (forall p :: p in s.pods.live ==> !Owns(s, c, p))
    case RetireIdle(snapshot) =>
      && snapshot in s.pods.log
      && !s.pods.log[snapshot].content.InUse()
      && s.pods.log[snapshot].content.Phase() != Terminating
    case RetireTerminating(snapshot) =>
      && snapshot in s.pods.log
      && s.pods.log[snapshot].content.Phase() == Terminating
    case ReconcileStore(p, _) => p in s.pods.live
    case ObserveStore(p, _) => p in s.pods.live
  }

  /** One pod of a finalization pass: drained, moved to its only ready holder, or left. */
  function FinalizedPod(s: State, c: string, p: string): Pod
    requires s.pods.Valid() && c in s.claims && p in s.pods.live
  {
    var pod := s.pods.Get(p);
    var holders := Holders(s, c, p);
    if holders == {} then Reclaim(pod, s.claims[c], s.now)
    else if |holders| == 1 then
      SingleHolder(holders);
      var h :| h in holders && holders == {h};
      if s.claims[h].Ready() then TransferOwnership(pod, s.claims[c], h, s.claims[h]) else pod
    else pod
  }

  function Apply(cfg: DrainConfig, s: State, step: Step): State
    requires s.pods.Valid() && Enabled(s, step)
  {
    match step
    case Tick(d) => s.(now := s.now + d)
    case CreatePod(p, labels) => s.(pods := s.pods.Put(p, Pod(labels, None, false, None)))
    case DeletePod(p) => s.(pods := s.pods.Remove(p))
    case RewritePod(p, to) => s.(pods := s.pods.Put(p, to))
    case CreateClaim(c, spec) => s.(claims := s.claims[c := spec])
    case DeleteClaim(c) => s.(claims := s.claims[c := s.claims[c].(deleting := true)])
    case SetClaimPhase(c, phase) => s.(claims := s.claims[c := s.claims[c].(phase := phase)])
    case BindOrphan(c, p) => s.(binding := s.binding[c := p])
    case BindIdle(c, snapshot) =>
      var w := s.pods.log[snapshot];
      if s.pods.Current(snapshot) then
        s.(pods := s.pods.Update(snapshot, EnsureOwnership(w.content, c, s.claims[c])),
           binding := s.binding[c := w.name])
      else s
    case CommitBind(c) =>
      s.(claims := s.claims[c := s.claims[c].(podName := Some(s.binding[c]))], binding := s.binding - {c})
    case AbortBind(c) => s.(binding := s.binding - {c})
    case SyncOwnership(c, snapshot) =>
      s.(pods := s.pods.Update(snapshot, EnsureOwnership(s.pods.log[snapshot].content, c, s.claims[c])))
    case SyncGone(c) => s.(claims := s.claims[c := s.claims[c].(podName := None)])
    case BeginFinalize(c) => s.(finalizing := s.finalizing + {c})
    case FinalizePod(c, p) => s.(pods := s.pods.Put(p, FinalizedPod(s, c, p)))
    case EndFinalize(c) => s.(claims := s.claims - {c}, finalizing := s.finalizing - {c})
    case RetireIdle(snapshot) =>
      if s.pods.Current(snapshot) then
        s.(pods := s.pods.Update(snapshot, MarkTerminating(s.pods.log[snapshot].content)),
           retired := s.retired + {s.pods.log[snapshot].name})
      else s
    case RetireTerminating(snapshot) => s.(retired := s.retired + {s.pods.log[snapshot].name})
    case ReconcileStore(p, registered) =>
      var pod := s.pods.Get(p);
      var action := PoolingDecision(cfg, pod, s.now, registered);
      if action == Nothing then s else s.(pods := s.pods.Put(p, ApplyStoreAction(pod, action)))
    case ObserveStore(p, round) =>
      if round.started.None? then s
      else
        var pod := s.pods.Get(p);
        s.(pods := s.pods.Put(p, pod.(score := SyncStats(pod.score, round))), rounds := s.rounds[p := Record(round, pod.score)])
  }

  lemma SingleHolder(holders: set<string>)
    requires |holders| == 1
    ensures exists h :: h in holders && holders == {h}
  {
    var h :| h in holders;
    assert |holders - {h}| == 0;
    assert holders == {h};
  }

  /** What every interleaving keeps. */
  ghost predicate Ownership(s: State)
    requires s.pods.Valid()
  {
    // a claim's pod is Bound to it, from the moment Bind takes it until deletion is seen
    && (forall c, p :: Active(s, c) && s.claims[c].podName == Some(p) && p in s.pods.live ==> Owns(s, c, p))
    && (forall c :: c in s.binding ==> Active(s, c) && s.pods.Used(s.binding[c]))
    && (forall c :: c in s.binding && s.binding[c] in s.pods.live ==> Owns(s, c, s.binding[c]))
    && (forall c, p :: c in s.claims && s.claims[c].podName == Some(p) ==> s.pods.Used(p))
    // no claim has two pods, and no pod is left to a claim that is gone
    && (forall c, p, q :: Owns(s, c, p) && Owns(s, c, q) ==> p == q)
    && (forall c, p :: Owns(s, c, p) ==> c in s.claims)
    && (forall c :: c in s.finalizing ==> c in s.claims && s.claims[c].deleting)
  }

  /** The branch for draining pods without a reclaim time is never taken. */
  ghost predicate DrainingIsDated(s: State)
    requires s.pods.Valid()
  {
    forall p :: p in s.pods.live && s.pods.Get(p).Phase() == Draining ==> s.pods.Get(p).reclaimedAt.Some?
  }

  /** Once any reader can have seen a pod Terminating, the pod stays so. */
  ghost predicate TerminatingIsFinal(s: State)
    requires s.pods.Valid()
  {
    forall v :: v in s.pods.log && s.pods.log[v].content.Phase() == Terminating && s.pods.log[v].name in s.pods.live
      ==> s.pods.Get(s.pods.log[v].name).Phase() == Terminating
  }

  ghost predicate RetiredIsTerminating(s: State)
    requires s.pods.Valid()
  {
    forall p :: p in s.retired ==> s.pods.Used(p) && (p in s.pods.live ==> s.pods.Get(p).Phase() == Terminating)
  }

  /** A score is what the latest round recorded for its pod made of the score before. */
  ghost predicate ScoreIsRecorded(s: State)
    requires s.pods.Valid()
  {
    forall p :: p in s.pods.live && s.pods.Get(p).score.Some? ==> MadeBy(s.rounds, p, s.pods.Get(p).score)
  }

  ghost predicate MadeBy(rounds: map<string, Record>, p: string, score: Option<Score>) {
    p in rounds && rounds[p].round.started.Some? && score == SyncStats(rounds[p].before, rounds[p].round)
  }

  ghost predicate Recycling(s: State)
    requires s.pods.Valid()
  {
    DrainingIsDated(s) && TerminatingIsFinal(s) && RetiredIsTerminating(s) && ScoreIsRecorded(s)
  }

  ghost predicate Inv(s: State) {
    s.pods.Valid() && Ownership(s) && Recycling(s)
  }

  /** A write on one pod that keeps its owner, phase, reclaim time and score. */
  ghost predicate SameRole(a: Pod, b: Pod) {
    a.Phase() == b.Phase() && a.ClaimedBy() == b.ClaimedBy() && a.reclaimedAt == b.reclaimedAt && a.score == b.score
  }

  lemma PutKeepsTerminatingFinal(s: State, p: string, to: Pod, t: State)
    requires s.pods.Valid() && TerminatingIsFinal(s) && (p in s.pods.live || !s.pods.Used(p))
    requires t.pods == s.pods.Put(p, to)
    requires p in s.pods.live && s.pods.Get(p).Phase() == Terminating ==> to.Phase() == Terminating
    ensures t.pods.Valid() && TerminatingIsFinal(t)
  {
    PutFacts(s.pods, p, to);
    forall v | v in t.pods.log && t.pods.log[v].content.Phase() == Terminating && t.pods.log[v].name in t.pods.live
      ensures t.pods.Get(t.pods.log[v].name).Phase() == Terminating
    {
      if v != t.pods.version {
        assert t.pods.log[v] == s.pods.log[v];
        if s.pods.log[v].name == p { assert s.pods.Used(p); }
      }
    }
  }

  /** The recycling half after a write on one pod. */
  lemma PutKeepsRecycling(s: State, p: string, to: Pod, t: State)
    requires Inv(s) && (p in s.pods.live || !s.pods.Used(p))
    requires t.pods == s.pods.Put(p, to)
    requires t.retired == s.retired || (t.retired == s.retired + {p} && to.Phase() == Terminating)
    requires forall q :: q in s.rounds && q != p ==> q in t.rounds && t.rounds[q] == s.rounds[q]
    requires to.Phase() == Draining ==> to.reclaimedAt.Some?
    requires p in s.pods.live && s.pods.Get(p).Phase() == Terminating ==> to.Phase() == Terminating
    requires to.score.Some? ==> MadeBy(t.rounds, p, to.score)
    ensures t.pods.Valid() && Recycling(t)
  {
    hide Ownership;
    PutKeepsTerminatingFinal(s, p, to, t);
    PutKeepsDrainingDated(s, p, to, t);
    PutKeepsRetired(s, p, to, t);
    PutKeepsScores(s, p, to, t);
  }

  lemma PutKeepsDrainingDated(s: State, p: string, to: Pod, t: State)
    requires s.pods.Valid() && DrainingIsDated(s) && t.pods == s.pods.Put(p, to)
    requires to.Phase() == Draining ==> to.reclaimedAt.Some?
    ensures t.pods.Valid() && DrainingIsDated(t)
  {
    PutFacts(s.pods, p, to);
  }

  lemma PutKeepsRetired(s: State, p: string, to: Pod, t: State)
    requires s.pods.Valid() && RetiredIsTerminating(s) && t.pods == s.pods.Put(p, to)
    requires p in s.pods.live || !s.pods.Used(p)
    requires t.retired == s.retired || (t.retired == s.retired + {p} && to.Phase() == Terminating)
    requires p in s.pods.live && s.pods.Get(p).Phase() == Terminating ==> to.Phase() == Terminating
    ensures t.pods.Valid() && RetiredIsTerminating(t)
  {
    PutFacts(s.pods, p, to);
  }

  lemma PutKeepsScores(s: State, p: string, to: Pod, t: State)
    requires s.pods.Valid() && ScoreIsRecorded(s) && t.pods == s.pods.Put(p, to)
    requires forall q :: q in s.rounds && q != p ==> q in t.rounds && t.rounds[q] == s.rounds[q]
    requires to.score.Some? ==> MadeBy(t.rounds, p, to.score)
    ensures t.pods.Valid() && ScoreIsRecorded(t)
  {
    PutFacts(s.pods, p, to);
  }

  /** The ownership half when the set of owners is unchanged except possibly at one pod, which
      no active claim counts on any more. */
  lemma DisownKeepsOwnership(s: State, p: string, to: Pod, t: State)
    requires Inv(s) && p in s.pods.live && to.Phase() != Bound
    requires forall c :: Active(s, c) ==> !Owns(s, c, p)
    requires t.pods == s.pods.Put(p, to)
    requires t.claims == s.claims && t.binding == s.binding && t.finalizing == s.finalizing
    ensures t.pods.Valid() && Ownership(t)
  {
    PutFacts(s.pods, p, to);
    assert forall d, q :: Owns(t, d, q) <==> Owns(s, d, q) && q != p;
    assert forall d :: Active(t, d) <==> Active(s, d);
  }

  lemma SameOwnerKeepsOwnership(s: State, p: string, to: Pod, t: State)
    requires Inv(s) && (p in s.pods.live || !s.pods.Used(p))
    requires if p in s.pods.live then to.Phase() == s.pods.Get(p).Phase() && to.ClaimedBy() == s.pods.Get(p).ClaimedBy()
             else to.Phase() != Bound
    requires t.pods == s.pods.Put(p, to)
    requires t.claims == s.claims && t.binding == s.binding && t.finalizing == s.finalizing
    ensures t.pods.Valid() && Ownership(t)
  {
    PutFacts(s.pods, p, to);
    assert forall d, q :: Owns(t, d, q) <==> Owns(s, d, q);
    assert forall d :: Active(t, d) <==> Active(s, d);
  }

  lemma PutKeepsRole(s: State, p: string, to: Pod, t: State)
    requires Inv(s) && p in s.pods.live && SameRole(s.pods.Get(p), to)
    requires t == s.(pods := s.pods.Put(p, to))
    ensures Inv(t)
  {
    SameOwnerKeepsOwnership(s, p, to, t);
    PutKeepsRecycling(s, p, to, t);
  }

  lemma CreatePodKeepsInv(s: State, p: string, labels: Labels, t: State)
    requires Inv(s) && Enabled(s, CreatePod(p, labels))
    requires t == s.(pods := s.pods.Put(p, Pod(labels, None, false, None)))
    ensures Inv(t)
  {
    SameOwnerKeepsOwnership(s, p, Pod(labels, None, false, None), t);
    PutKeepsRecycling(s, p, Pod(labels, None, false, None), t);
  }

  lemma DeletePodKeepsInv(s: State, p: string, t: State)
    requires Inv(s) && p in s.pods.live
    requires t == s.(pods := s.pods.Remove(p))
    ensures Inv(t)
  {
    RemoveFacts(s.pods, p);
    assert forall c, q :: Owns(t, c, q) <==> Owns(s, c, q) && q != p;
  }

  /** Taking an Idle pod: its new owner had none, and nobody named the pod. */
  lemma TakeIdleKeepsOwnership(s: State, c: string, p: string, to: Pod, t: State)
    requires Inv(s) && Active(s, c) && c !in s.binding && p in s.pods.live && s.pods.Get(p).Phase() == Idle
    requires forall q :: !Owns(s, c, q)
    requires to.OwnedBy(c)
    requires t == s.(pods := s.pods.Put(p, to), binding := s.binding[c := p])
    ensures t.pods.Valid() && Ownership(t)
  {
    PutFacts(s.pods, p, to);
    LiveIsUsed(s.pods, p);
    assert forall d, q :: Owns(t, d, q) <==> Owns(s, d, q) || (d == c && q == p);
    assert forall d :: Active(t, d) <==> Active(s, d);
  }

  lemma TakeIdleKeepsInv(s: State, c: string, p: string, t: State)
    requires Inv(s) && Active(s, c) && c !in s.binding && p in s.pods.live && s.pods.Get(p).Phase() == Idle
    requires forall q :: q in s.pods.live ==> !Owns(s, c, q)
    requires t == s.(pods := s.pods.Put(p, EnsureOwnership(s.pods.Get(p), c, s.claims[c])), binding := s.binding[c := p])
    ensures Inv(t)
  {
    var to := EnsureOwnership(s.pods.Get(p), c, s.claims[c]);
    OwnershipFacts(s.pods.Get(p), c, s.claims[c]);
    TakeIdleKeepsOwnership(s, c, p, to, t);
    PutKeepsRecycling(s, p, to, t);
  }

  /** A write that leaves a pod with no owner, when no active claim counts on it. */
  lemma DisownKeepsInv(s: State, p: string, to: Pod, t: State)
    requires Inv(s) && p in s.pods.live && to.Phase() != Bound
    requires to.Phase() == Draining ==> to.reclaimedAt.Some?
    requires s.pods.Get(p).Phase() == Terminating ==> to.Phase() == Terminating
    requires to.score == s.pods.Get(p).score
    requires forall c :: Active(s, c) ==> !Owns(s, c, p)
    requires t == s.(pods := s.pods.Put(p, to))
          || (t == s.(pods := s.pods.Put(p, to), retired := s.retired + {p}) && to.Phase() == Terminating)
    ensures Inv(t)
  {
    DisownKeepsOwnership(s, p, to, t);
    PutKeepsRecycling(s, p, to, t);
    PutFacts(s.pods, p, to);
  }

  /** In these runs no other claim names a pod under finalization. */
  lemma NoHolders(s: State, c: string, p: string)
    requires Inv(s) && Owns(s, c, p)
    ensures Holders(s, c, p) == {}
  {
    assert forall h :: h in s.claims && !s.claims[h].deleting ==> Active(s, h);
    assert forall h :: h in Holders(s, c, p) ==> Owns(s, h, p);
  }

  lemma ObserveKeepsInv(s: State, p: string, round: Round, t: State)
    requires Inv(s) && p in s.pods.live && round.started.Some?
    requires t == s.(pods := s.pods.Put(p, s.pods.Get(p).(score := SyncStats(s.pods.Get(p).score, round))),
                     rounds := s.rounds[p := Record(round, s.pods.Get(p).score)])
    ensures Inv(t)
  {
    var pod := s.pods.Get(p);
    var to := pod.(score := SyncStats(pod.score, round));
    SameOwnerKeepsOwnership(s, p, to, t);
    PutKeepsRecycling(s, p, to, t);
  }

  /** The store controller acts on pods nobody owns, and does not touch their scores. */
  lemma ActionFacts(cfg: DrainConfig, s: State, p: string, registered: bool)
    requires s.pods.Valid() && p in s.pods.live
    requires PoolingDecision(cfg, s.pods.Get(p), s.now, registered) != Nothing
    ensures var pod := s.pods.Get(p);
            var to := ApplyStoreAction(pod, PoolingDecision(cfg, pod, s.now, registered));
            && to.Phase() != Bound && to.Phase() != Draining && to.score == pod.score
            && pod.Phase() != Terminating && (forall c :: !Owns(s, c, p))
  {
  }

  lemma StoreKeepsInv(cfg: DrainConfig, s: State, p: string, registered: bool, t: State)
    requires Inv(s) && p in s.pods.live
    requires t == Apply(cfg, s, ReconcileStore(p, registered))
    ensures Inv(t)
  {
    var pod := s.pods.Get(p);
    var action := PoolingDecision(cfg, pod, s.now, registered);
    if action != Nothing {
      ActionFacts(cfg, s, p, registered);
      hide Ownership, Recycling, PoolingDecision, ApplyStoreAction;
      DisownKeepsInv(s, p, ApplyStoreAction(pod, action), t);
    }
  }

  /** Steps that write no pod keep the recycling half and the owners. */
  lemma SamePods(s: State, t: State)
    requires Inv(s) && t.pods == s.pods && t.retired == s.retired && t.rounds == s.rounds
    ensures t.pods.Valid() && Recycling(t)
    ensures forall c, q :: Owns(t, c, q) <==> Owns(s, c, q)
  {
    assert DrainingIsDated(t) && TerminatingIsFinal(t) && RetiredIsTerminating(t) && ScoreIsRecorded(t);
  }

  lemma CommitKeepsInv(cfg: DrainConfig, s: State, c: string)
    requires Inv(s) && Enabled(s, CommitBind(c))
    ensures Inv(Apply(cfg, s, CommitBind(c)))
  {
    var t := Apply(cfg, s, CommitBind(c));
    SamePods(s, t);
    assert forall d :: Active(s, d) <==> Active(t, d);
  }

  /** Editing claims without naming a pod in them, and without undoing a deletion. */
  lemma ClaimEditKeepsInv(s: State, t: State)
    requires Inv(s) && t == s.(claims := t.claims, now := t.now)
    requires forall c :: c in s.claims ==>
      && c in t.claims
      && (t.claims[c].podName == s.claims[c].podName || t.claims[c].podName == None)
      && (s.claims[c].deleting ==> t.claims[c].deleting)
    requires forall c :: c in t.claims && c !in s.claims ==> t.claims[c].podName == None
    ensures Inv(t)
  {
    SamePods(s, t);
    assert forall c :: Active(s, c) ==> Active(t, c);
    assert forall c :: Active(t, c) && t.claims[c].podName.Some? ==> Active(s, c);
  }

  lemma BindOrphanKeepsInv(cfg: DrainConfig, s: State, c: string, p: string)
    requires Inv(s) && Enabled(s, BindOrphan(c, p))
    ensures Inv(Apply(cfg, s, BindOrphan(c, p)))
  {
    hide Ownership, Recycling;
    var t := Apply(cfg, s, BindOrphan(c, p));
    SamePods(s, t);
    OrphanKeepsOwnership(s, c, p, t);
  }

  lemma OrphanKeepsOwnership(s: State, c: string, p: string, t: State)
    requires s.pods.Valid() && Ownership(s) && Active(s, c) && Owns(s, c, p)
    requires t == s.(binding := s.binding[c := p])
    ensures Ownership(t)
  {
    LiveIsUsed(s.pods, p);
    assert forall d, q :: Owns(t, d, q) <==> Owns(s, d, q);
    assert forall d :: Active(t, d) <==> Active(s, d);
  }

  lemma AbortKeepsInv(cfg: DrainConfig, s: State, c: string)
    requires Inv(s) && Enabled(s, AbortBind(c))
    ensures Inv(Apply(cfg, s, AbortBind(c)))
  {
    var t := Apply(cfg, s, AbortBind(c));
    SamePods(s, t);
    assert forall d :: Active(t, d) <==> Active(s, d);
  }

  lemma BeginFinalizeKeepsInv(cfg: DrainConfig, s: State, c: string)
    requires Inv(s) && Enabled(s, BeginFinalize(c))
    ensures Inv(Apply(cfg, s, BeginFinalize(c)))
  {
    var t := Apply(cfg, s, BeginFinalize(c));
    SamePods(s, t);
    assert forall d :: Active(t, d) <==> Active(s, d) && d != c;
  }

  lemma EndFinalizeKeepsInv(cfg: DrainConfig, s: State, c: string)
    requires Inv(s) && Enabled(s, EndFinalize(c))
    ensures Inv(Apply(cfg, s, EndFinalize(c)))
  {
    var t := Apply(cfg, s, EndFinalize(c));
    SamePods(s, t);
    assert forall d :: Active(t, d) <==> Active(s, d);
  }

  lemma BindIdleKeepsInv(cfg: DrainConfig, s: State, c: string, snapshot: nat)
    requires Inv(s) && Enabled(s, BindIdle(c, snapshot))
    ensures Inv(Apply(cfg, s, BindIdle(c, snapshot)))
  {
    hide Recycling, Ownership;
    var w := s.pods.log[snapshot];
    UpdateFacts(s.pods, snapshot, EnsureOwnership(w.content, c, s.claims[c]));
    if s.pods.Current(snapshot) { TakeIdleKeepsInv(s, c, w.name, Apply(cfg, s, BindIdle(c, snapshot))); }
  }

  lemma SyncKeepsInv(cfg: DrainConfig, s: State, c: string, snapshot: nat)
    requires Inv(s) && Enabled(s, SyncOwnership(c, snapshot))
    ensures Inv(Apply(cfg, s, SyncOwnership(c, snapshot)))
  {
    hide Recycling;
    var w := s.pods.log[snapshot];
    var to := EnsureOwnership(w.content, c, s.claims[c]);
    UpdateFacts(s.pods, snapshot, to);
    if s.pods.Current(snapshot) {
      OwnershipFacts(w.content, c, s.claims[c]);
      assert Owns(s, c, w.name);
      PutKeepsRole(s, w.name, to, Apply(cfg, s, SyncOwnership(c, snapshot)));
    }
  }

  lemma FinalizeKeepsInv(cfg: DrainConfig, s: State, c: string, p: string)
    requires Inv(s) && Enabled(s, FinalizePod(c, p))
    ensures Inv(Apply(cfg, s, FinalizePod(c, p)))
  {
    hide Recycling;
    NoHolders(s, c, p);
    ReclaimFacts(s.pods.Get(p), s.claims[c], s.now);
    DisownKeepsInv(s, p, Reclaim(s.pods.Get(p), s.claims[c], s.now), Apply(cfg, s, FinalizePod(c, p)));
  }

  lemma RetireIdleKeepsInv(cfg: DrainConfig, s: State, snapshot: nat)
    requires Inv(s) && Enabled(s, RetireIdle(snapshot))
    ensures Inv(Apply(cfg, s, RetireIdle(snapshot)))
  {
    hide Recycling, Ownership;
    var w := s.pods.log[snapshot];
    UpdateFacts(s.pods, snapshot, MarkTerminating(w.content));
    if s.pods.Current(snapshot) {
      DisownKeepsInv(s, w.name, MarkTerminating(w.content), Apply(cfg, s, RetireIdle(snapshot)));
    }
  }

  lemma RetireTerminatingKeepsInv(cfg: DrainConfig, s: State, snapshot: nat)
    requires Inv(s) && Enabled(s, RetireTerminating(snapshot))
    ensures Inv(Apply(cfg, s, RetireTerminating(snapshot)))
  {
    var t := Apply(cfg, s, RetireTerminating(snapshot));
    SamePods(s, t.(retired := s.retired));
    assert s.pods.Used(s.pods.log[snapshot].name);
    assert DrainingIsDated(t) && TerminatingIsFinal(t) && ScoreIsRecorded(t);
    assert RetiredIsTerminating(t);
    assert forall c, q :: Owns(t, c, q) <==> Owns(s, c, q);
    assert forall d :: Active(t, d) <==> Active(s, d);
  }

  /** Every step of every controller, and of the environment, keeps the invariant. */
  lemma StepKeepsInv(cfg: DrainConfig, s: State, step: Step)
    requires Inv(s) && Enabled(s, step)
    ensures Inv(Apply(cfg, s, step))
  {
    hide Recycling, Ownership;
    var t := Apply(cfg, s, step);
    match step
    case CreatePod(p, labels) => CreatePodKeepsInv(s, p, labels, t);
    case DeletePod(p) => DeletePodKeepsInv(s, p, t);
    case RewritePod(p, to) => PutKeepsRole(s, p, to, t);
    case BindOrphan(c, p) => BindOrphanKeepsInv(cfg, s, c, p);
    case BindIdle(c, snapshot) => BindIdleKeepsInv(cfg, s, c, snapshot);
    case CommitBind(c) => CommitKeepsInv(cfg, s, c);
    case AbortBind(c) => AbortKeepsInv(cfg, s, c);
    case SyncOwnership(c, snapshot) => SyncKeepsInv(cfg, s, c, snapshot);
    case BeginFinalize(c) => BeginFinalizeKeepsInv(cfg, s, c);
    case FinalizePod(c, p) => FinalizeKeepsInv(cfg, s, c, p);
    case EndFinalize(c) => EndFinalizeKeepsInv(cfg, s, c);
    case RetireIdle(snapshot) => RetireIdleKeepsInv(cfg, s, snapshot);
    case RetireTerminating(snapshot) => RetireTerminatingKeepsInv(cfg, s, snapshot);
    case ReconcileStore(p, registered) => StoreKeepsInv(cfg, s, p, registered, t);
    case ObserveStore(p, round) =>
      if round.started.Some? { ObserveKeepsInv(s, p, round, t); }
    case Tick(_) => ClaimEditKeepsInv(s, t);
    case CreateClaim(_, _) => ClaimEditKeepsInv(s, t);
    case DeleteClaim(_) => ClaimEditKeepsInv(s, t);
    case SetClaimPhase(_, _) => ClaimEditKeepsInv(s, t);
    case SyncGone(_) => ClaimEditKeepsInv(s, t);
  }
}
