/** Pool pods and CN claims, and the label rewrites the claim, store and pool controllers
    perform on a pod. */
module PodModel {
  import opened Options
  import opened StoreScore

  /** The label keys the operator manages, told apart from every other key. */
  datatype LabelKey =
    | PhaseKey | ClaimedByKey | ClaimSetKey | OwnerKey | LastOwnerKey
    | OutdatedKey | DirectKey | LifecycleKey
    | UserKey(name: string)

  /** The phase constants, told apart from every other label value. */
  datatype LabelValue = Unknown | Idle | Bound | Draining | Terminating | Text(text: string)

  type Labels = map<LabelKey, LabelValue>

  function Lookup(labels: Labels, key: LabelKey): LabelValue {
    if key in labels then labels[key] else Text("")
  }

  datatype Pod = Pod(labels: Labels, reclaimedAt: Option<int>, deleteOnReclaim: bool, score: Option<Score>) {
    function Phase(): LabelValue { Lookup(labels, PhaseKey) }
    function ClaimedBy(): LabelValue { Lookup(labels, ClaimedByKey) }
    predicate OwnedBy(claim: string) { Phase() == Bound && ClaimedBy() == Text(claim) }
    predicate InUse() { Phase() == Bound || Phase() == Draining }
  }

  datatype ClaimPhase = NoPhase | Pending | BoundClaim | Lost | Outdated

  datatype Claim = Claim(
    additional: Labels, claimSet: string, owner: Option<string>,
    podName: Option<string>, phase: ClaimPhase, deleting: bool)
  {
    predicate Ready() { phase == BoundClaim || phase == Outdated }
  }

  /** What a claim writes on the pod it takes or keeps. */
  function EnsureOwnership(pod: Pod, name: string, claim: Claim): Pod {
    var l1 := (pod.labels + claim.additional)[PhaseKey := Bound][ClaimedByKey := Text(name)];
    var l2 := if claim.claimSet != "" then l1[ClaimSetKey := Text(claim.claimSet)] else l1;
    var l3 := if claim.owner.Some? then l2[OwnerKey := Text(claim.owner.value)] else l2;
    pod.(labels := l3)
  }

  /** What a claim under deletion writes on a pod it gives back. */
  function Reclaim(pod: Pod, claim: Claim, now: int): Pod {
    var l1 := pod.labels[PhaseKey := Draining] - {ClaimedByKey};
    var l2 := if OwnerKey in l1 then (l1 - {OwnerKey})[LastOwnerKey := l1[OwnerKey]] else l1;
    pod.(labels := l2 - claim.additional.Keys, reclaimedAt := Some(now))
  }

  /** What a claim under deletion writes on a pod that another claim names. */
  function TransferOwnership(pod: Pod, from: Claim, toName: string, to: Claim): Pod {
    var l1 := (pod.labels - from.additional.Keys) + to.additional;
    var l2 := l1[PhaseKey := Bound][ClaimedByKey := Text(toName)];
    var l3 := if to.claimSet != "" then l2[ClaimSetKey := Text(to.claimSet)] else l2 - {ClaimSetKey};
    var l4 := if to.owner.Some? then l3[OwnerKey := Text(to.owner.value)] else l3 - {OwnerKey};
    pod.(labels := l4)
  }

  /** Moving a pod completes the new holder's work, so that its next sync rewrites nothing,
      exactly when the holder's additional labels do not set a claim-set or owner label the
      holder itself does not have. */
  lemma TransferLeavesNothingToSync(pod: Pod, from: Claim, toName: string, to: Claim)
    ensures var moved := TransferOwnership(pod, from, toName, to);
            EnsureOwnership(moved, toName, to) == moved
            <==> (to.claimSet == "" ==> ClaimSetKey !in to.additional)
                 && (to.owner.None? ==> OwnerKey !in to.additional)
  {
    var moved := TransferOwnership(pod, from, toName, to);
    var synced := EnsureOwnership(moved, toName, to);
    if to.claimSet == "" && ClaimSetKey in to.additional {
      assert ClaimSetKey in synced.labels && ClaimSetKey !in moved.labels;
    } else if to.owner.None? && OwnerKey in to.additional {
      assert OwnerKey in synced.labels && OwnerKey !in moved.labels;
    } else {
      assert synced.labels == moved.labels;
    }
  }

  /** Every label of a pod a claim has been given by another: the reserved ones say whose it is
      now, with no claim set or owner the new claim does not have; of the old claim's labels
      none is left that the new claim does not add; and the others are as they were. */
  ghost predicate MovedLabel(pod: Pod, from: Claim, toName: string, to: Claim, l: Labels, key: LabelKey) {
    if key == PhaseKey then key in l && l[key] == Bound
    else if key == ClaimedByKey then key in l && l[key] == Text(toName)
    else if key == ClaimSetKey then if to.claimSet == "" then key !in l else key in l && l[key] == Text(to.claimSet)
    else if key == OwnerKey then if to.owner.None? then key !in l else key in l && l[key] == Text(to.owner.value)
    else if key in to.additional then key in l && l[key] == to.additional[key]
    else if key in from.additional then key !in l
    else SameLabel(pod.labels, l, key)
  }

  ghost predicate SameLabel(a: Labels, b: Labels, key: LabelKey) {
    (key in a <==> key in b) && (key in a ==> a[key] == b[key])
  }

  lemma TransferDropsOldLabels(pod: Pod, from: Claim, toName: string, to: Claim, key: LabelKey)
    ensures MovedLabel(pod, from, toName, to, TransferOwnership(pod, from, toName, to).labels, key)
  {
  }

  lemma OwnershipFacts(pod: Pod, name: string, claim: Claim)
    ensures EnsureOwnership(pod, name, claim).OwnedBy(name)
    ensures EnsureOwnership(pod, name, claim).reclaimedAt == pod.reclaimedAt
    ensures EnsureOwnership(pod, name, claim).score == pod.score
  {
  }

  /** A reclaimed pod is Draining, unless the claim's additional labels name the phase key:
      then the phase label is dropped and the pod has no phase at all. */
  lemma ReclaimFacts(pod: Pod, claim: Claim, now: int)
    ensures Reclaim(pod, claim, now).reclaimedAt == Some(now)
    ensures Reclaim(pod, claim, now).Phase() == if PhaseKey in claim.additional then Text("") else Draining
    ensures ClaimedByKey !in Reclaim(pod, claim, now).labels
    ensures OwnerKey !in Reclaim(pod, claim, now).labels
    ensures Reclaim(pod, claim, now).score == pod.score
  {
  }

  /** Every label of a pod a claim has taken: the claim's own ones win, the reserved ones say
      whose it is, and the others are as they were. */
  ghost predicate TakenLabel(pod: Pod, name: string, claim: Claim, l: Labels, key: LabelKey) {
    if key == PhaseKey then key in l && l[key] == Bound
    else if key == ClaimedByKey then key in l && l[key] == Text(name)
    else if key == ClaimSetKey && claim.claimSet != "" then key in l && l[key] == Text(claim.claimSet)
    else if key == OwnerKey && claim.owner.Some? then key in l && l[key] == Text(claim.owner.value)
    else if key in claim.additional then key in l && l[key] == claim.additional[key]
    else SameLabel(pod.labels, l, key)
  }

  lemma OwnershipLabels(pod: Pod, name: string, claim: Claim, key: LabelKey)
    ensures TakenLabel(pod, name, claim, EnsureOwnership(pod, name, claim).labels, key)
  {
  }

  /** Every label of a pod a claim has given back: none the claim added, the last owner in
      place of the owner, and the others as they were. */
  ghost predicate GivenBackLabel(pod: Pod, claim: Claim, l: Labels, key: LabelKey) {
    if key in claim.additional || key == ClaimedByKey || key == OwnerKey then key !in l
    else if key == PhaseKey then key in l && l[key] == Draining
    else if key == LastOwnerKey && OwnerKey in pod.labels then key in l && l[key] == pod.labels[OwnerKey]
    else SameLabel(pod.labels, l, key)
  }

  lemma ReclaimLabels(pod: Pod, claim: Claim, now: int, key: LabelKey)
    ensures GivenBackLabel(pod, claim, Reclaim(pod, claim, now).labels, key)
  {
  }

  /** The store controller's decision on a pool pod. */
  datatype StoreAction = Nothing | ToIdle | Recycle | Evict

  datatype DrainConfig = DrainConfig(minDelay: int, drainTimeout: int)

  function PoolingDecision(cfg: DrainConfig, pod: Pod, now: int, registered: bool): StoreAction {
    match pod.Phase()
    case Draining =>
      if pod.reclaimedAt.None? then ToIdle
      else if now - pod.reclaimedAt.value > cfg.drainTimeout then Evict
      else if now - pod.reclaimedAt.value < cfg.minDelay then Nothing
      else if pod.score.None? then Nothing
      else if !SafeToReclaim(pod.score.value) then Nothing
      else if pod.deleteOnReclaim then Evict
      else if DirectKey in pod.labels then Evict
      else Recycle
    case Unknown => if registered then ToIdle else Nothing
    case _ => Nothing
  }

  function ApplyStoreAction(pod: Pod, action: StoreAction): Pod {
    match action
    case Nothing => pod
    case ToIdle => pod.(labels := pod.labels[PhaseKey := Idle])
    case Recycle => pod.(labels := pod.labels[PhaseKey := Idle], reclaimedAt := None)
    case Evict =>
      var l := pod.labels[PhaseKey := Terminating];
      pod.(labels := if Lookup(l, DirectKey) != Text("") then l[LifecycleKey := Text("PreparingDelete")] else l)
  }

  /** The time for draining is up. */
  predicate Overdue(cfg: DrainConfig, now: int, pod: Pod) {
    pod.reclaimedAt.Some? && now - pod.reclaimedAt.value > cfg.drainTimeout
  }

  /** The wait is over and the recorded score authorises reclaim. */
  predicate Drained(cfg: DrainConfig, now: int, pod: Pod) {
    && pod.reclaimedAt.Some? && now - pod.reclaimedAt.value >= cfg.minDelay
    && pod.score.Some? && SafeToReclaim(pod.score.value)
  }

  /** Pods that are not used again. */
  predicate SingleUse(pod: Pod) { pod.deleteOnReclaim || DirectKey in pod.labels }

  ghost predicate OnlyPhaseAndLifecycle(a: Pod, b: Pod) {
    && b == a.(labels := b.labels)
    && forall key :: key != PhaseKey && key != LifecycleKey ==> SameLabel(a.labels, b.labels, key)
  }

  /** What one reconciliation makes of pod a, told from a's own fields: when it is evicted, when
      it is recycled, when it enters the pool, and that otherwise it is left alone. */
  ghost predicate Pooled(cfg: DrainConfig, now: int, registered: bool, a: Pod, b: Pod) {
    && (a.Phase() == Draining && a.reclaimedAt.Some? ==>
          && (b.Phase() == Terminating <==> Overdue(cfg, now, a) || (Drained(cfg, now, a) && SingleUse(a)))
          && (b.Phase() == Idle <==> !Overdue(cfg, now, a) && Drained(cfg, now, a) && !SingleUse(a))
          && (b.Phase() == Idle ==> b.reclaimedAt == None)
          && (b.Phase() == Idle || b.Phase() == Terminating || b == a))
    && (a.Phase() == Draining && a.reclaimedAt.None? ==> b.Phase() == Idle)
    && (a.Phase() == Unknown ==> (b.Phase() == Idle <==> registered) && (b.Phase() == Idle || b == a))
    && (a.Phase() != Draining && a.Phase() != Unknown ==> b == a)
    // and of what is written
    && (b.Phase() == Idle && a.Phase() != Idle ==>
          b.labels == a.labels[PhaseKey := Idle] && b.score == a.score && b.deleteOnReclaim == a.deleteOnReclaim)
    && (b.Phase() == Terminating && a.Phase() != Terminating ==>
          && OnlyPhaseAndLifecycle(a, b)
          && Lookup(b.labels, LifecycleKey) == (if Lookup(a.labels, DirectKey) != Text("") then Text("PreparingDelete") else Lookup(a.labels, LifecycleKey)))
  }

  lemma PoolingExactly(cfg: DrainConfig, now: int, registered: bool, pod: Pod)
    ensures Pooled(cfg, now, registered, pod, ApplyStoreAction(pod, PoolingDecision(cfg, pod, now, registered)))
  {
  }

  function MarkTerminating(pod: Pod): Pod {
    pod.(labels := pod.labels[PhaseKey := Terminating])
  }
}
