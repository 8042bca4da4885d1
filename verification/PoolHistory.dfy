/** What holds over whole runs of the pool protocol. */
module PoolHistory {
  import opened Options
  import opened ApiServer
  import opened StoreScore
  import opened PodModel
  import opened PoolProtocol

  ghost predicate IsRun(cfg: DrainConfig, states: seq<State>, steps: seq<Step>) {
    && |states| == |steps| + 1
    && states[0] == INIT
    && forall i :: 0 <= i < |steps| ==> StepAt(cfg, states, steps, i)
  }

  ghost predicate StepAt(cfg: DrainConfig, states: seq<State>, steps: seq<Step>, i: nat)
    requires i < |steps| && i + 1 < |states|
  {
    && states[i].pods.Valid() && Enabled(states[i], steps[i])
    && states[i + 1] == Apply(cfg, states[i], steps[i])
  }

  /** Every reachable state satisfies the invariant. */
  lemma {:induction false} RunKeepsInv(cfg: DrainConfig, states: seq<State>, steps: seq<Step>, i: nat)
    requires IsRun(cfg, states, steps) && i < |states|
    ensures Inv(states[i])
  {
    if i > 0 {
      RunKeepsInv(cfg, states, steps, i - 1);
      assert StepAt(cfg, states, steps, i - 1);
      StepKeepsInv(cfg, states[i - 1], steps[i - 1]);
    }
  }

  /** In no interleaving do two claims that are not being deleted name the same existing pod,
      and the pod such a claim names is Bound and labelled with that claim. */
  lemma NoTwoClaimsShareAPod(cfg: DrainConfig, states: seq<State>, steps: seq<Step>, i: nat, c: string, d: string, p: string)
    requires IsRun(cfg, states, steps) && i < |states|
    requires var s := states[i]; c in s.claims && d in s.claims && !s.claims[c].deleting && !s.claims[d].deleting
    requires var s := states[i]; s.claims[c].podName == Some(p) && s.claims[d].podName == Some(p) && p in s.pods.live
    ensures states[i].pods.Valid() && states[i].pods.Get(p).OwnedBy(c)
    ensures c == d
  {
    RunKeepsInv(cfg, states, steps, i);
    assert Active(states[i], c) && Active(states[i], d);
    assert Owns(states[i], c, p) && Owns(states[i], d, p);
  }

  /** How one step can change the role of a pod that exists before and after it. */
  ghost predicate Edge(cfg: DrainConfig, now: int, a: Pod, b: Pod) {
    || (a.Phase() == b.Phase() && a.ClaimedBy() == b.ClaimedBy() && a.reclaimedAt == b.reclaimedAt)
    || (a.Phase() == Unknown && b.Phase() == Idle)
    || (a.Phase() == Idle && b.Phase() == Bound)
    || (a.Phase() == Bound && b.reclaimedAt == Some(now) && (b.Phase() == Draining || b.Phase() == Text("")))
    || (a.Phase() == Draining && b.Phase() == Idle && Drained(cfg, now, a) && !Overdue(cfg, now, a) && !SingleUse(a))
    || (a.Phase() == Draining && b.Phase() == Terminating && (Overdue(cfg, now, a) || (Drained(cfg, now, a) && SingleUse(a))))
    || (!a.InUse() && b.Phase() == Terminating)
  }

  /** A write on pod q is an edge of q, and leaves every other pod alone. */
  lemma PutEdge(cfg: DrainConfig, pods: Store<Pod>, now: int, q: string, to: Pod, p: string)
    requires pods.Valid() && p in pods.live
    requires q in pods.live ==> Edge(cfg, now, pods.Get(q), to)
    ensures pods.Put(q, to).Valid() && p in pods.Put(q, to).live
    ensures p == q ==> pods.Put(q, to).Get(p) == to
    ensures Edge(cfg, now, pods.Get(p), pods.Put(q, to).Get(p))
  {
    PutFacts(pods, q, to);
  }

  lemma StepEdge(cfg: DrainConfig, s: State, step: Step, p: string)
    requires Inv(s) && Enabled(s, step)
    requires p in s.pods.live && p in Apply(cfg, s, step).pods.live
    ensures Apply(cfg, s, step).pods.Valid()
    ensures Edge(cfg, s.now, s.pods.Get(p), Apply(cfg, s, step).pods.Get(p))
  {
    hide Ownership, Enabled, Apply, Edge;
    if step.CreatePod? || step.DeletePod? || step.RewritePod? {
      EnvironmentEdge(cfg, s, step, p);
    } else if step.BindIdle? || step.SyncOwnership? {
      ClaimPassEdge(cfg, s, step, p);
    } else if step.FinalizePod? {
      FinalizeEdge(cfg, s, step.claim, step.pod, p);
    } else if step.RetireIdle? {
      RetireEdge(cfg, s, step.snapshot, p);
    } else if step.ReconcileStore? {
      ReconcileEdge(cfg, s, step.pod, step.registered, p);
    } else if step.ObserveStore? {
      ObserveEdge(cfg, s, step.pod, step.round, p);
    } else {
      UntouchedEdge(cfg, s, step, p);
    }
  }

  lemma UntouchedEdge(cfg: DrainConfig, s: State, step: Step, p: string)
    requires s.pods.Valid() && Enabled(s, step) && p in s.pods.live
    requires !(step.CreatePod? || step.DeletePod? || step.RewritePod? || step.BindIdle? || step.SyncOwnership?)
    requires !(step.FinalizePod? || step.RetireIdle? || step.ReconcileStore? || step.ObserveStore?)
    ensures Apply(cfg, s, step).pods == s.pods
    ensures Edge(cfg, s.now, s.pods.Get(p), s.pods.Get(p))
  {
  }

  lemma ClaimPassEdge(cfg: DrainConfig, s: State, step: Step, p: string)
    requires Inv(s) && Enabled(s, step) && (step.BindIdle? || step.SyncOwnership?) && p in s.pods.live
    ensures Apply(cfg, s, step).pods.Valid() && p in Apply(cfg, s, step).pods.live
    ensures Edge(cfg, s.now, s.pods.Get(p), Apply(cfg, s, step).pods.Get(p))
  {
    if step.SyncOwnership? {
      assert s.pods.Current(step.snapshot) ==> Owns(s, step.claim, s.pods.log[step.snapshot].name);
    }
    CasEdge(cfg, s, step.claim, step.snapshot, p);
  }

  lemma EnvironmentEdge(cfg: DrainConfig, s: State, step: Step, p: string)
    requires s.pods.Valid() && Enabled(s, step) && (step.CreatePod? || step.DeletePod? || step.RewritePod?)
    requires p in s.pods.live && p in Apply(cfg, s, step).pods.live
    ensures Apply(cfg, s, step).pods.Valid()
    ensures Edge(cfg, s.now, s.pods.Get(p), Apply(cfg, s, step).pods.Get(p))
  {
    match step
    case CreatePod(q, labels) => LiveIsUsed(s.pods, p); PutFacts(s.pods, q, Pod(labels, None, false, None));
    case DeletePod(q) => RemoveFacts(s.pods, q);
    case RewritePod(q, to) => PutEdge(cfg, s.pods, s.now, q, to, p);
  }

  lemma RetireEdge(cfg: DrainConfig, s: State, snapshot: nat, p: string)
    requires s.pods.Valid() && Enabled(s, RetireIdle(snapshot)) && p in s.pods.live
    ensures var t := Apply(cfg, s, RetireIdle(snapshot)).pods;
            t.Valid() && p in t.live && Edge(cfg, s.now, s.pods.Get(p), t.Get(p))
  {
    var w := s.pods.log[snapshot];
    UpdateFacts(s.pods, snapshot, MarkTerminating(w.content));
    if s.pods.Current(snapshot) { PutEdge(cfg, s.pods, s.now, w.name, MarkTerminating(w.content), p); }
  }

  lemma ReconcileEdge(cfg: DrainConfig, s: State, q: string, registered: bool, p: string)
    requires s.pods.Valid() && DrainingIsDated(s) && Enabled(s, ReconcileStore(q, registered)) && p in s.pods.live
    ensures var t := Apply(cfg, s, ReconcileStore(q, registered)).pods;
            t.Valid() && p in t.live && Edge(cfg, s.now, s.pods.Get(p), t.Get(p))
  {
    hide ApplyStoreAction, PoolingDecision;
    StoreEdge(cfg, s, q, registered);
    var pod := s.pods.Get(q);
    PutEdge(cfg, s.pods, s.now, q, ApplyStoreAction(pod, PoolingDecision(cfg, pod, s.now, registered)), p);
    UntouchedEdge(cfg, s, Tick(0), p);
  }

  lemma ObserveEdge(cfg: DrainConfig, s: State, q: string, round: Round, p: string)
    requires s.pods.Valid() && Enabled(s, ObserveStore(q, round)) && p in s.pods.live
    ensures var t := Apply(cfg, s, ObserveStore(q, round)).pods;
            t.Valid() && p in t.live && Edge(cfg, s.now, s.pods.Get(p), t.Get(p))
  {
    hide SyncStats;
    if round.started.Some? {
      PutEdge(cfg, s.pods, s.now, q, s.pods.Get(q).(score := SyncStats(s.pods.Get(q).score, round)), p);
    }
  }

  lemma FinalizeEdge(cfg: DrainConfig, s: State, c: string, q: string, p: string)
    requires Inv(s) && Enabled(s, FinalizePod(c, q)) && p in s.pods.live
    ensures var t := Apply(cfg, s, FinalizePod(c, q)).pods;
            t.Valid() && p in t.live && Edge(cfg, s.now, s.pods.Get(p), t.Get(p))
  {
    NoHolders(s, c, q);
    ReclaimFacts(s.pods.Get(q), s.claims[c], s.now);
    PutEdge(cfg, s.pods, s.now, q, Reclaim(s.pods.Get(q), s.claims[c], s.now), p);
  }

  lemma StoreEdge(cfg: DrainConfig, s: State, q: string, registered: bool)
    requires s.pods.Valid() && DrainingIsDated(s) && q in s.pods.live
    ensures var pod := s.pods.Get(q);
            Edge(cfg, s.now, pod, ApplyStoreAction(pod, PoolingDecision(cfg, pod, s.now, registered)))
  {
  }

  /** Taking an Idle pod, or rewriting the labels of a pod the claim already owns. */
  lemma CasEdge(cfg: DrainConfig, s: State, c: string, snapshot: nat, p: string)
    requires s.pods.Valid() && snapshot in s.pods.log && c in s.claims && p in s.pods.live
    requires s.pods.Current(snapshot) ==>
      s.pods.log[snapshot].content.Phase() == Idle || s.pods.log[snapshot].content.OwnedBy(c)
    ensures var t := s.pods.Update(snapshot, EnsureOwnership(s.pods.log[snapshot].content, c, s.claims[c]));
            t.Valid() && p in t.live && Edge(cfg, s.now, s.pods.Get(p), t.Get(p))
  {
    var w := s.pods.log[snapshot];
    var to := EnsureOwnership(w.content, c, s.claims[c]);
    UpdateFacts(s.pods, snapshot, to);
    OwnershipFacts(w.content, c, s.claims[c]);
    if s.pods.Current(snapshot) { PutEdge(cfg, s.pods, s.now, w.name, to, p); }
  }

  /** A name whose pod is gone stays gone. */
  lemma StepKeepsGone(cfg: DrainConfig, s: State, step: Step, p: string)
    requires s.pods.Valid() && Enabled(s, step) && s.pods.Used(p)
    ensures Apply(cfg, s, step).pods.Used(p)
    ensures p !in s.pods.live ==> p !in Apply(cfg, s, step).pods.live
  {
    var t := Apply(cfg, s, step);
    var v :| v in s.pods.log && s.pods.log[v].name == p;
    assert v in t.pods.log && t.pods.log[v].name == p;
  }

  /** A pod that exists at two moments exists at every moment between. */
  lemma {:induction false} LiveBetween(cfg: DrainConfig, states: seq<State>, steps: seq<Step>, i: nat, k: nat, j: nat, p: string)
    requires IsRun(cfg, states, steps) && i <= k <= j < |states|
    requires p in states[i].pods.live && p in states[j].pods.live
    ensures p in states[k].pods.live
    decreases j - k
  {
    if k < j {
      LiveBetween(cfg, states, steps, i, k + 1, j, p);
      UsedLater(cfg, states, steps, i, k, p);
      RunKeepsInv(cfg, states, steps, k);
      assert StepAt(cfg, states, steps, k);
      StepKeepsGone(cfg, states[k], steps[k], p);
    }
  }

  lemma {:induction false} UsedLater(cfg: DrainConfig, states: seq<State>, steps: seq<Step>, i: nat, k: nat, p: string)
    requires IsRun(cfg, states, steps) && i <= k < |states| && p in states[i].pods.live
    ensures states[k].pods.Used(p)
    decreases k
  {
    if i == k {
      RunKeepsInv(cfg, states, steps, i);
      LiveIsUsed(states[i].pods, p);
    } else {
      UsedLater(cfg, states, steps, i, k - 1, p);
      RunKeepsInv(cfg, states, steps, k - 1);
      assert StepAt(cfg, states, steps, k - 1);
      StepKeepsGone(cfg, states[k - 1], steps[k - 1], p);
    }
  }

  ghost function PodAt(cfg: DrainConfig, states: seq<State>, steps: seq<Step>, i: nat, p: string): Pod
    requires IsRun(cfg, states, steps) && i < |states| && p in states[i].pods.live
  {
    RunKeepsInv(cfg, states, steps, i);
    states[i].pods.Get(p)
  }

  lemma EdgeAt(cfg: DrainConfig, states: seq<State>, steps: seq<Step>, i: nat, p: string)
    requires IsRun(cfg, states, steps) && i < |steps| && p in states[i].pods.live && p in states[i + 1].pods.live
    ensures Edge(cfg, states[i].now, PodAt(cfg, states, steps, i, p), PodAt(cfg, states, steps, i + 1, p))
  {
    RunKeepsInv(cfg, states, steps, i);
    assert StepAt(cfg, states, steps, i);
    StepEdge(cfg, states[i], steps[i], p);
  }

  /** A pod that is Terminating, or that has lost its phase label, is never Bound again. */
  lemma {:induction false} DeadStaysDead(cfg: DrainConfig, states: seq<State>, steps: seq<Step>, i: nat, j: nat, p: string)
    requires IsRun(cfg, states, steps) && i <= j < |states|
    requires p in states[i].pods.live && p in states[j].pods.live
    requires PodAt(cfg, states, steps, i, p).Phase() in {Terminating, Text("")}
    ensures PodAt(cfg, states, steps, j, p).Phase() in {Terminating, Text("")}
    decreases j - i
  {
    if i < j {
      LiveBetween(cfg, states, steps, i, i + 1, j, p);
      EdgeAt(cfg, states, steps, i, p);
      DeadStaysDead(cfg, states, steps, i + 1, j, p);
    }
  }

  /** A pod the pool has marked Terminating and listed for deletion is never Bound afterwards. */
  lemma {:induction false} RetiredIsNeverBound(cfg: DrainConfig, states: seq<State>, steps: seq<Step>, i: nat, j: nat, p: string)
    requires IsRun(cfg, states, steps) && i <= j < |states|
    requires p in states[i].retired && p in states[j].pods.live
    ensures p in states[j].retired && PodAt(cfg, states, steps, j, p).Phase() == Terminating
  {
    RetiredLater(cfg, states, steps, i, j, p);
    RunKeepsInv(cfg, states, steps, j);
  }

  lemma {:induction false} RetiredLater(cfg: DrainConfig, states: seq<State>, steps: seq<Step>, i: nat, j: nat, p: string)
    requires IsRun(cfg, states, steps) && i <= j < |states| && p in states[i].retired
    ensures p in states[j].retired
    decreases j
  {
    if i < j {
      RetiredLater(cfg, states, steps, i, j - 1, p);
      assert StepAt(cfg, states, steps, j - 1);
    }
  }

  /** The last moment of the unbroken stretch from `i` in which claim c owns the pod. */
  lemma {:induction false} OwnedUntil(cfg: DrainConfig, states: seq<State>, steps: seq<Step>, i: nat, j: nat, p: string, c: string) returns (k: nat)
    requires IsRun(cfg, states, steps) && i < j < |states|
    requires p in states[i].pods.live && p in states[j].pods.live
    requires PodAt(cfg, states, steps, i, p).OwnedBy(c) && !PodAt(cfg, states, steps, j, p).OwnedBy(c)
    ensures i <= k < j && p in states[k].pods.live && p in states[k + 1].pods.live
    ensures PodAt(cfg, states, steps, k, p).OwnedBy(c) && !PodAt(cfg, states, steps, k + 1, p).OwnedBy(c)
    decreases j - i
  {
    LiveBetween(cfg, states, steps, i, i + 1, j, p);
    if PodAt(cfg, states, steps, i + 1, p).OwnedBy(c) {
      k := OwnedUntil(cfg, states, steps, i + 1, j, p, c);
    } else {
      k := i;
    }
  }

  /** A draining stretch from `i` that ends before `j` without the pod being lost ends in a
      recycling step, and the reclaim time never changes in it. */
  lemma {:induction false} DrainingUntil(cfg: DrainConfig, states: seq<State>, steps: seq<Step>, i: nat, j: nat, p: string) returns (m: nat)
    requires IsRun(cfg, states, steps) && i < j < |states|
    requires p in states[i].pods.live && p in states[j].pods.live
    requires PodAt(cfg, states, steps, i, p).Phase() == Draining && PodAt(cfg, states, steps, j, p).Phase() == Bound
    ensures i <= m < j && p in states[m].pods.live && p in states[m + 1].pods.live
    ensures forall n :: i <= n <= m ==>
      p in states[n].pods.live && PodAt(cfg, states, steps, n, p).Phase() == Draining
      && PodAt(cfg, states, steps, n, p).reclaimedAt == PodAt(cfg, states, steps, i, p).reclaimedAt
    ensures PodAt(cfg, states, steps, m + 1, p).Phase() == Idle
    ensures Drained(cfg, states[m].now, PodAt(cfg, states, steps, m, p))
    decreases j - i
  {
    LiveBetween(cfg, states, steps, i, i + 1, j, p);
    EdgeAt(cfg, states, steps, i, p);
    var next := PodAt(cfg, states, steps, i + 1, p);
    if next.Phase() == Draining {
      m := DrainingUntil(cfg, states, steps, i + 1, j, p);
    } else {
      if next.Phase() == Terminating { DeadStaysDead(cfg, states, steps, i + 1, j, p); }
      m := i;
    }
  }

  /** Step n records a round of observation of a started process on the pod. */
  ghost predicate Records(steps: seq<Step>, n: nat, p: string)
    requires n < |steps|
  {
    steps[n].ObserveStore? && steps[n].pod == p && steps[n].round.started.Some?
  }

  lemma {:induction false} LatestRecord(cfg: DrainConfig, states: seq<State>, steps: seq<Step>, m: nat, p: string) returns (q: nat)
    requires IsRun(cfg, states, steps) && m < |states| && p in states[m].rounds
    ensures q < m && Records(steps, q, p)
    ensures states[q].pods.Valid() && p in states[q].pods.live
    ensures states[m].rounds[p] == Record(steps[q].round, states[q].pods.Get(p).score)
    ensures forall n :: q < n < m ==> !Records(steps, n, p)
    decreases m
  {
    assert StepAt(cfg, states, steps, m - 1);
    RoundsAfter(cfg, states[m - 1], steps[m - 1], p);
    hide Apply, Enabled, IsRun;
    if Records(steps, m - 1, p) {
      q := m - 1;
    } else {
      q := LatestRecord(cfg, states, steps, m - 1, p);
    }
  }

  lemma RoundsAfter(cfg: DrainConfig, s: State, step: Step, p: string)
    requires s.pods.Valid() && Enabled(s, step)
    ensures var t := Apply(cfg, s, step);
            if step.ObserveStore? && step.pod == p && step.round.started.Some? then
              p in s.pods.live && p in t.rounds && t.rounds[p] == Record(step.round, s.pods.Get(p).score)
            else p in t.rounds ==> p in s.rounds && t.rounds[p] == s.rounds[p]
  {
  }

  /** A pod's score is what the last round recorded for the pod (step q) made of the score the
      pod had then; so it is safe exactly if that round was quiet. */
  lemma LatestRound(cfg: DrainConfig, states: seq<State>, steps: seq<Step>, m: nat, p: string) returns (q: nat)
    requires IsRun(cfg, states, steps) && m < |states|
    requires p in states[m].pods.live && PodAt(cfg, states, steps, m, p).score.Some?
    ensures q < m && Records(steps, q, p) && p in states[q].pods.live
    ensures PodAt(cfg, states, steps, m, p).score == SyncStats(PodAt(cfg, states, steps, q, p).score, steps[q].round)
    ensures SafeToReclaim(PodAt(cfg, states, steps, m, p).score.value) <==> Quiet(steps[q].round)
    ensures forall n :: q < n < m ==> !Records(steps, n, p)
  {
    RunKeepsInv(cfg, states, steps, m);
    assert MadeBy(states[m].rounds, p, PodAt(cfg, states, steps, m, p).score);
    q := LatestRecord(cfg, states, steps, m, p);
    QuietExactly(PodAt(cfg, states, steps, q, p).score, steps[q].round);
  }

  lemma {:induction false} TimeGoesOn(cfg: DrainConfig, states: seq<State>, steps: seq<Step>, i: nat, j: nat)
    requires IsRun(cfg, states, steps) && i <= j < |states|
    ensures states[i].now <= states[j].now
    decreases j
  {
    if i < j {
      TimeGoesOn(cfg, states, steps, i, j - 1);
      assert StepAt(cfg, states, steps, j - 1);
    }
  }

  /** A pod Bound to one claim and later to another was, in between, given back by the first
      (step k) and recycled (step m): it drained without interruption, for at least the
      minimum delay after the moment it was given back, and came back to Idle on a score
      whose observation round (step q) answered every required query with zero. No later
      round was recorded, so that round belongs to the drain if and only if any does; and it
      does whenever the recycling pass recorded its round and took less than that delay. */
  lemma ReboundOnlyAfterRecycling(
    cfg: DrainConfig, states: seq<State>, steps: seq<Step>, i: nat, j: nat, p: string, c: string, d: string) returns (k: nat, m: nat, q: nat)
    requires IsRun(cfg, states, steps) && i < j < |states| && c != d
    requires p in states[i].pods.live && p in states[j].pods.live
    requires PodAt(cfg, states, steps, i, p).OwnedBy(c) && PodAt(cfg, states, steps, j, p).OwnedBy(d)
    ensures i <= k < m < j
    ensures p in states[k].pods.live && PodAt(cfg, states, steps, k, p).OwnedBy(c)
    ensures forall n :: k < n <= m ==>
      p in states[n].pods.live && PodAt(cfg, states, steps, n, p).Phase() == Draining
      && PodAt(cfg, states, steps, n, p).reclaimedAt == Some(states[k].now)
    ensures states[m].now - states[k].now >= cfg.minDelay
    ensures p in states[m + 1].pods.live && PodAt(cfg, states, steps, m + 1, p).Phase() == Idle
    ensures q < m && Records(steps, q, p) && Quiet(steps[q].round)
    ensures forall n :: q < n < m ==> !Records(steps, n, p)
    ensures k < q <==> exists n :: k < n < m && Records(steps, n, p)
    ensures (exists b :: 0 <= b < m && Records(steps, b, p) && states[m].now - states[b].now < cfg.minDelay) ==> k < q
  {
    k := OwnedUntil(cfg, states, steps, i, j, p, c);
    EdgeAt(cfg, states, steps, k, p);
    var gone := PodAt(cfg, states, steps, k + 1, p);
    if gone.Phase() == Text("") { DeadStaysDead(cfg, states, steps, k + 1, j, p); }
    assert gone.Phase() == Draining && k + 1 < j;
    m := DrainingUntil(cfg, states, steps, k + 1, j, p);
    RunKeepsInv(cfg, states, steps, m);
    q := LatestRound(cfg, states, steps, m, p);
    forall b | 0 <= b < m && Records(steps, b, p) && states[m].now - states[b].now < cfg.minDelay
      ensures k < b
    {
      if b <= k { TimeGoesOn(cfg, states, steps, b, k); }
    }
  }

  lemma QuietExactly(recorded: Option<Score>, r: Round)
    requires r.started.Some?
    ensures SyncStats(recorded, r).Some? && (SafeToReclaim(SyncStats(recorded, r).value) <==> Quiet(r))
  {
  }
}
