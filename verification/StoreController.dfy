/** The store controller at work on a pool pod: one round of observation, and the phase
    machine that recycles draining pods. */
module StoreController {
  import opened Options
  import opened ApiServer
  import opened StoreScore
  import opened PodModel
  import opened PoolProtocol

  /** The score being rewritten in the course of a round. */
  class StoreScoreRecord {
    var sessions: int
    var pipelines: int
    var replicas: int
    var sessionsObserved: bool
    var pipelinesObserved: bool
    var replicasObserved: bool
    var started: Option<int>

    function Value(): Score
      reads this
    {
      Score(sessions, pipelines, replicas, sessionsObserved, pipelinesObserved, replicasObserved, started)
    }

    constructor (s: Score)
      ensures Value() == s
    {
      sessions, pipelines, replicas := s.sessions, s.pipelines, s.replicas;
      sessionsObserved, pipelinesObserved, replicasObserved := s.sessionsObserved, s.pipelinesObserved, s.replicasObserved;
      started := s.started;
    }

    /** No count of an earlier round authorises reclaim any more. */
    method BeginObservation(startedTime: int)
      modifies this
      ensures Value() == StoreScore.BeginObservation(old(Value()), startedTime)
      ensures !SafeToReclaim(Value()) && started == Some(startedTime)
      ensures !sessionsObserved && !pipelinesObserved && !replicasObserved
      ensures var same := old(started) == Some(startedTime);
              sessions == (if same then old(sessions) else 0) && pipelines == (if same then old(pipelines) else 0)
              && replicas == if same then old(replicas) else 0
    {
      sessionsObserved := false;
      pipelinesObserved := false;
      replicasObserved := false;
      if started.None? || started.value != startedTime {
        sessions := 0;
        pipelines := 0;
        replicas := 0;
        started := Some(startedTime);
      }
    }

    method CollectQueryStats(r: Round)
      modifies this
      ensures Value() == StoreScore.CollectQueryStats(old(Value()), r)
      ensures !old(sessionsObserved) && !old(pipelinesObserved) && !old(replicasObserved) && r.registered
              ==> (SafeToReclaim(Value()) <==> Quiet(r))
      ensures started == old(started)
      ensures if r.sessions.Some? then sessionsObserved && sessions == r.sessions.value
              else sessionsObserved == old(sessionsObserved) && sessions == old(sessions)
      ensures if !InFeatureInterval(r.version, PipelineInfo) then pipelinesObserved && pipelines == 0
              else if r.pipelines.Some? then pipelinesObserved && pipelines == r.pipelines.value
              else pipelinesObserved == old(pipelinesObserved) && pipelines == old(pipelines)
      ensures if !InFeatureInterval(r.version, ShardingMigration) then replicasObserved && replicas == 0
              else if r.replicas.Some? then replicasObserved && replicas == r.replicas.value
              else replicasObserved == old(replicasObserved) && replicas == old(replicas)
    {
      if r.sessions.Some? {
        sessions := r.sessions.value;
        sessionsObserved := true;
      }
      var pipelineInfo := HasMOFeature(r.version, PipelineInfo);
      if pipelineInfo {
        if r.pipelines.Some? {
          pipelines := r.pipelines.value;
          pipelinesObserved := true;
        }
      } else {
        pipelines := 0;
        pipelinesObserved := true;
      }
      var sharding := HasMOFeature(r.version, ShardingMigration);
      if sharding {
        if r.replicas.Some? {
          replicas := r.replicas.value;
          replicasObserved := true;
        }
      } else {
        replicas := 0;
        replicasObserved := true;
      }
    }
  }

  class Controller {
    var s: State

    constructor (initial: State)
      ensures s == initial
    {
      s := initial;
    }

    /** A round on the pod's recorded score. */
    method SyncStats(p: string, r: Round)
      requires Inv(s) && p in s.pods.live
      modifies this
      ensures Inv(s) && s == Apply(DrainConfig(0, 0), old(s), ObserveStore(p, r))
      ensures r.started.Some? ==> s.pods.Get(p).score.Some? && (SafeToReclaim(s.pods.Get(p).score.value) <==> Quiet(r))
    {
      hide Ownership, Recycling;
      StepKeepsInv(DrainConfig(0, 0), s, ObserveStore(p, r));
      if r.started.None? {
        return;
      }
      var pod := s.pods.Get(p);
      var record := new StoreScoreRecord(if pod.score.Some? then pod.score.value else EMPTY_SCORE);
      record.BeginObservation(r.started.value);
      if r.registered {
        record.CollectQueryStats(r);
      }
      PutFacts(s.pods, p, pod.(score := Some(record.Value())));
      s := s.(pods := s.pods.Put(p, pod.(score := Some(record.Value()))), rounds := s.rounds[p := Record(r, pod.score)]);
    }

    method PatchPod(p: string, to: Pod)
      modifies this
      ensures s == old(s).(pods := old(s).pods.Put(p, to))
    {
      s := s.(pods := s.pods.Put(p, to));
    }

    /** The evicted pod is Terminating, which no claim ever takes again; a direct pod is also
        handed to its lifecycle, and nothing else about pods changes. */
    method EvictPoolPodGracefully(p: string, pod: Pod)
      requires s.pods.Valid()
      modifies this
      ensures s == old(s).(pods := old(s).pods.Put(p, ApplyStoreAction(pod, Evict)))
      ensures s.pods.Valid() && p in s.pods.live && s.pods.Get(p).Phase() == Terminating
      ensures OnlyPhaseAndLifecycle(pod, s.pods.Get(p))
      ensures Lookup(s.pods.Get(p).labels, LifecycleKey) ==
              if Lookup(pod.labels, DirectKey) != Text("") then Text("PreparingDelete") else Lookup(pod.labels, LifecycleKey)
      ensures forall q :: q in old(s).pods.live && q != p ==> q in s.pods.live && s.pods.Get(q) == old(s).pods.Get(q)
    {
      PutFacts(s.pods, p, ApplyStoreAction(pod, Evict));
      var labels := pod.labels[PhaseKey := Terminating];
      if Lookup(labels, DirectKey) != Text("") {
        labels := labels[LifecycleKey := Text("PreparingDelete")];
      }
      PatchPod(p, pod.(labels := labels));
    }

    /** The branch for a draining pod. */
    method RecycleDraining(cfg: DrainConfig, p: string, pod: Pod)
      requires s.pods.Valid() && p in s.pods.live && pod == s.pods.Get(p) && pod.Phase() == Draining
      modifies this
      ensures s == Apply(cfg, old(s), ReconcileStore(p, false)) == Apply(cfg, old(s), ReconcileStore(p, true))
    {
      hide OnlyPhaseAndLifecycle, SafeToReclaim;
      if pod.reclaimedAt.None? {
        PatchPod(p, pod.(labels := pod.labels[PhaseKey := Idle]));
        return;
      }
      var since := s.now - pod.reclaimedAt.value;
      if since > cfg.drainTimeout {
        EvictPoolPodGracefully(p, pod);
        return;
      }
      if since < cfg.minDelay || pod.score.None? {
        return;
      }
      if SafeToReclaim(pod.score.value) {
        if pod.deleteOnReclaim || DirectKey in pod.labels {
          EvictPoolPodGracefully(p, pod);
          return;
        }
        PatchPod(p, pod.(labels := pod.labels[PhaseKey := Idle], reclaimedAt := None));
      }
    }

    /** One reconciliation of a pool pod. A drained pod is recycled or, if it is overdue or for
        single use, evicted; a pod whose store has just registered becomes Idle; any other pod
        is left alone, and so are all others. */
    method PoolingCNReconcile(cfg: DrainConfig, p: string, registered: bool)
      requires Inv(s) && p in s.pods.live
      modifies this
      ensures Inv(s) && s == Apply(cfg, old(s), ReconcileStore(p, registered))
      ensures p in s.pods.live && Pooled(cfg, old(s).now, registered, old(s).pods.Get(p), s.pods.Get(p))
      ensures s.pods.Get(p).Phase() == Idle ==> MayBeIdle(cfg, old(s).now, old(s).pods.Get(p), registered)
      ensures forall q :: q in old(s).pods.live && q != p ==> q in s.pods.live && s.pods.Get(q) == old(s).pods.Get(q)
    {
      hide Ownership, Recycling, MayBeIdle, OnlyPhaseAndLifecycle, SafeToReclaim, Pooled;
      ReconcileFacts(cfg, s, p, registered);
      var pod := s.pods.Get(p);
      match pod.Phase()
      case Draining =>
        RecycleDraining(cfg, p, pod);
      case Unknown =>
        if registered {
          PatchPod(p, pod.(labels := pod.labels[PhaseKey := Idle]));
        }
      case _ =>
    }

    /** One pass over a pool pod: refresh the score, unless its patch fails, and go on with the
        phase machine in either case. A draining pod that the pass recycles was recycled on
        the pass's own round, if that was recorded. */
    method Observe(cfg: DrainConfig, p: string, r: Round, patched: bool, registered: bool)
      requires Inv(s) && p in s.pods.live
      modifies this
      ensures Inv(s) && p in s.pods.live
      ensures s == Apply(cfg, Refreshed(old(s), p, r, patched), ReconcileStore(p, registered))
      ensures patched && r.started.Some? && old(s).pods.Get(p).Phase() == Draining && s.pods.Get(p).Phase() == Idle ==> Quiet(r)
    {
      hide Ownership, Recycling, Apply, PoolingDecision;
      if patched {
        ObserveKeepsPod(s, p, r);
        SyncStats(p, r);
      }
      PoolingCNReconcile(cfg, p, registered);
    }
  }

  /** The state after the first half of a pass. */
  ghost function Refreshed(s: State, p: string, r: Round, patched: bool): (t: State)
    requires Inv(s) && p in s.pods.live
    ensures t.pods.Valid() && p in t.pods.live
  {
    ObserveKeepsPod(s, p, r);
    if patched then Apply(DrainConfig(0, 0), s, ObserveStore(p, r)) else s
  }

  lemma ObserveKeepsPod(s: State, p: string, r: Round)
    requires Inv(s) && p in s.pods.live
    ensures var t := Apply(DrainConfig(0, 0), s, ObserveStore(p, r));
            t.pods.Valid() && Inv(t) && p in t.pods.live && t.pods.Get(p).Phase() == s.pods.Get(p).Phase() && t.now == s.now
  {
    hide Ownership, Recycling;
    StepKeepsInv(DrainConfig(0, 0), s, ObserveStore(p, r));
    PutFacts(s.pods, p, s.pods.Get(p).(score := StoreScore.SyncStats(s.pods.Get(p).score, r)));
  }

  ghost predicate MayBeIdle(cfg: DrainConfig, now: int, pod: Pod, registered: bool) {
    || pod.Phase() == Idle
    || (pod.Phase() == Unknown && registered)
    || (pod.Phase() == Draining && pod.reclaimedAt.Some? && now - pod.reclaimedAt.value >= cfg.minDelay
        && pod.score.Some? && SafeToReclaim(pod.score.value))
  }

  lemma ReconcileFacts(cfg: DrainConfig, s: State, p: string, registered: bool)
    requires Inv(s) && p in s.pods.live
    ensures var t := Apply(cfg, s, ReconcileStore(p, registered));
            && Inv(t) && t.pods.Valid() && p in t.pods.live
            && Pooled(cfg, s.now, registered, s.pods.Get(p), t.pods.Get(p))
            && (t.pods.Get(p).Phase() == Idle ==> MayBeIdle(cfg, s.now, s.pods.Get(p), registered))
            && forall q :: q in s.pods.live && q != p ==> q in t.pods.live && t.pods.Get(q) == s.pods.Get(q)
  {
    hide Ownership, Recycling;
    var pod := s.pods.Get(p);
    StepKeepsInv(cfg, s, ReconcileStore(p, registered));
    PutFacts(s.pods, p, ApplyStoreAction(pod, PoolingDecision(cfg, pod, s.now, registered)));
    PoolingExactly(cfg, s.now, registered, pod);
    DrainingHasDate(s, p);
    NothingIsNothing(pod);
    hide Pooled, Enabled, PoolingDecision, ApplyStoreAction;
    OnlyMayBeIdle(cfg, s.now, registered, pod, Apply(cfg, s, ReconcileStore(p, registered)).pods.Get(p));
  }

  lemma NothingIsNothing(pod: Pod)
    ensures ApplyStoreAction(pod, Nothing) == pod
  {
  }

  lemma DrainingHasDate(s: State, p: string)
    requires Inv(s) && p in s.pods.live
    ensures s.pods.Get(p).Phase() == Draining ==> s.pods.Get(p).reclaimedAt.Some?
  {
  }

  lemma OnlyMayBeIdle(cfg: DrainConfig, now: int, registered: bool, a: Pod, b: Pod)
    requires Pooled(cfg, now, registered, a, b) && (a.Phase() == Draining ==> a.reclaimedAt.Some?)
    ensures b.Phase() == Idle ==> MayBeIdle(cfg, now, a, registered)
  {
  }
}
