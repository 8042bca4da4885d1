/** Automatic failover of a log set: which ordinals it reserves, over whole runs, and the
    addresses that skip them. */
module LogSet {
  import opened Options
  import opened Failover

  datatype Config = Config(logShardReplicas: nat, failoverEnabled: bool, timeout: int)

  datatype State = State(status: Status, reserved: seq<nat>)

  function Upsert(xs: seq<nat>, x: nat): seq<nat> {
    if x in xs then xs else xs + [x]
  }

  /** The pod a repair would evict: none without failover, beyond a minority of failures or of
      reserved ordinals, or before the timeout. */
  function Candidate(cfg: Config, status: Status, reserved: seq<nat>, now: int): Option<string> {
    var limit := cfg.logShardReplicas / 2;
    var toRepair := FailedFor(status.failed, now, cfg.timeout);
    if cfg.failoverEnabled && |status.failed| <= limit && |reserved| < limit && toRepair != [] then Some(toRepair[0].pod) else None
  }

  /** Store k is the first failed one that has been so for the timeout. */
  ghost predicate FirstOverdue(failed: seq<Store>, now: int, timeout: int, k: int) {
    0 <= k < |failed| && now - failed[k].since >= timeout && forall i :: 0 <= i < k ==> now - failed[i].since < timeout
  }

  /** When a repair may evict a store: failover is enabled, and neither the failed stores nor
      the reserved ordinals exceed what a minority leaves. */
  ghost predicate MayRepair(cfg: Config, failed: seq<Store>, reserved: seq<nat>) {
    cfg.failoverEnabled && |failed| <= cfg.logShardReplicas / 2 && |reserved| < cfg.logShardReplicas / 2
  }

  lemma {:induction false} FirstOfFailedFor(failed: seq<Store>, now: int, timeout: int, k: int)
    requires FirstOverdue(failed, now, timeout, k)
    ensures FailedFor(failed, now, timeout) != [] && FailedFor(failed, now, timeout)[0] == failed[k]
  {
    var n := |failed| - 1;
    if k < n {
      FirstOfFailedFor(failed[..n], now, timeout, k);
    } else {
      forall x | x in failed[..n]
        ensures now - x.since < timeout
      {
        var i :| 0 <= i < n && failed[..n][i] == x;
        assert failed[i] == x;
      }
      NoneFailedFor(failed[..n], now, timeout);
    }
  }

  lemma NoneFailedFor(failed: seq<Store>, now: int, timeout: int)
    requires forall x :: x in failed ==> now - x.since < timeout
    ensures FailedFor(failed, now, timeout) == []
  {
    assert forall x :: x !in FailedFor(failed, now, timeout);
  }

  lemma {:induction false} SomeIsFirst(failed: seq<Store>, now: int, timeout: int) returns (k: int)
    requires FailedFor(failed, now, timeout) != []
    ensures FirstOverdue(failed, now, timeout, k)
  {
    var n := |failed| - 1;
    if FailedFor(failed[..n], now, timeout) != [] {
      k := SomeIsFirst(failed[..n], now, timeout);
    } else {
      k := n;
      forall i | 0 <= i < n
        ensures now - failed[i].since < timeout
      {
        assert failed[i] in failed[..n];
      }
    }
  }

  /** The candidate is the first overdue store, if the repair may evict one. */
  lemma CandidateExactly(cfg: Config, status: Status, reserved: seq<nat>, now: int, pod: string)
    ensures Candidate(cfg, status, reserved, now) == Some(pod) <==>
            MayRepair(cfg, status.failed, reserved)
            && exists k :: FirstOverdue(status.failed, now, cfg.timeout, k) && status.failed[k].pod == pod
  {
    if FailedFor(status.failed, now, cfg.timeout) != [] {
      var k := SomeIsFirst(status.failed, now, cfg.timeout);
      FirstOfFailedFor(status.failed, now, cfg.timeout, k);
    }
    forall k | FirstOverdue(status.failed, now, cfg.timeout, k)
      ensures FailedFor(status.failed, now, cfg.timeout) != [] && FailedFor(status.failed, now, cfg.timeout)[0] == status.failed[k]
    {
      FirstOfFailedFor(status.failed, now, cfg.timeout, k);
    }
  }

  ghost predicate EvictsNow(cfg: Config, failed: seq<Store>, reserved: seq<nat>, now: int, pod: string) {
    MayRepair(cfg, failed, reserved) && exists k :: FirstOverdue(failed, now, cfg.timeout, k) && failed[k].pod == pod
  }

  lemma VictimExactly(cfg: Config, status: Status, reserved: seq<nat>, now: int)
    ensures forall p :: Candidate(cfg, status, reserved, now) == Some(p) <==>
              EvictsNow(cfg, status.failed, reserved, now, p)
  {
    forall p
      ensures Candidate(cfg, status, reserved, now) == Some(p) <==>
              EvictsNow(cfg, status.failed, reserved, now, p)
    {
      CandidateExactly(cfg, status, reserved, now, p);
    }
  }

  /** What one repair does to the reserved ordinals, with x the ordinal it is to reserve. */
  ghost predicate Reserves(cfg: Config, failed: seq<Store>, now: int, ordinalOf: string -> Option<nat>, reserved: seq<nat>, x: nat) {
    && MayRepair(cfg, failed, reserved)
    && exists k :: FirstOverdue(failed, now, cfg.timeout, k) && ordinalOf(failed[k].pod) == Some(x)
  }

  /** An ordinal is reserved exactly if the repair is to reserve it and its writes succeed; it
      is added at the end, unless it is there already, and nothing else changes. */
  ghost predicate RepairsTo(cfg: Config, failed: seq<Store>, now: int, ordinalOf: string -> Option<nat>, accepted: bool, before: seq<nat>, after: seq<nat>) {
    && (forall x :: accepted && Reserves(cfg, failed, now, ordinalOf, before, x) ==> after == if x in before then before else before + [x])
    && (after != before ==> exists x :: accepted && Reserves(cfg, failed, now, ordinalOf, before, x) && x !in before && after == before + [x])
  }

  lemma RepairedExactly(cfg: Config, status: Status, reserved: seq<nat>, now: int, ordinalOf: string -> Option<nat>, accepted: bool)
    ensures RepairsTo(cfg, status.failed, now, ordinalOf, accepted, reserved, Repaired(cfg, status, reserved, now, ordinalOf, accepted))
  {
    forall x: nat
      ensures Reserves(cfg, status.failed, now, ordinalOf, reserved, x) <==>
              Candidate(cfg, status, reserved, now).Some? && ordinalOf(Candidate(cfg, status, reserved, now).value) == Some(x)
    {
      ReservesExactly(cfg, status, reserved, now, ordinalOf, x);
    }
    hide Candidate, Reserves;
  }

  lemma ReservesExactly(cfg: Config, status: Status, reserved: seq<nat>, now: int, ordinalOf: string -> Option<nat>, x: nat)
    ensures Reserves(cfg, status.failed, now, ordinalOf, reserved, x) <==>
            Candidate(cfg, status, reserved, now).Some? && ordinalOf(Candidate(cfg, status, reserved, now).value) == Some(x)
  {
    var candidate := Candidate(cfg, status, reserved, now);
    if candidate.Some? { CandidateExactly(cfg, status, reserved, now, candidate.value); }
    if Reserves(cfg, status.failed, now, ordinalOf, reserved, x) {
      var k :| FirstOverdue(status.failed, now, cfg.timeout, k) && ordinalOf(status.failed[k].pod) == Some(x);
      CandidateExactly(cfg, status, reserved, now, status.failed[k].pod);
    }
  }

  /** The reserved ordinals after one repair attempt on an observed status; `ordinalOf` parses
      a pod name, `accepted` is whether every write went through. */
  function Repaired(cfg: Config, status: Status, reserved: seq<nat>, now: int, ordinalOf: string -> Option<nat>, accepted: bool): seq<nat> {
    var candidate := Candidate(cfg, status, reserved, now);
    if candidate.None? || ordinalOf(candidate.value).None? || !accepted then reserved
    else Upsert(reserved, ordinalOf(candidate.value).value)
  }

  /** The writes of a repair that succeed: orphaning the pod, updating the stateful set, and
      updating the gossip addresses afterwards. */
  datatype Writes = Writes(patched: bool, updated: bool, gossiped: bool)

  /** The actor on a log set's stateful set; `gossip` are the ordinals its gossip addresses
      were last built around. */
  class WithResources {
    var reserved: seq<nat>
    var replicas: int
    var orphaned: set<string>
    var gossip: seq<nat>

    /** A failed write ends the repair: an ordinal is reserved only after its pod is orphaned,
        if it is to be, and the gossip addresses follow only a reservation. */
    method Repair(cfg: Config, orphan: bool, status: FailoverStatus, now: int, ordinalOf: string -> Option<nat>, writes: Writes)
      modifies this
      ensures reserved == Repaired(cfg, status.Value(), old(reserved), now, ordinalOf, (orphan ==> writes.patched) && writes.updated)
      ensures RepairsTo(cfg, status.failed, now, ordinalOf, (orphan ==> writes.patched) && writes.updated, old(reserved), reserved)
      ensures replicas == old(replicas)
      ensures var victim := Candidate(cfg, status.Value(), old(reserved), now);
              orphaned == old(orphaned) + if victim.Some? && orphan && writes.patched then {victim.value} else {}
      ensures forall p :: p in orphaned <==> p in old(orphaned) || (orphan && writes.patched && EvictsNow(cfg, status.failed, old(reserved), now, p))
      ensures gossip == old(gossip) || gossip == reserved
      ensures reserved != old(reserved) && writes.gossiped ==> gossip == reserved
      ensures reserved != old(reserved) && orphan ==> exists p :: p in orphaned && ordinalOf(p).Some? && ordinalOf(p).value in reserved
    {
      VictimExactly(cfg, status.Value(), reserved, now);
      RepairedExactly(cfg, status.Value(), reserved, now, ordinalOf, (orphan ==> writes.patched) && writes.updated);
      hide RepairsTo, EvictsNow;
      if !cfg.failoverEnabled {
        return;
      }
      var minorityLimit := cfg.logShardReplicas / 2;
      if |status.failed| > minorityLimit {
        return;
      }
      if |reserved| >= minorityLimit {
        return;
      }
      var toRepair := status.StoresFailedFor(now, cfg.timeout);
      if |toRepair| == 0 {
        return;
      }
      var candidate := toRepair[0];
      if orphan {
        if !writes.patched {
          return;
        }
        orphaned := orphaned + {candidate.pod};
      }
      var ordinal := ordinalOf(candidate.pod);
      if ordinal.None? {
        return;
      }
      if !writes.updated {
        return;
      }
      reserved := Upsert(reserved, ordinal.value);
      if writes.gossiped {
        gossip := reserved;
      }
    }

    method Scale(desired: int, gossiped: bool)
      modifies this
      ensures replicas == desired && reserved == old(reserved) && orphaned == old(orphaned)
      ensures gossip == if gossiped then reserved else old(gossip)
    {
      replicas := desired;
      if gossiped {
        gossip := reserved;
      }
    }
  }

  /** One reconciliation: observe, decide, and repair if a store has failed for the timeout by
      then; scaling and updating leave the reserved ordinals alone. The clock is read anew for
      each, and the status may fail to be written back. */
  datatype Pass = Pass(observation: Observation, decidedAt: int, repairAt: int, accepted: bool, persisted: bool)

  function Reconcile(cfg: Config, s: State, p: Pass, ordinalOf: string -> Option<nat>): State {
    var status := Collect(s.status, p.observation.pods, p.observation.now);
    var reserved :=
      if FailedFor(status.failed, p.decidedAt, cfg.timeout) != [] then
        Repaired(cfg, status, s.reserved, p.repairAt, ordinalOf, p.accepted)
      else s.reserved;
    State(if p.persisted then status else s.status, reserved)
  }

  function Run(cfg: Config, passes: seq<Pass>, ordinalOf: string -> Option<nat>): State {
    if passes == [] then State(Status([], []), [])
    else Reconcile(cfg, Run(cfg, passes[..|passes| - 1], ordinalOf), passes[|passes| - 1], ordinalOf)
  }

  /** The observations whose status was written back. */
  function Persisted(passes: seq<Pass>): seq<Observation> {
    if passes == [] then []
    else Persisted(passes[..|passes| - 1]) + if passes[|passes| - 1].persisted then [passes[|passes| - 1].observation] else []
  }

  /** What the latest pass judges by: the persisted observations before it, and its own. */
  function Judging(passes: seq<Pass>): seq<Observation>
    requires passes != []
  {
    Persisted(passes[..|passes| - 1]) + [passes[|passes| - 1].observation]
  }

  lemma {:induction false} RunStatus(cfg: Config, passes: seq<Pass>, ordinalOf: string -> Option<nat>)
    ensures Run(cfg, passes, ordinalOf).status == StatusAfter(Persisted(passes))
  {
    if passes != [] {
      var n := |passes| - 1;
      RunStatus(cfg, passes[..n], ordinalOf);
      hide Repaired;
      var before := Persisted(passes[..n]);
      assert (before + [passes[n].observation])[..|before|] == before;
      assert before + [] == before;
    }
  }

  ghost predicate UniqueInAll(passes: seq<Pass>) {
    forall k :: 0 <= k < |passes| ==> UniqueNames(passes[k].observation.pods)
  }

  lemma {:induction false} PersistedIsUnique(passes: seq<Pass>)
    requires UniqueInAll(passes)
    ensures UniqueThroughout(Persisted(passes))
  {
    if passes != [] { PersistedIsUnique(passes[..|passes| - 1]); }
  }

  /** The pass a persisted observation comes from; the later persisted ones come after it. */
  lemma {:induction false} PersistedAt(passes: seq<Pass>, h: nat) returns (j: nat)
    requires h < |Persisted(passes)|
    ensures j < |passes| && passes[j].persisted && passes[j].observation == Persisted(passes)[h]
    ensures forall k :: j <= k < |passes| && passes[k].persisted ==>
      exists g :: h <= g < |Persisted(passes)| && Persisted(passes)[g] == passes[k].observation
  {
    var n := |passes| - 1;
    var before := passes[..n];
    if h < |Persisted(before)| {
      j := PersistedAt(before, h);
      forall k | j <= k < |passes| && passes[k].persisted
        ensures exists g :: h <= g < |Persisted(passes)| && Persisted(passes)[g] == passes[k].observation
      {
        if k < n {
          assert before[k] == passes[k];
          var g :| h <= g < |Persisted(before)| && Persisted(before)[g] == passes[k].observation;
          assert Persisted(passes)[g] == passes[k].observation;
        } else {
          assert Persisted(passes)[|Persisted(before)|] == passes[n].observation;
        }
      }
    } else {
      j := n;
    }
  }

  ghost predicate Distinct(xs: seq<nat>) {
    forall i, j :: 0 <= i < j < |xs| ==> xs[i] != xs[j]
  }

  /** Over every run at most half of the replicas, rounded down, are ever reserved, and a
      reserved ordinal is never given up. */
  lemma {:induction false} OnlyAMinorityIsEvicted(cfg: Config, passes: seq<Pass>, ordinalOf: string -> Option<nat>)
    ensures Distinct(Run(cfg, passes, ordinalOf).reserved)
    ensures |Run(cfg, passes, ordinalOf).reserved| <= cfg.logShardReplicas / 2
    ensures passes != [] ==> Run(cfg, passes[..|passes| - 1], ordinalOf).reserved <= Run(cfg, passes, ordinalOf).reserved
  {
    if passes != [] {
      OnlyAMinorityIsEvicted(cfg, passes[..|passes| - 1], ordinalOf);
    }
  }

  /** A pass that reserves an ordinal had failover enabled, judged at most half of the replicas
      failed, and took the first store overdue at the time of the repair. */
  lemma ReservedOnlyInMinority(cfg: Config, passes: seq<Pass>, ordinalOf: string -> Option<nat>) returns (x: nat)
    requires passes != []
    requires Run(cfg, passes, ordinalOf).reserved != Run(cfg, passes[..|passes| - 1], ordinalOf).reserved
    ensures var before, last := Run(cfg, passes[..|passes| - 1], ordinalOf).reserved, passes[|passes| - 1];
            && last.accepted && Run(cfg, passes, ordinalOf).reserved == before + [x] && x !in before
            && Reserves(cfg, StatusAfter(Judging(passes)).failed, last.repairAt, ordinalOf, before, x)
  {
    var n := |passes| - 1;
    var before := Run(cfg, passes[..n], ordinalOf);
    RunStatus(cfg, passes[..n], ordinalOf);
    assert Judging(passes)[..|Persisted(passes[..n])|] == Persisted(passes[..n]);
    var status := StatusAfter(Judging(passes));
    assert status == Collect(before.status, passes[n].observation.pods, passes[n].observation.now);
    RepairedExactly(cfg, status, before.reserved, passes[n].repairAt, ordinalOf, passes[n].accepted);
    hide Repaired, Persisted, Reserves;
    x :| passes[n].accepted && Reserves(cfg, status.failed, passes[n].repairAt, ordinalOf, before.reserved, x)
         && x !in before.reserved && Run(cfg, passes, ordinalOf).reserved == before.reserved + [x];
  }

  /** The ordinals a log set of n replicas is bootstrapped with: the first n. */
  function Bootstrapped(n: nat): (r: set<nat>)
    ensures |r| == n && forall x: nat :: x in r <==> x < n
  {
    if n == 0 then {} else Bootstrapped(n - 1) + {n - 1}
  }

  function Elements(xs: seq<nat>): (r: set<nat>)
    ensures |r| <= |xs| && forall x :: x in r <==> x in xs
  {
    if xs == [] then {}
    else
      assert xs == xs[..|xs| - 1] + [xs[|xs| - 1]];
      Elements(xs[..|xs| - 1]) + {xs[|xs| - 1]}
  }

  lemma RemovalSize(all: set<nat>, gone: set<nat>)
    ensures |all - gone| >= |all| - |gone|
  {
    assert all <= (all - gone) + gone;
    SubsetSize(all, (all - gone) + gone);
  }

  lemma SubsetSize(a: set<nat>, b: set<nat>)
    requires a <= b
    ensures |a| <= |b|
  {
    assert b == a + (b - a);
  }

  /** At least half of the ordinals the cluster was bootstrapped with, rounded up, survive every
      run: a majority whenever their number is odd. */
  lemma BootstrappedHalfSurvives(cfg: Config, passes: seq<Pass>, ordinalOf: string -> Option<nat>)
    ensures var n := cfg.logShardReplicas;
            |Bootstrapped(n) - Elements(Run(cfg, passes, ordinalOf).reserved)| >= n - n / 2
  {
    OnlyAMinorityIsEvicted(cfg, passes, ordinalOf);
    RemovalSize(Bootstrapped(cfg.logShardReplicas), Elements(Run(cfg, passes, ordinalOf).reserved));
  }

  /** The latest pass, when it evicts a pod: the pod was Down in its own observation and in
      every persisted one since some pass j at least the timeout before the repair. */
  ghost predicate DownSince(cfg: Config, passes: seq<Pass>, j: nat, i: nat, pod: string) {
    && j <= i < |passes|
    && (forall k :: j <= k <= i && (k == i || passes[k].persisted) ==> Saw(passes[k].observation, pod, Down))
    && (j == i || passes[j].persisted)
    && passes[i].repairAt - passes[j].observation.now >= cfg.timeout
  }

  lemma CandidateWasDown(cfg: Config, passes: seq<Pass>, x: Store) returns (j: nat)
    requires passes != [] && UniqueInAll(passes) && x in StatusAfter(Judging(passes)).failed
    requires passes[|passes| - 1].repairAt - x.since >= cfg.timeout
    ensures DownSince(cfg, passes, j, |passes| - 1, x.pod)
  {
    var n := |passes| - 1;
    var before, all := Persisted(passes[..n]), Judging(passes);
    PersistedIsUnique(passes[..n]);
    assert UniqueThroughout(all);
    var h := FailedSinceTransition(all, x);
    assert all[|before|] == passes[n].observation;
    if h < |before| {
      j := PersistedAt(passes[..n], h);
      forall k | j <= k <= n && (k == n || passes[k].persisted)
        ensures Saw(passes[k].observation, x.pod, Down)
      {
        if k < n {
          var g :| h <= g < |before| && before[g] == passes[..n][k].observation;
          assert all[g] == passes[k].observation;
        }
      }
    } else {
      j := n;
    }
  }

  /** Every reserved ordinal belongs to a pod that, when it was evicted, had been Down in every
      observation written back from one at least the failure timeout before the repair up to
      that moment; so in every observation at all, exactly if no lost one saw it otherwise. */
  lemma {:induction false} EvictedWasDownThroughout(cfg: Config, passes: seq<Pass>, ordinalOf: string -> Option<nat>, x: nat)
    returns (i: nat, j: nat, pod: string)
    requires UniqueInAll(passes) && x in Run(cfg, passes, ordinalOf).reserved
    ensures DownSince(cfg, passes, j, i, pod) && ordinalOf(pod) == Some(x)
    ensures (forall k :: j <= k <= i ==> Saw(passes[k].observation, pod, Down)) <==>
            (forall k :: j <= k < i && !passes[k].persisted ==> Saw(passes[k].observation, pod, Down))
    decreases |passes|
  {
    var n := |passes| - 1;
    var before := passes[..n];
    if x in Run(cfg, before, ordinalOf).reserved {
      i, j, pod := EvictedWasDownThroughout(cfg, before, ordinalOf, x);
      assert forall k :: 0 <= k < n ==> before[k] == passes[k];
    } else {
      var victim := Victim(cfg, passes, ordinalOf, x);
      j := CandidateWasDown(cfg, passes, victim);
      i, pod := n, victim.pod;
    }
  }

  /** A newly reserved ordinal is that of the first store failed for long enough. */
  lemma Victim(cfg: Config, passes: seq<Pass>, ordinalOf: string -> Option<nat>, x: nat) returns (v: Store)
    requires passes != [] && x in Run(cfg, passes, ordinalOf).reserved
    requires x !in Run(cfg, passes[..|passes| - 1], ordinalOf).reserved
    ensures v in StatusAfter(Judging(passes)).failed && ordinalOf(v.pod) == Some(x)
    ensures passes[|passes| - 1].repairAt - v.since >= cfg.timeout
  {
    var n := |passes| - 1;
    RunStatus(cfg, passes[..n], ordinalOf);
    assert Judging(passes)[..|Persisted(passes[..n])|] == Persisted(passes[..n]);
    hide Persisted;
    v := FailedFor(StatusAfter(Judging(passes)).failed, passes[n].repairAt, cfg.timeout)[0];
  }

  /** A lost status does hide a recovery: the pod is Up in the second of three observations and
      is evicted for having been Down since the first. */
  lemma LostStatusHidesRecovery(cfg: Config, passes: seq<Pass>, ordinalOf: string -> Option<nat>)
    requires cfg == Config(3, true, 10) && ordinalOf("p") == Some(0)
    requires |passes| == 3 && passes[0] == Seen(Down, 0, true) && passes[1] == Seen(Up, 5, false) && passes[2] == Seen(Down, 10, true)
    ensures UniqueInAll(passes) && Saw(passes[1].observation, "p", Up)
    ensures Run(cfg, passes, ordinalOf).reserved == [0]
  {
    hide Run, Reconcile;
    SeenIsUnique(passes);
    RunNext(cfg, passes, ordinalOf, 0);
    RunNext(cfg, passes, ordinalOf, 1);
    RunNext(cfg, passes, ordinalOf, 2);
    DownFirst(cfg, passes[0], ordinalOf);
    var failed := Run(cfg, passes[..1], ordinalOf);
    UpIsLost(cfg, passes[1], failed, ordinalOf);
    DownAgain(cfg, passes[2], failed, ordinalOf);
    assert passes[..3] == passes;
  }

  lemma SeenIsUnique(passes: seq<Pass>)
    requires |passes| == 3 && passes[0] == Seen(Down, 0, true) && passes[1] == Seen(Up, 5, false) && passes[2] == Seen(Down, 10, true)
    ensures UniqueInAll(passes) && Saw(passes[1].observation, "p", Up)
  {
    assert passes[1].observation.pods[0] == PodView("p", true);
    assert forall k :: 0 <= k < 3 ==> |passes[k].observation.pods| == 1;
  }

  lemma DownFirst(cfg: Config, p: Pass, ordinalOf: string -> Option<nat>)
    requires cfg == Config(3, true, 10) && p == Seen(Down, 0, true)
    ensures Reconcile(cfg, State(Status([], []), []), p, ordinalOf) == State(Status([], [Store("p", Down, 0)]), [])
  {
    hide Collect, FailedFor, Previous, Judged;
    PreviousOfOne(Store("p", Down, 0));
    CollectOne(Status([], []), p.observation.pods[0], p.observation.now, map[]);
    FailedForOne(Store("p", Down, 0), p.decidedAt, cfg.timeout);
  }

  lemma UpIsLost(cfg: Config, p: Pass, s: State, ordinalOf: string -> Option<nat>)
    requires cfg == Config(3, true, 10) && p == Seen(Up, 5, false) && s == State(Status([], [Store("p", Down, 0)]), [])
    ensures Reconcile(cfg, s, p, ordinalOf) == s
  {
    hide Collect, FailedFor, Previous, Judged;
    var down := Store("p", Down, 0);
    PreviousOfOne(down);
    CollectOne(s.status, p.observation.pods[0], p.observation.now, map["p" := down]);
    FailedForOne(down, p.decidedAt, cfg.timeout);
  }

  lemma DownAgain(cfg: Config, p: Pass, s: State, ordinalOf: string -> Option<nat>)
    requires cfg == Config(3, true, 10) && p == Seen(Down, 10, true) && s == State(Status([], [Store("p", Down, 0)]), [])
    requires ordinalOf("p") == Some(0)
    ensures Reconcile(cfg, s, p, ordinalOf).reserved == [0]
  {
    hide Collect, FailedFor, Previous, Judged;
    var down := Store("p", Down, 0);
    PreviousOfOne(down);
    CollectOne(s.status, p.observation.pods[0], p.observation.now, map["p" := down]);
    FailedForOne(down, p.decidedAt, cfg.timeout);
  }

  lemma RunNext(cfg: Config, passes: seq<Pass>, ordinalOf: string -> Option<nat>, n: nat)
    requires n < |passes|
    ensures Run(cfg, passes[..n + 1], ordinalOf) == Reconcile(cfg, Run(cfg, passes[..n], ordinalOf), passes[n], ordinalOf)
    ensures n == 0 ==> Run(cfg, passes[..n], ordinalOf) == State(Status([], []), [])
  {
    assert passes[..n + 1][..n] == passes[..n];
  }

  lemma CollectOne(s: Status, pod: PodView, now: int, previous: map<string, Store>)
    requires Previous(s) == previous
    ensures var x := Judge(previous, pod, now);
            Collect(s, [pod], now) == if x.phase == Up then Status([x], []) else Status([], [x])
  {
    JudgedOne(previous, pod, now, Up);
    JudgedOne(previous, pod, now, Down);
  }

  lemma JudgedOne(previous: map<string, Store>, pod: PodView, now: int, phase: StorePhase)
    ensures Judged(previous, [pod], now, phase) == if Judge(previous, pod, now).phase == phase then [Judge(previous, pod, now)] else []
  {
    var pods := [pod];
    assert pods[..0] == [] && pods[|pods| - 1] == pod;
    assert Judged(previous, pods[..0], now, phase) == [];
  }

  lemma PreviousOfOne(x: Store)
    ensures Previous(Status([], [])) == map[] && Previous(Status([], [x])) == map[x.pod := x]
  {
    assert [x][..0] == [];
  }

  lemma FailedForOne(x: Store, now: int, timeout: int)
    ensures FailedFor([x], now, timeout) == if now - x.since >= timeout then [x] else []
    ensures FailedFor([], now, timeout) == []
  {
    assert [x][..0] == [];
  }

  function Seen(phase: StorePhase, now: int, persisted: bool): Pass {
    Pass(Observation(now, [PodView("p", phase == Up)]), now, now, true, persisted)
  }
}
