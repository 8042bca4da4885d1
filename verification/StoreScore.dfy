/** The score a CN store records about itself, and the MO versions that decide which
    queries a round of observation must make. */
module StoreScore {
  import opened Options

  datatype Version = Version(major: nat, minor: nat, patch: nat)

  /** Lexicographic precedence on (major, minor, patch), section 11 of Semantic Versioning
      2.0.0 without pre-release identifiers. */
  predicate AtLeast(v: Version, bound: Version) {
    v.major > bound.major
    || (v.major == bound.major
        && (v.minor > bound.minor || (v.minor == bound.minor && v.patch >= bound.patch)))
  }

  datatype Feature = PipelineInfo | SessionSource | LockMigration | DiscoveryFixed | ShardingMigration

  function FeatureVersions(f: Feature): seq<Version> {
    match f
    case PipelineInfo => [Version(1, 1, 2), Version(1, 2, 0), Version(2, 0, 0), Version(3, 0, 0), Version(4, 0, 0)]
    case SessionSource => [Version(1, 1, 2), Version(1, 2, 0), Version(2, 0, 0)]
    case LockMigration => [Version(1, 2, 0), Version(2, 0, 0)]
    case ShardingMigration => [Version(2, 0, 0)]
    case DiscoveryFixed => []
  }

  function FeatureGlobalMinVersion(f: Feature): Option<Version> {
    if f.DiscoveryFixed? then Some(Version(2, 0, 0)) else None
  }

  predicate VersionPrecedes(base: Version, current: Version) {
    if base.major != current.major then false
    else if base.patch == 0 && current.minor >= base.minor then true
    else base.minor == current.minor && current.patch >= base.patch
  }

  predicate VersionPrecedesCrossMajor(base: Version, current: Version) {
    if current.major != base.major then current.major > base.major
    else if base.patch == 0 && current.minor >= base.minor then true
    else base.minor == current.minor && current.patch >= base.patch
  }

  /** The versions that carry a feature, as intervals of version precedence. */
  predicate InFeatureInterval(v: Version, f: Feature) {
    match f
    case PipelineInfo => AtLeast(v, Version(1, 1, 2)) && !AtLeast(v, Version(5, 0, 0))
    case SessionSource => AtLeast(v, Version(1, 1, 2)) && !AtLeast(v, Version(3, 0, 0))
    case LockMigration => AtLeast(v, Version(1, 2, 0)) && !AtLeast(v, Version(3, 0, 0))
    case ShardingMigration => AtLeast(v, Version(2, 0, 0)) && !AtLeast(v, Version(3, 0, 0))
    case DiscoveryFixed => AtLeast(v, Version(2, 0, 0))
  }

  /** The table search with early return decides exactly the feature's interval. */
  method HasMOFeature(v: Version, f: Feature) returns (has: bool)
    ensures has == InFeatureInterval(v, f)
  {
    TableIsInterval(v, f);
    var global := FeatureGlobalMinVersion(f);
    if global.Some? && VersionPrecedesCrossMajor(global.value, v) {
      return true;
    }
    var versions := FeatureVersions(f);
    for i := 0 to |versions|
      invariant forall k :: 0 <= k < i ==> !VersionPrecedes(versions[k], v)
    {
      if VersionPrecedes(versions[i], v) {
        return true;
      }
    }
    return false;
  }

  predicate InFeatureTable(v: Version, f: Feature) {
    || (FeatureGlobalMinVersion(f).Some? && VersionPrecedesCrossMajor(FeatureGlobalMinVersion(f).value, v))
    || (exists i :: 0 <= i < |FeatureVersions(f)| && VersionPrecedes(FeatureVersions(f)[i], v))
  }

  lemma TableIsInterval(v: Version, f: Feature)
    ensures InFeatureTable(v, f) <==> InFeatureInterval(v, f)
  {
    var t := FeatureVersions(f);
    match f
    case PipelineInfo =>
      assert t[0] == Version(1, 1, 2) && t[1] == Version(1, 2, 0) && t[2] == Version(2, 0, 0)
             && t[3] == Version(3, 0, 0) && t[4] == Version(4, 0, 0);
    case SessionSource => assert t[0] == Version(1, 1, 2) && t[1] == Version(1, 2, 0) && t[2] == Version(2, 0, 0);
    case LockMigration => assert t[0] == Version(1, 2, 0) && t[1] == Version(2, 0, 0);
    case ShardingMigration => assert t[0] == Version(2, 0, 0);
    case DiscoveryFixed =>
  }

  /** Counts with a flag each that tells a confirmed count from a leftover one. */
  datatype Score = Score(
    sessions: int, pipelines: int, replicas: int,
    sessionsObserved: bool, pipelinesObserved: bool, replicasObserved: bool,
    started: Option<int>)

  const EMPTY_SCORE := Score(0, 0, 0, false, false, false, None)

  predicate SafeToReclaim(s: Score) {
    && s.sessionsObserved && s.pipelinesObserved && s.replicasObserved
    && s.sessions == 0 && s.pipelines == 0 && s.replicas == 0
  }

  function BeginObservation(s: Score, started: int): Score {
    var t := s.(sessionsObserved := false, pipelinesObserved := false, replicasObserved := false);
    if s.started == Some(started) then t
    else t.(sessions := 0, pipelines := 0, replicas := 0, started := Some(started))
  }

  /** One round: when the CN process started, whether HAKeeper knows the store, the MO version
      and the answer of each query, where `None` is an error. */
  datatype Round = Round(
    started: Option<int>, registered: bool, version: Version,
    sessions: Option<int>, pipelines: Option<int>, replicas: Option<int>)

  function CollectQueryStats(s: Score, r: Round): Score {
    var s1 := if r.sessions.Some? then s.(sessions := r.sessions.value, sessionsObserved := true) else s;
    var s2 :=
      if InFeatureInterval(r.version, PipelineInfo) then
        if r.pipelines.Some? then s1.(pipelines := r.pipelines.value, pipelinesObserved := true) else s1
      else s1.(pipelines := 0, pipelinesObserved := true);
    if InFeatureInterval(r.version, ShardingMigration) then
      if r.replicas.Some? then s2.(replicas := r.replicas.value, replicasObserved := true) else s2
    else s2.(replicas := 0, replicasObserved := true)
  }

  /** The score annotation after a round; a process that has not started leaves it as it was. */
  function SyncStats(recorded: Option<Score>, r: Round): Option<Score> {
    if r.started.None? then recorded
    else
      var previous := if recorded.Some? then recorded.value else EMPTY_SCORE;
      var begun := BeginObservation(previous, r.started.value);
      if !r.registered then Some(begun) else Some(CollectQueryStats(begun, r))
  }

  /** Every query the MO version calls for was answered in this round, with zero. */
  predicate Quiet(r: Round) {
    && r.registered
    && r.sessions == Some(0)
    && (InFeatureInterval(r.version, PipelineInfo) ==> r.pipelines == Some(0))
    && (InFeatureInterval(r.version, ShardingMigration) ==> r.replicas == Some(0))
  }

  function SyncAll(recorded: Option<Score>, rounds: seq<Round>): Option<Score> {
    if rounds == [] then recorded
    else SyncStats(SyncAll(recorded, rounds[..|rounds| - 1]), rounds[|rounds| - 1])
  }

  /** The rounds that got as far as invalidating the previous score. */
  function CompletedRounds(rounds: seq<Round>): seq<Round> {
    if rounds == [] then []
    else
      var front := CompletedRounds(rounds[..|rounds| - 1]);
      if rounds[|rounds| - 1].started.Some? then front + [rounds[|rounds| - 1]] else front
  }

  /** After any rounds at all, whatever was recorded before, the score authorises reclaim
      exactly when the latest completed round was quiet; no older zero survives into it. */
  lemma {:induction false} SafeExactlyAfterQuietRound(recorded: Option<Score>, rounds: seq<Round>)
    ensures var done := CompletedRounds(rounds);
            var score := SyncAll(recorded, rounds);
            if done == [] then score == recorded
            else score.Some? && (SafeToReclaim(score.value) <==> Quiet(done[|done| - 1]))
  {
    if rounds != [] {
      SafeExactlyAfterQuietRound(recorded, rounds[..|rounds| - 1]);
    }
  }
}
