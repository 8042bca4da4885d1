/** The order in which a claim set gives up its claims. */
module ClaimOrder {
  import opened Options
  import opened PodModel
  import opened Sorting

  datatype PodStatus = PodPending | PodFailed | PodRunning | PodOther

  /** Times are whole seconds. */
  datatype PodInfo = PodInfo(node: string, status: PodStatus, ready: bool, cost: int, created: int)

  /** A claim of the set, by its instance id, with the pod it was found to hold. */
  datatype Member = Member(id: string, phase: ClaimPhase, created: int, migrating: bool, pod: Option<PodInfo>) {
    predicate Ready() { phase == BoundClaim || phase == Outdated }
  }

  function PodStatusOrdinal(s: PodStatus): int {
    match s
    case PodFailed => 1
    case PodRunning => 2
    case _ => 0
  }

  function ClaimPhaseOrdinal(p: ClaimPhase): int {
    match p
    case Lost => 1
    case Outdated => 2
    case BoundClaim => 3
    case _ => 0
  }

  function HasPod(m: Member): int { if m.pod.Some? then 1 else 0 }

  function PodDeletionOrder(a: PodInfo, b: PodInfo): int {
    if a.node != b.node && (a.node == "" || b.node == "") then |a.node| - |b.node|
    else if PodStatusOrdinal(a.status) != PodStatusOrdinal(b.status) then PodStatusOrdinal(a.status) - PodStatusOrdinal(b.status)
    else if a.ready != b.ready then (if a.ready then 1 else -1)
    else if a.cost != b.cost then (if a.cost - b.cost < 0 then -1 else 1)
    else -(a.created - b.created)
  }

  function ClaimDeletionOrder(a: Member, b: Member): int {
    if HasPod(a) - HasPod(b) != 0 then HasPod(a) - HasPod(b)
    else if ClaimPhaseOrdinal(a.phase) != ClaimPhaseOrdinal(b.phase) then ClaimPhaseOrdinal(a.phase) - ClaimPhaseOrdinal(b.phase)
    else if HasPod(a) == 1 then PodDeletionOrder(a.pod.value, b.pod.value)
    else -(a.created - b.created)
  }

  /** What a claim is worth by its phase: an up-to-date one most, then an outdated one, then a
      lost one; one that was never bound least. */
  function PhaseRank(p: ClaimPhase): int {
    if p == BoundClaim then 3 else if p == Outdated then 2 else if p == Lost then 1 else 0
  }

  /** A running pod is worth most, a failed one more than one that has not started. */
  function StatusRank(s: PodStatus): int {
    if s == PodRunning then 2 else if s == PodFailed then 1 else 0
  }

  /** The comparator's key, smallest deleted first: claims without a pod before those with one,
      then by phase; the former by age, youngest first; the latter unscheduled before
      scheduled, then by status, unready before ready, cheap before dear, young before old. */
  function Key(m: Member): seq<int> {
    if m.pod.None? then [0, PhaseRank(m.phase), -m.created]
    else
      var p := m.pod.value;
      [1, PhaseRank(m.phase), if p.node == "" then 0 else 1, StatusRank(p.status),
       if p.ready then 1 else 0, p.cost, -p.created]
  }

  /** The tables the comparator looks up. */
  lemma RanksAreOrdinals(m: Member)
    ensures PhaseRank(m.phase) == ClaimPhaseOrdinal(m.phase)
    ensures m.pod.Some? ==> StatusRank(m.pod.value.status) == PodStatusOrdinal(m.pod.value.status)
  {
  }

  /** The comparator is negative exactly when the first key is lexicographically smaller. */
  lemma OrderIsLexicographic(a: Member, b: Member)
    ensures ClaimDeletionOrder(a, b) < 0 <==> LexLess(Key(a), Key(b))
    ensures ClaimDeletionOrder(a, b) == 0 <==> Key(a) == Key(b)
  {
    RanksAreOrdinals(a);
    RanksAreOrdinals(b);
    hide PhaseRank, StatusRank, PodStatusOrdinal, ClaimPhaseOrdinal, LexLess;
    var k, l := Key(a), Key(b);
    if k == l {
      LexIrreflexive(k);
      assert k[0] == l[0] && k[1] == l[1] && k[2] == l[2];
      if a.pod.Some? { assert k[3] == l[3] && k[4] == l[4] && k[5] == l[5] && k[6] == l[6]; }
    } else if k[0] != l[0] {
      LexCompare(k, l, 0);
    } else if k[1] != l[1] {
      LexCompare(k, l, 1);
    } else if k[2] != l[2] {
      LexCompare(k, l, 2);
    } else if a.pod.Some? {
      PodOrderIsLexicographic(a, b);
    }
  }

  lemma PodOrderIsLexicographic(a: Member, b: Member)
    requires a.pod.Some? && b.pod.Some? && Key(a) != Key(b)
    requires Key(a)[1] == Key(b)[1] && Key(a)[2] == Key(b)[2]
    ensures ClaimDeletionOrder(a, b) < 0 <==> LexLess(Key(a), Key(b))
    ensures ClaimDeletionOrder(a, b) != 0
  {
    RanksAreOrdinals(a);
    RanksAreOrdinals(b);
    hide PhaseRank, StatusRank, PodStatusOrdinal, ClaimPhaseOrdinal, LexLess;
    var k, l := Key(a), Key(b);
    var n := if k[3] != l[3] then 3 else if k[4] != l[4] then 4 else if k[5] != l[5] then 5 else 6;
    LexCompare(k, l, n);
  }

  /** The comparator is a total preorder, so the sort has a well-defined result. */
  lemma OrderIsTotalPreorder(a: Member, b: Member, c: Member)
    ensures ClaimDeletionOrder(a, a) == 0
    ensures ClaimDeletionOrder(a, b) < 0 <==> ClaimDeletionOrder(b, a) > 0
    ensures ClaimDeletionOrder(a, b) <= 0 && ClaimDeletionOrder(b, c) <= 0 ==> ClaimDeletionOrder(a, c) <= 0
  {
  }

  method SortClaimsToDelete(s: seq<Member>) returns (r: seq<Member>)
    ensures multiset(r) == multiset(s) && |r| == |s| && Ordered(r, ClaimDeletionOrder)
  {
    forall a, b, c
      ensures ClaimDeletionOrder(a, b) < 0 <==> ClaimDeletionOrder(b, a) > 0
      ensures ClaimDeletionOrder(a, b) <= 0 && ClaimDeletionOrder(b, c) <= 0 ==> ClaimDeletionOrder(a, c) <= 0
    {
      OrderIsTotalPreorder(a, b, c);
    }
    hide ClaimDeletionOrder;
    r := SortBy(s, ClaimDeletionOrder);
  }
}
