/** The decision which log pods bootstrap the cluster, made once and kept in an annotation. */
module Bootstrap {
  import opened Options
  import opened LogSet

  const ID_RANGE_START := 131072
  const ID_RANGE_END := 262144

  datatype Replica = Replica(ordinal: nat, replicaID: nat)

  function Ordinals(replicas: seq<Replica>): set<nat> {
    set i | 0 <= i < |replicas| :: replicas[i].ordinal
  }

  lemma FirstOrdinals(replicas: seq<Replica>)
    requires forall k :: 0 <= k < |replicas| ==> replicas[k].ordinal == k
    ensures Ordinals(replicas) == Bootstrapped(|replicas|)
  {
    forall x: nat
      ensures x in Ordinals(replicas) <==> x < |replicas|
    {
      if x < |replicas| { assert replicas[x].ordinal == x; }
    }
  }

  class LogSetObject {
    var decision: Option<seq<Replica>>

    constructor ()
      ensures decision == None
    {
      decision := None;
    }

    /** A recorded decision is final, whatever the wanted number is now. A first decision takes
        the ordinals of which the automatic failover spares at least half, under distinct replica ids
        of the range; more replicas than the range has ids are refused. `None` is an error. */
    method Bootstrap(n: nat, accepted: bool) returns (replicas: Option<seq<Replica>>)
      modifies this
      ensures old(decision).Some? ==> replicas == old(decision) && decision == old(decision)
      ensures old(decision).None? ==> decision == replicas
      ensures old(decision).None? ==> (replicas.Some? <==> accepted && n <= ID_RANGE_END - ID_RANGE_START + 1)
      ensures old(decision).None? && replicas.Some? ==>
        && |replicas.value| == n && Ordinals(replicas.value) == Bootstrapped(n)
        && (forall i :: 0 <= i < n ==> ID_RANGE_START <= replicas.value[i].replicaID <= ID_RANGE_END)
        && (forall i, j :: 0 <= i < j < n ==> replicas.value[i].replicaID != replicas.value[j].replicaID)
    {
      if decision.Some? {
        return decision;
      }
      var picked: seq<Replica> := [];
      var i := 0;
      while i < n
        invariant i <= n && |picked| == i && i <= ID_RANGE_END - ID_RANGE_START + 1
        invariant decision == None
        invariant forall k :: 0 <= k < i ==> picked[k] == Replica(k, ID_RANGE_START + k)
      {
        var rid := ID_RANGE_START + i;
        if rid > ID_RANGE_END {
          return None;
        }
        picked := picked + [Replica(i, rid)];
        i := i + 1;
      }
      FirstOrdinals(picked);
      if accepted {
        decision := Some(picked);
      }
      return decision;
    }
  }
}
