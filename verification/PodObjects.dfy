/** The claim controller's edits of a pod's label map, made in place. */
module PodObjects {
  import opened Options
  import opened StoreScore
  import opened PodModel

  class PodObject {
    var labels: Labels
    var reclaimedAt: Option<int>
    var deleteOnReclaim: bool
    var score: Option<Score>

    function Value(): Pod
      reads this
    {
      Pod(labels, reclaimedAt, deleteOnReclaim, score)
    }

    constructor (pod: Pod)
      ensures Value() == pod
    {
      labels, reclaimedAt, deleteOnReclaim, score := pod.labels, pod.reclaimedAt, pod.deleteOnReclaim, pod.score;
    }

    method SetLabels(more: Labels)
      modifies this`labels
      ensures labels == old(labels) + more
    {
      var todo := more.Keys;
      while todo != {}
        invariant todo <= more.Keys
        invariant labels == old(labels) + (more - todo)
        decreases todo
      {
        var key :| key in todo;
        labels := labels[key := more[key]];
        todo := todo - {key};
      }
      assert more - todo == more;
    }

    method DropLabels(fewer: Labels)
      modifies this`labels
      ensures labels == old(labels) - fewer.Keys
    {
      var todo := fewer.Keys;
      while todo != {}
        invariant todo <= fewer.Keys
        invariant labels == old(labels) - (fewer.Keys - todo)
        decreases todo
      {
        var key :| key in todo;
        labels := labels - {key};
        todo := todo - {key};
      }
      assert fewer.Keys - todo == fewer.Keys;
    }

    method EnsureOwnership(name: string, claim: Claim)
      modifies this`labels
      ensures Value() == PodModel.EnsureOwnership(old(Value()), name, claim)
      ensures Value().OwnedBy(name)
      ensures forall key :: TakenLabel(old(Value()), name, claim, labels, key)
    {
      forall key
        ensures TakenLabel(old(Value()), name, claim, PodModel.EnsureOwnership(old(Value()), name, claim).labels, key)
      {
        OwnershipLabels(old(Value()), name, claim, key);
      }
      hide TakenLabel;
      SetLabels(claim.additional);
      labels := labels[PhaseKey := Bound];
      labels := labels[ClaimedByKey := Text(name)];
      if claim.claimSet != "" {
        labels := labels[ClaimSetKey := Text(claim.claimSet)];
      }
      if claim.owner.Some? {
        labels := labels[OwnerKey := Text(claim.owner.value)];
      }
    }

    method Reclaim(claim: Claim, now: int)
      modifies this`labels, this`reclaimedAt
      ensures Value() == PodModel.Reclaim(old(Value()), claim, now)
      ensures forall c :: !Value().OwnedBy(c)
      ensures reclaimedAt == Some(now) && forall key :: GivenBackLabel(old(Value()), claim, labels, key)
    {
      forall key
        ensures GivenBackLabel(old(Value()), claim, PodModel.Reclaim(old(Value()), claim, now).labels, key)
      {
        ReclaimLabels(old(Value()), claim, now, key);
      }
      hide GivenBackLabel;
      labels := labels[PhaseKey := Draining];
      labels := labels - {ClaimedByKey};
      if OwnerKey in labels {
        var owner := labels[OwnerKey];
        labels := labels - {OwnerKey};
        labels := labels[LastOwnerKey := owner];
      }
      DropLabels(claim.additional);
      reclaimedAt := Some(now);
    }

    method TransferOwnership(from: Claim, toName: string, to: Claim)
      modifies this`labels
      ensures Value() == PodModel.TransferOwnership(old(Value()), from, toName, to)
      ensures Value().OwnedBy(toName)
      ensures forall key :: MovedLabel(old(Value()), from, toName, to, labels, key)
    {
      forall key
        ensures MovedLabel(old(Value()), from, toName, to, PodModel.TransferOwnership(old(Value()), from, toName, to).labels, key)
      {
        TransferDropsOldLabels(old(Value()), from, toName, to, key);
      }
      hide MovedLabel;
      DropLabels(from.additional);
      SetLabels(to.additional);
      labels := labels[PhaseKey := Bound];
      labels := labels[ClaimedByKey := Text(toName)];
      if to.claimSet != "" {
        labels := labels[ClaimSetKey := Text(to.claimSet)];
      } else {
        labels := labels - {ClaimSetKey};
      }
      if to.owner.Some? {
        labels := labels[OwnerKey := Text(to.owner.value)];
      } else {
        labels := labels - {OwnerKey};
      }
    }
  }
}
