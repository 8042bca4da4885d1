/** The loops of the claim controller: choosing a pod for a claim and giving pods back when
    the claim is deleted. */
module ClaimController {
  import opened Options
  import opened ApiServer
  import opened PodModel
  import opened PoolProtocol

  /** Why a finalization pass stopped before the end of its list. */
  datatype Blocked = Ambiguous | HolderNotReady | StoreUnreachable | PatchFailed

  /** The pods whose store does not answer, and those whose label patch fails. */
  datatype Outages = Outages(stores: set<string>, patches: set<string>)

  datatype FinalizeResult = Done | Again | Stopped(reason: Blocked)

  ghost predicate ListsOwned(s: State, c: string, owned: seq<string>)
    requires s.pods.Valid()
  {
    && (forall p :: Owns(s, c, p) ==> p in owned)
    && (forall k :: 0 <= k < |owned| ==> Owns(s, c, owned[k]))
    && (forall i, j :: 0 <= i < j < |owned| ==> owned[i] != owned[j])
  }

  /** The reason, if any, for which the pass cannot get past pod p. */
  ghost predicate BlockedAt(s: State, c: string, p: string, outages: Outages, reason: Blocked) {
    var holders := Holders(s, c, p);
    match reason
    case Ambiguous => |holders| > 1
    case HolderNotReady => |holders| == 1 && forall h :: h in holders ==> !s.claims[h].Ready()
    case StoreUnreachable => holders == {} && p in outages.stores
    case PatchFailed => p in outages.patches && |holders| <= 1
  }

  /** The first pods of the list have been rewritten to `written` and are no longer the
      claim's; everything else is as it was. */
  ghost predicate FinalizedPrefix(s: State, t: State, c: string, owned: seq<string>, written: seq<Pod>)
    requires s.pods.Valid() && t.pods.Valid() && |written| <= |owned|
  {
    && t == s.(pods := t.pods)
    && t.pods.live.Keys == s.pods.live.Keys
    && (forall k :: 0 <= k < |written| ==> RewrittenTo(t, c, owned[k], written[k]))
    && (forall p :: p in s.pods.live && p !in owned[..|written|] ==> SamePod(s, t, p))
  }

  ghost predicate RewrittenTo(t: State, c: string, p: string, pod: Pod)
    requires t.pods.Valid()
  {
    p in t.pods.live && t.pods.Get(p) == pod && !pod.OwnedBy(c)
  }

  ghost predicate SamePod(s: State, t: State, p: string)
    requires s.pods.Valid() && t.pods.Valid() && p in s.pods.live
  {
    p in t.pods.live && t.pods.Get(p) == s.pods.Get(p)
  }

  lemma SamePodSameOwner(s: State, t: State, c: string, p: string)
    requires s.pods.Valid() && t.pods.Valid() && p in s.pods.live && SamePod(s, t, p)
    ensures Owns(t, c, p) <==> Owns(s, c, p)
  {
  }

  lemma RewrittenIsNotOwned(t: State, c: string, p: string, pod: Pod)
    requires t.pods.Valid() && RewrittenTo(t, c, p, pod)
    ensures !Owns(t, c, p)
  {
  }

  lemma OwnedIsLive(s: State, c: string, p: string)
    requires s.pods.Valid() && Owns(s, c, p)
    ensures p in s.pods.live
  {
  }

  /** The pods a claim still holds are exactly the rest of the list: every pass that gets past
      its first pod strictly shrinks them. */
  lemma FinalizedShrinks(s: State, t: State, c: string, owned: seq<string>, written: seq<Pod>)
    requires s.pods.Valid() && t.pods.Valid() && |written| <= |owned|
    requires ListsOwned(s, c, owned) && FinalizedPrefix(s, t, c, owned, written)
    ensures forall p :: Owns(t, c, p) <==> p in owned[|written|..]
    ensures written != [] ==> exists p :: Owns(s, c, p) && !Owns(t, c, p)
  {
    hide Owns, RewrittenTo, SamePod;
    var n := |written|;
    forall p
      ensures Owns(t, c, p) <==> p in owned[n..]
      ensures p in owned[..n] ==> Owns(s, c, p) && !Owns(t, c, p)
    {
      OwnedAfter(s, t, c, owned, written, p);
    }
    if written != [] { assert owned[0] in owned[..n]; }
  }

  lemma OwnedAfter(s: State, t: State, c: string, owned: seq<string>, written: seq<Pod>, p: string)
    requires s.pods.Valid() && t.pods.Valid() && |written| <= |owned|
    requires ListsOwned(s, c, owned) && FinalizedPrefix(s, t, c, owned, written)
    ensures Owns(t, c, p) <==> p in owned[|written|..]
    ensures p in owned[..|written|] ==> Owns(s, c, p) && !Owns(t, c, p)
  {
    var n := |written|;
    assert Owns(t, c, p) ==> p in t.pods.live;
    hide Owns, RewrittenTo, SamePod;
    assert owned == owned[..n] + owned[n..];
    assert p in owned <==> p in owned[..n] || p in owned[n..];
    if p in owned[..n] {
      var k :| 0 <= k < n && owned[..n][k] == p;
      assert owned[k] == p && RewrittenTo(t, c, owned[k], written[k]);
      RewrittenIsNotOwned(t, c, p, written[k]);
      assert forall h :: 0 <= h < |owned[n..]| ==> owned[n..][h] == owned[n + h] != owned[k];
    } else if p in s.pods.live {
      SamePodSameOwner(s, t, c, p);
    } else if p in owned {
      OwnedIsLive(s, c, p);
    }
  }

  lemma StartFinalizing(s: State, c: string, owned: seq<string>)
    requires s.pods.Valid() && ListsOwned(s, c, owned)
    ensures FinalizedPrefix(s, s, c, owned, [])
  {
  }

  lemma NextPod(s: State, t: State, c: string, owned: seq<string>, written: seq<Pod>)
    requires s.pods.Valid() && t.pods.Valid() && |written| < |owned|
    requires ListsOwned(s, c, owned) && FinalizedPrefix(s, t, c, owned, written)
    ensures var p := owned[|written|];
            p in s.pods.live && p in t.pods.live && t.pods.Get(p) == s.pods.Get(p) && t == s.(pods := t.pods)
  {
    var n := |written|;
    assert Owns(s, c, owned[n]) && owned[n] !in owned[..n];
    assert SamePod(s, t, owned[n]);
  }

  lemma PutKeepsOthers(s: State, t: State, c: string, q: string, pod: Pod, p: string)
    requires s.pods.Valid() && t.pods.Valid() && p != q
    ensures t.pods.Put(q, pod).Valid()
    ensures var u := t.(pods := t.pods.Put(q, pod));
            && (forall w :: RewrittenTo(t, c, p, w) ==> RewrittenTo(u, c, p, w))
            && (p in s.pods.live && SamePod(s, t, p) ==> SamePod(s, u, p))
  {
    PutFacts(t.pods, q, pod);
  }

  lemma PutRewrites(t: State, c: string, q: string, pod: Pod)
    requires t.pods.Valid() && q in t.pods.live && !pod.OwnedBy(c)
    ensures t.pods.Put(q, pod).Valid() && t.pods.Put(q, pod).live.Keys == t.pods.live.Keys
    ensures RewrittenTo(t.(pods := t.pods.Put(q, pod)), c, q, pod)
  {
    PutFacts(t.pods, q, pod);
  }

  lemma ListedOnce(s: State, c: string, owned: seq<string>, k: nat, n: nat)
    requires s.pods.Valid() && ListsOwned(s, c, owned) && k < n < |owned|
    ensures owned[k] != owned[n]
  {
  }

  lemma FinalizeOne(s: State, t: State, c: string, owned: seq<string>, written: seq<Pod>, pod: Pod)
    requires s.pods.Valid() && t.pods.Valid() && |written| < |owned| && ListsOwned(s, c, owned)
    requires FinalizedPrefix(s, t, c, owned, written) && !pod.OwnedBy(c)
    ensures var u := t.(pods := t.pods.Put(owned[|written|], pod));
            u.pods.Valid() && FinalizedPrefix(s, u, c, owned, written + [pod])
  {
    hide RewrittenTo, SamePod, Owns, ListsOwned;
    var n := |written|;
    var q := owned[n];
    var u := t.(pods := t.pods.Put(q, pod));
    NextPod(s, t, c, owned, written);
    PutRewrites(t, c, q, pod);
    assert owned[..n + 1] == owned[..n] + [q];
    forall k | 0 <= k < n + 1
      ensures RewrittenTo(u, c, owned[k], (written + [pod])[k])
    {
      if k < n {
        ListedOnce(s, c, owned, k, n);
        assert RewrittenTo(t, c, owned[k], written[k]);
        PutKeepsOthers(s, t, c, q, pod, owned[k]);
      }
    }
    forall p | p in s.pods.live && p !in owned[..n + 1]
      ensures SamePod(s, u, p)
    {
      assert p != q && SamePod(s, t, p);
      PutKeepsOthers(s, t, c, q, pod, p);
    }
  }

  /** A successful claim of an Idle pod: it changes that pod only, and the claim owns it. */
  lemma TakeFacts(s: State, c: string, v: nat)
    requires Inv(s) && Enabled(s, BindIdle(c, v)) && s.pods.Current(v)
    ensures var name := s.pods.log[v].name;
            var owned := EnsureOwnership(s.pods.log[v].content, c, s.claims[c]);
            var t := s.(pods := s.pods.Update(v, owned), binding := s.binding[c := name]);
            && Inv(t) && Owns(t, c, name) && c in t.binding && t.binding[c] == name && TakenFrom(s, t, c, name)
            && forall p :: p in s.pods.live && p != name ==> p in t.pods.live && t.pods.Get(p) == s.pods.Get(p)
  {
    var w := s.pods.log[v];
    StepKeepsInv(DrainConfig(0, 0), s, BindIdle(c, v));
    UpdateFacts(s.pods, v, EnsureOwnership(w.content, c, s.claims[c]));
    OwnershipFacts(w.content, c, s.claims[c]);
    PutFacts(s.pods, w.name, EnsureOwnership(w.content, c, s.claims[c]));
    forall key
      ensures TakenLabel(w.content, c, s.claims[c], EnsureOwnership(w.content, c, s.claims[c]).labels, key)
    {
      OwnershipLabels(w.content, c, s.claims[c], key);
    }
    hide TakenLabel, Ownership, Recycling, Enabled, Apply;
  }

  /** The pod was free and Idle, and is the claim's now, with every label as it should be. */
  ghost predicate TakenFrom(s: State, t: State, c: string, p: string)
    requires s.pods.Valid() && t.pods.Valid() && c in s.claims
  {
    && p in s.pods.live && p in t.pods.live && s.pods.Get(p).Phase() == Idle
    && t.pods.Get(p) == s.pods.Get(p).(labels := t.pods.Get(p).labels)
    && forall key :: TakenLabel(s.pods.Get(p), c, s.claims[c], t.pods.Get(p).labels, key)
  }

  /** What the pass owes pod p: without a holder it is given back, dated and nobody's; with one
      ready holder it becomes that holder's and stays as it is otherwise, label by label. */
  ghost predicate HandedOn(s: State, c: string, p: string, pod: Pod)
    requires s.pods.Valid() && c in s.claims && p in s.pods.live
  {
    var was, from, holders := s.pods.Get(p), s.claims[c], Holders(s, c, p);
    && |holders| <= 1 && pod.score == was.score && pod.deleteOnReclaim == was.deleteOnReclaim
    && (holders == {} ==>
          && pod.reclaimedAt == Some(s.now) && (forall h :: !pod.OwnedBy(h))
          && (forall key :: GivenBackLabel(was, from, pod.labels, key)))
    && (forall h :: h in holders ==>
          && s.claims[h].Ready() && pod.OwnedBy(h) && pod.reclaimedAt == was.reclaimedAt
          && (forall key :: MovedLabel(was, from, h, s.claims[h], pod.labels, key)))
  }

  lemma GivenBackIsHandedOn(s: State, c: string, p: string)
    requires s.pods.Valid() && c in s.claims && p in s.pods.live && Holders(s, c, p) == {}
    ensures HandedOn(s, c, p, Reclaim(s.pods.Get(p), s.claims[c], s.now))
  {
    var was, from := s.pods.Get(p), s.claims[c];
    ReclaimFacts(was, from, s.now);
    forall key
      ensures GivenBackLabel(was, from, Reclaim(was, from, s.now).labels, key)
    {
      ReclaimLabels(was, from, s.now, key);
    }
    hide GivenBackLabel, MovedLabel;
  }

  lemma MovedIsHandedOn(s: State, c: string, p: string, h: string)
    requires s.pods.Valid() && c in s.claims && p in s.pods.live && Holders(s, c, p) == {h}
    requires h in s.claims && s.claims[h].Ready()
    ensures HandedOn(s, c, p, TransferOwnership(s.pods.Get(p), s.claims[c], h, s.claims[h]))
  {
    var was, from, to := s.pods.Get(p), s.claims[c], s.claims[h];
    forall key
      ensures MovedLabel(was, from, h, to, TransferOwnership(was, from, h, to).labels, key)
    {
      TransferDropsOldLabels(was, from, h, to, key);
    }
    hide GivenBackLabel, MovedLabel;
  }

  datatype Decision = Rewrite(pod: Pod) | Stop(reason: Blocked)

  /** What the pass does with one of its pods. */
  method FinalizeDecision(s: State, c: string, p: string, outages: Outages) returns (d: Decision)
    requires s.pods.Valid() && c in s.claims && p in s.pods.live
    ensures d.Rewrite? ==> d.pod == FinalizedPod(s, c, p) && !d.pod.OwnedBy(c) && HandedOn(s, c, p, d.pod)
    ensures d.Stop? ==> BlockedAt(s, c, p, outages, d.reason)
    ensures d.Rewrite? ==> forall r :: !BlockedAt(s, c, p, outages, r)
  {
    hide HandedOn;
    var holders := Holders(s, c, p);
    if |holders| > 1 {
      return Stop(Ambiguous);
    }
    if |holders| == 1 {
      SingleHolder(holders);
      var h :| h in holders && holders == {h};
      if !s.claims[h].Ready() {
        return Stop(HolderNotReady);
      }
      if p in outages.patches {
        return Stop(PatchFailed);
      }
      MovedIsHandedOn(s, c, p, h);
      return Rewrite(TransferOwnership(s.pods.Get(p), s.claims[c], h, s.claims[h]));
    }
    if p in outages.stores {
      return Stop(StoreUnreachable);
    }
    if p in outages.patches {
      return Stop(PatchFailed);
    }
    assert holders == {};
    GivenBackIsHandedOn(s, c, p);
    ReclaimFacts(s.pods.Get(p), s.claims[c], s.now);
    return Rewrite(Reclaim(s.pods.Get(p), s.claims[c], s.now));
  }

  /** The decision on a pod depends on the claims, the clock and that pod only. */
  lemma DecisionFrame(s: State, t: State, c: string, p: string, outages: Outages)
    requires s.pods.Valid() && t.pods.Valid() && t == s.(pods := t.pods) && c in s.claims
    requires p in s.pods.live && p in t.pods.live && s.pods.Get(p) == t.pods.Get(p)
    ensures FinalizedPod(s, c, p) == FinalizedPod(t, c, p)
    ensures forall pod :: HandedOn(s, c, p, pod) <==> HandedOn(t, c, p, pod)
    ensures forall r :: BlockedAt(s, c, p, outages, r) <==> BlockedAt(t, c, p, outages, r)
  {
    assert Holders(s, c, p) == Holders(t, c, p);
  }

  class Cluster {
    var s: State

    constructor (initial: State)
      ensures s == initial
    {
      s := initial;
    }

    /** The orphan of an earlier pass if there is one, otherwise the first idle pod of the list
        that no other claim names and whose listed version is still current. An update that
        fails for another reason than a conflict ends the pass. */
    method SelectCN(c: string, orphans: seq<string>, idle: seq<nat>, named: set<string>, broken: set<string>)
        returns (claimed: Option<string>, failed: bool)
      requires Inv(s) && Active(s, c) && c !in s.binding && ListsOwned(s, c, orphans)
      requires forall v :: v in idle ==>
        && v in s.pods.log && s.pods.log[v].content.Phase() == Idle
        && OutdatedKey !in s.pods.log[v].content.labels
      modifies this
      ensures Inv(s)
      ensures claimed.Some? ==> !failed && Owns(s, c, claimed.value) && c in s.binding && s.binding[c] == claimed.value
      ensures forall p :: p in old(s).pods.live && claimed != Some(p) ==> s.pods.Valid() && p in s.pods.live && s.pods.Get(p) == old(s).pods.Get(p)
      ensures orphans != [] ==> claimed == Some(orphans[0]) && s == old(s).(binding := old(s).binding[c := orphans[0]])
      ensures orphans == [] && claimed.Some? ==> TakenFrom(old(s), s, c, claimed.value)
      ensures claimed.Some? ==> s == old(s).(pods := s.pods, binding := old(s).binding[c := claimed.value])
      ensures orphans == [] && claimed.None? ==> s == old(s)
      ensures orphans == [] && claimed.None? && !failed ==> forall v :: v in idle ==> Passed(old(s), v, named, broken)
      ensures orphans == [] && (claimed.Some? || failed) ==>
        exists k :: 0 <= k < |idle| && Decides(old(s), idle, named, broken, k, claimed)
    {
      hide Ownership, Recycling, TakenFrom;
      failed := false;
      if |orphans| > 0 {
        StepKeepsInv(DrainConfig(0, 0), s, BindOrphan(c, orphans[0]));
        s := s.(binding := s.binding[c := orphans[0]]);
        return Some(orphans[0]), false;
      }
      for i := 0 to |idle|
        invariant s == old(s)
        invariant forall k :: 0 <= k < i ==> Passed(s, idle[k], named, broken)
      {
        var v := idle[i];
        var w := s.pods.log[v];
        if w.name in named {
          continue;
        }
        if w.name in broken {
          assert Decides(old(s), idle, named, broken, i, None);
          return None, true;
        }
        if s.pods.Current(v) {
          TakeFacts(s, c, v);
          s := s.(pods := s.pods.Update(v, EnsureOwnership(w.content, c, s.claims[c])), binding := s.binding[c := w.name]);
          assert Decides(old(s), idle, named, broken, i, Some(w.name));
          return Some(w.name), false;
        }
      }
      return None, false;
    }

    /** One finalization pass of claim c over the current list of its pods, for any claims and
        pods at all, shared pods included. Each pod of the prefix it gets through is drained or
        moved to its only holder, and Done is reported exactly when nothing is left. */
    method Finalize(c: string, owned: seq<string>, outages: Outages) returns (result: FinalizeResult, written: seq<Pod>)
      requires s.pods.Valid() && c in s.claims && ListsOwned(s, c, owned)
      modifies this
      ensures s.pods.Valid() && |written| <= |owned| && FinalizedPrefix(old(s), s, c, owned, written)
      ensures forall k :: 0 <= k < |written| ==> written[k] == FinalizedPod(old(s), c, owned[k])
      ensures forall k :: 0 <= k < |written| ==> owned[k] in old(s).pods.live && HandedOn(old(s), c, owned[k], written[k])
      ensures result.Done? <==> owned == []
      ensures result.Stopped? <==> |written| < |owned|
      ensures result.Stopped? ==> BlockedAt(old(s), c, owned[|written|], outages, result.reason)
      ensures result.Again? ==> forall p :: !Owns(s, c, p)
    {
      hide FinalizedPod, BlockedAt, FinalizedPrefix, HandedOn;
      written := [];
      StartFinalizing(s, c, owned);
      if |owned| == 0 {
        return Done, [];
      }
      for i := 0 to |owned|
        invariant s.pods.Valid() && |written| == i && FinalizedPrefix(old(s), s, c, owned, written)
        invariant forall k :: 0 <= k < i ==> owned[k] in old(s).pods.live && written[k] == FinalizedPod(old(s), c, owned[k])
        invariant forall k :: 0 <= k < i ==> HandedOn(old(s), c, owned[k], written[k])
      {
        var p := owned[i];
        NextPod(old(s), s, c, owned, written);
        DecisionFrame(old(s), s, c, p, outages);
        var d := FinalizeDecision(s, c, p, outages);
        if d.Stop? {
          return Stopped(d.reason), written;
        }
        FinalizeOne(old(s), s, c, owned, written, d.pod);
        s := s.(pods := s.pods.Put(p, d.pod));
        written := written + [d.pod];
      }
      FinalizedShrinks(old(s), s, c, owned, written);
      return Again, written;
    }
  }

  /** The pass goes on to the next listed pod: this one is named, or has changed. */
  ghost predicate Passed(s: State, v: nat, named: set<string>, broken: set<string>)
    requires v in s.pods.log
  {
    s.pods.log[v].name in named || (s.pods.log[v].name !in broken && !s.pods.Current(v))
  }

  /** Entry k is the first that is not passed: its pod is claimed, or its update is broken. */
  ghost predicate Decides(s: State, idle: seq<nat>, named: set<string>, broken: set<string>, k: nat, claimed: Option<string>)
    requires k < |idle| && forall v :: v in idle ==> v in s.pods.log
  {
    && (forall i :: 0 <= i < k ==> Passed(s, idle[i], named, broken))
    && !Passed(s, idle[k], named, broken)
    && claimed == if s.pods.log[idle[k]].name in broken then None else Some(s.pods.log[idle[k]].name)
  }
}
