/** The life of a bucket claim: log sets, CN and DN sets, users and the claim's own controller
    write it through the API server, each from a cache that may be stale. */
module Buckets {
  import opened Options
  import opened ApiServer

  datatype BucketState = InUse | Released | Deleting

  /** `bindTo` is empty or the mark of a log set; `everRunning` the annotation that some pod of
      the cluster was running; `deleting` that the object has a deletion timestamp; `s3` the
      storage it stands for; `reason` that of its failure condition. */
  datatype Bucket = Bucket(
    state: BucketState, bindTo: string, finalizers: seq<string>, everRunning: bool, deleting: bool,
    s3: string, reason: string)

  datatype Policy = NoPolicy | Retain | Delete

  /** What the claim's finalization meets: no job yet, in which case it creates one, or fails
      to create its config map or the job itself; or a job in one of its states. */
  datatype JobView = NotFound | NoConfigMap | NotCreated | Running | Succeeded | Failed {
    predicate Exists() { Running? || Succeeded? || Failed? }
  }

  const DATA_FINALIZER := "matrixorigin.io/bucket-data-finalizer"
  const CN_PREFIX := "matrixorigin.io/CN"
  const DN_PREFIX := "matrixorigin.io/DN"

  datatype LogSetKey = LogSetKey(namespace: string, name: string) {
    function Mark(): string { namespace + "/" + name }
  }

  /** Log sets are told apart by their marks, since a namespace holds no slash. */
  lemma MarksAreDistinct(a: LogSetKey, b: LogSetKey)
    requires '/' !in a.namespace && '/' !in b.namespace && a.Mark() == b.Mark()
    ensures a == b
  {
    var m, i, j := a.Mark(), |a.namespace|, |b.namespace|;
    assert m[i] == '/' && b.Mark()[j] == '/';
    assert forall k :: 0 <= k < i ==> m[k] == a.namespace[k];
    assert forall k :: 0 <= k < j ==> m[k] == b.namespace[k];
    assert i == j;
    assert a.namespace == m[..i] == b.namespace;
    assert a.name == m[i + 1..] == b.name;
  }

  // ---------- finalizers ----------

  ghost predicate HasPrefix(finalizers: seq<string>, prefix: string) {
    exists f :: f in finalizers && prefix <= f
  }

  /** Some CN or DN set still uses the bucket. */
  ghost predicate Occupied(b: Bucket) {
    HasPrefix(b.finalizers, DN_PREFIX) || HasPrefix(b.finalizers, CN_PREFIX)
  }

  function Without(finalizers: seq<string>, f: string): (r: seq<string>)
    ensures forall g :: g in r <==> g in finalizers && g != f
  {
    if finalizers == [] then []
    else if finalizers[0] == f then Without(finalizers[1..], f)
    else [finalizers[0]] + Without(finalizers[1..], f)
  }

  function With(finalizers: seq<string>, f: string): (r: seq<string>)
    ensures forall g :: g in r <==> g in finalizers || g == f
  {
    if f in finalizers then finalizers else finalizers + [f]
  }

  method ContainFinalizerPrefix(finalizers: seq<string>, prefix: string) returns (found: bool)
    ensures found <==> HasPrefix(finalizers, prefix)
  {
    for i := 0 to |finalizers|
      invariant forall f :: f in finalizers[..i] ==> !(prefix <= f)
    {
      if prefix <= finalizers[i] {
        assert finalizers[i] in finalizers;
        return true;
      }
      assert finalizers[..i + 1] == finalizers[..i] + [finalizers[i]];
    }
    assert finalizers[..|finalizers|] == finalizers;
    return false;
  }

  lemma DataIsNoUser()
    ensures !HasPrefix([DATA_FINALIZER], CN_PREFIX) && !HasPrefix([DATA_FINALIZER], DN_PREFIX)
  {
    assert DATA_FINALIZER[16] == 'b' && CN_PREFIX[16] == 'C' && DN_PREFIX[16] == 'D';
  }

  // ---------- the protocol ----------

  /** `jobs` are the buckets for which a data-deleting job was ever requested, `wiped` the
      storages it was to empty. */
  datatype State = State(buckets: Store<Bucket>, jobs: set<string>, wiped: set<string>)

  const INIT := State(EmptyStore(), {}, {})

  datatype Step =
    | CreateBucket(name: string, logset: LogSetKey, s3: string)
    | DeleteBucket(name: string)
    | Act(snapshot: nat, action: Action)

  /** What a controller does with the version of a bucket it has read. */
  datatype Action =
    | SyncBucket(logset: LogSetKey, s3: string)
    | FinalizeBucket(logset: LogSetKey, policy: Policy)
    | AddFinalizer(finalizer: string)
    | RemoveFinalizer(finalizer: string)
    | SetEverRunning
    | FinalizeClaim(job: JobView)

  ghost predicate Enabled(s: State, step: Step) {
    match step
    case CreateBucket(_, _, _) => true
    case DeleteBucket(_) => true
    case Act(v, action) =>
      && v in s.buckets.log
      && match action
         case AddFinalizer(f) => f != DATA_FINALIZER
         case RemoveFinalizer(f) => f != DATA_FINALIZER
         case FinalizeClaim(job) => s.buckets.log[v].content.deleting && (job.Exists() ==> s.buckets.log[v].name in s.jobs)
         case _ => true
  }

  ghost predicate Mine(b: Bucket, l: LogSetKey) { b.bindTo == "" || b.bindTo == l.Mark() }

  /** The object the controller writes back, if it writes one. */
  ghost function Written(b: Bucket, action: Action): Option<Bucket> {
    match action
    case SyncBucket(l, s3) =>
      var to := b.(state := InUse, bindTo := l.Mark(), finalizers := With(b.finalizers, DATA_FINALIZER), s3 := s3);
      if !Mine(b, l) || to == b then None else Some(to)
    case FinalizeBucket(l, policy) =>
      if !Mine(b, l) || Occupied(b) || policy == NoPolicy then None
      else Some(b.(state := if policy == Retain then Released else Deleting, bindTo := ""))
    case AddFinalizer(f) => if f in b.finalizers then None else Some(b.(finalizers := With(b.finalizers, f)))
    case RemoveFinalizer(f) => if f in b.finalizers then Some(b.(finalizers := Without(b.finalizers, f))) else None
    case SetEverRunning => if b.everRunning then None else Some(b.(everRunning := true))
    case FinalizeClaim(job) =>
      if b.state == InUse then Some(b.(reason := "InUse"))
      else if b.state == Released || !b.everRunning || job == Succeeded then
        Some(b.(finalizers := Without(b.finalizers, DATA_FINALIZER)))
      else if job == Failed then Some(b.(reason := "JobFailure"))
      else if job == NotCreated then Some(b.(reason := "FailCreateJob"))
      else None
  }

  ghost predicate NeedsJob(b: Bucket, action: Action) {
    action == FinalizeClaim(NotFound) && b.state == Deleting && b.everRunning
  }

  function NewBucket(l: LogSetKey, s3: string): Bucket {
    Bucket(InUse, l.Mark(), [DATA_FINALIZER], false, false, s3, "")
  }

  /** An update of a bucket: a deleting object takes no new finalizer, and goes away with its
      last one. */
  function Commit(s: Store<Bucket>, v: nat, b: Bucket): Store<Bucket>
    requires v in s.log
  {
    var read := s.log[v];
    if !s.Current(v) then s
    else if read.content.deleting && exists f :: f in b.finalizers && f !in read.content.finalizers then s
    else if read.content.deleting && b.finalizers == [] then s.Remove(read.name)
    else s.Put(read.name, b)
  }

  function Deleted(s: Store<Bucket>, name: string): Store<Bucket>
    requires s.Valid()
  {
    if name !in s.live then s
    else if s.Get(name).finalizers == [] then s.Remove(name)
    else s.Put(name, s.Get(name).(deleting := true))
  }

  ghost function Apply(s: State, step: Step): State
    requires s.buckets.Valid() && Enabled(s, step)
  {
    match step
    case CreateBucket(n, l, s3) => if n in s.buckets.live then s else s.(buckets := s.buckets.Put(n, NewBucket(l, s3)))
    case DeleteBucket(n) => s.(buckets := Deleted(s.buckets, n))
    case Act(v, action) =>
      var read := s.buckets.log[v];
      var to := Written(read.content, action);
      State(
        if to.Some? then Commit(s.buckets, v, to.value) else s.buckets,
        if NeedsJob(read.content, action) then s.jobs + {read.name} else s.jobs,
        if NeedsJob(read.content, action) then s.wiped + {read.content.s3} else s.wiped)
  }

  /** A bucket is in use exactly when a log set holds it, and then its data is guarded. */
  ghost predicate Sound(b: Bucket) {
    (b.state == InUse <==> b.bindTo != "") && (b.state == InUse ==> DATA_FINALIZER in b.finalizers)
  }

  ghost predicate Inv(s: State) {
    && s.buckets.Valid()
    && (forall v :: v in s.buckets.log ==> Sound(s.buckets.log[v].content))
  }

  lemma WrittenIsSound(b: Bucket, action: Action)
    requires Sound(b) && Written(b, action).Some?
    requires action.AddFinalizer? || action.RemoveFinalizer? ==> action.finalizer != DATA_FINALIZER
    ensures Sound(Written(b, action).value)
    ensures Written(b, action).value.deleting == b.deleting
  {
  }

  lemma PutKeepsInv(s: State, n: string, b: Bucket)
    requires Inv(s) && Sound(b)
    ensures Inv(s.(buckets := s.buckets.Put(n, b)))
  {
    PutFacts(s.buckets, n, b);
  }

  lemma StepKeepsInv(s: State, step: Step)
    requires Inv(s) && Enabled(s, step)
    ensures Inv(Apply(s, step))
  {
    match step
    case CreateBucket(n, l, s3) => PutKeepsInv(s, n, NewBucket(l, s3));
    case DeleteBucket(n) =>
      RemoveFacts(s.buckets, n);
      if n in s.buckets.live { PutKeepsInv(s, n, s.buckets.Get(n).(deleting := true)); }
    case Act(v, action) =>
      var read := s.buckets.log[v];
      RemoveFacts(s.buckets, read.name);
      var to := Written(read.content, action);
      if to.Some? {
        WrittenIsSound(read.content, action);
        PutKeepsInv(s, read.name, to.value);
      }
  }

  /** What one step can do to an existing bucket: nothing, mark it deleted, write what an
      action makes of its current content, or remove it, which happens only when nothing
      uses it. */
  ghost predicate Edge(s: State, step: Step, n: string)
    requires Inv(s) && Enabled(s, step) && Inv(Apply(s, step)) && n in s.buckets.live
  {
    var t := Apply(s, step);
    var was := s.buckets.Get(n);
    if n !in t.buckets.live then was.state != InUse
    else
      var b := t.buckets.Get(n);
      || b == was
      || b == was.(deleting := true)
      || (step.Act? && Written(was, step.action) == Some(b) && s.buckets.live[n] == step.snapshot)
  }

  lemma StepEdge(s: State, step: Step, n: string)
    requires Inv(s) && Enabled(s, step) && n in s.buckets.live
    ensures Inv(Apply(s, step)) && Edge(s, step, n)
  {
    StepKeepsInv(s, step);
    match step
    case CreateBucket(m, l, s3) => PutFacts(s.buckets, m, NewBucket(l, s3));
    case DeleteBucket(m) =>
      RemoveFacts(s.buckets, m);
      if m in s.buckets.live { PutFacts(s.buckets, m, s.buckets.Get(m).(deleting := true)); }
    case Act(v, action) =>
      var read := s.buckets.log[v];
      RemoveFacts(s.buckets, read.name);
      var to := Written(read.content, action);
      if to.Some? {
        WrittenIsSound(read.content, action);
        PutFacts(s.buckets, read.name, to.value);
      }
  }

  /** A bucket leaves use, or changes to Deleting, only through the finalization of a log set
      that holds it or finds it free, and with no CN or DN set on it at that very moment. */
  lemma ReleasedOnlyWhenUnoccupied(s: State, step: Step, n: string)
    requires Inv(s) && Enabled(s, step) && n in s.buckets.live && n in Apply(s, step).buckets.live
    requires Inv(Apply(s, step))
    ensures var was, b := s.buckets.Get(n), Apply(s, step).buckets.Get(n);
            b.state != was.state && b.state != InUse ==>
              && !Occupied(was) && !Occupied(b) && b.bindTo == ""
              && step.Act? && step.action.FinalizeBucket? && Mine(was, step.action.logset) && step.snapshot == s.buckets.live[n]
              && (b.state == Deleting ==> step.action.policy == Delete)
  {
    StepEdge(s, step, n);
  }

  // ---------- whole runs ----------

  ghost predicate IsRun(states: seq<State>, steps: seq<Step>) {
    && |states| == |steps| + 1 && states[0] == INIT
    && forall i :: 0 <= i < |steps| ==> StepAt(states, steps, i)
  }

  ghost predicate StepAt(states: seq<State>, steps: seq<Step>, i: nat)
    requires i < |steps| && i + 1 < |states|
  {
    states[i].buckets.Valid() && Enabled(states[i], steps[i]) && states[i + 1] == Apply(states[i], steps[i])
  }

  lemma {:induction false} RunKeepsInv(states: seq<State>, steps: seq<Step>, i: nat)
    requires IsRun(states, steps) && i < |states|
    ensures Inv(states[i])
  {
    if i > 0 {
      RunKeepsInv(states, steps, i - 1);
      assert StepAt(states, steps, i - 1);
      StepKeepsInv(states[i - 1], steps[i - 1]);
    }
  }

  /** In every interleaving a bucket is in use exactly when it is bound to a log set. */
  lemma InUseExactlyWhenBound(states: seq<State>, steps: seq<Step>, i: nat, n: string)
    requires IsRun(states, steps) && i < |states| && n in states[i].buckets.live && states[i].buckets.Valid()
    ensures states[i].buckets.Get(n).state == InUse <==> states[i].buckets.Get(n).bindTo != ""
  {
    RunKeepsInv(states, steps, i);
  }

  ghost predicate HeldBy(s: State, n: string, mark: string) {
    s.buckets.Valid() && n in s.buckets.live && s.buckets.Get(n).bindTo == mark
  }

  /** The committed finalization of an unoccupied bucket by a log set. */
  ghost predicate GivenUp(states: seq<State>, steps: seq<Step>, k: nat, n: string)
    requires k < |steps| && k + 1 < |states|
  {
    && states[k].buckets.Valid() && n in states[k].buckets.live && !Occupied(states[k].buckets.Get(n))
    && HeldBy(states[k + 1], n, "")
    && steps[k].Act? && steps[k].action.FinalizeBucket? && Mine(states[k].buckets.Get(n), steps[k].action.logset)
    && steps[k].snapshot == states[k].buckets.live[n]
    && (states[k + 1].buckets.Get(n).state == Deleting <==> steps[k].action.policy == Delete)
  }

  /** A log set keeps its bucket, whatever others do and however stale their caches, until its
      own finalization gives the bucket up; in particular no other log set gets it before. */
  lemma {:induction false} HeldUntilFinalized(states: seq<State>, steps: seq<Step>, i: nat, j: nat, n: string, mark: string) returns (k: nat)
    requires IsRun(states, steps) && i <= j < |states| && mark != ""
    requires HeldBy(states[i], n, mark) && !HeldBy(states[j], n, mark)
    ensures i <= k < j && HeldBy(states[k], n, mark) && GivenUp(states, steps, k, n)
    ensures steps[k].action.logset.Mark() == mark
    decreases j - i
  {
    RunKeepsInv(states, steps, i);
    assert StepAt(states, steps, i);
    StepEdge(states[i], steps[i], n);
    if HeldBy(states[i + 1], n, mark) {
      k := HeldUntilFinalized(states, steps, i + 1, j, n, mark);
    } else {
      k := i;
      ReleasedOnlyWhenUnoccupied(states[i], steps[i], n);
    }
  }

  lemma LogGrows(s: State, step: Step, v: nat)
    requires Inv(s) && Enabled(s, step) && Inv(Apply(s, step)) && v in Apply(s, step).buckets.log
    ensures var t := Apply(s, step);
            if v in s.buckets.log then t.buckets.log[v] == s.buckets.log[v]
            else var n := t.buckets.log[v].name; n in t.buckets.live && t.buckets.live[n] == v && (n in s.buckets.live || t.buckets.Get(n).state == InUse)
  {
  }

  /** Whoever sees a bucket in state Deleting, a log set with policy Delete has given it up. */
  lemma {:induction false} DeletingWasGivenUp(states: seq<State>, steps: seq<Step>, i: nat, v: nat) returns (k: nat)
    requires IsRun(states, steps) && i < |states| && v in states[i].buckets.log
    requires states[i].buckets.log[v].content.state == Deleting
    ensures k < i && GivenUp(states, steps, k, states[i].buckets.log[v].name) && steps[k].action.policy == Delete
    decreases i
  {
    var s, step := states[i - 1], steps[i - 1];
    RunKeepsInv(states, steps, i - 1);
    RunKeepsInv(states, steps, i);
    assert StepAt(states, steps, i - 1);
    LogGrows(s, step, v);
    var n := states[i].buckets.log[v].name;
    if v in s.buckets.log {
      k := DeletingWasGivenUp(states, steps, i - 1, v);
    } else if s.buckets.Get(n).state == Deleting {
      k := DeletingWasGivenUp(states, steps, i - 1, s.buckets.live[n]);
    } else {
      StepEdge(s, step, n);
      ReleasedOnlyWhenUnoccupied(s, step, n);
      k := i - 1;
    }
  }

  /** A data-deleting job is requested only for a bucket that a log set with policy Delete gave
      up earlier; deleting the claim at any moment does not bring one about. */
  lemma {:induction false} JobOnlyAfterDeletePolicy(states: seq<State>, steps: seq<Step>, j: nat, n: string) returns (k: nat)
    requires IsRun(states, steps) && j < |states| && n in states[j].jobs
    ensures k < j && GivenUp(states, steps, k, n) && steps[k].action.policy == Delete
    decreases j
  {
    assert StepAt(states, steps, j - 1);
    if n in states[j - 1].jobs {
      k := JobOnlyAfterDeletePolicy(states, steps, j - 1, n);
    } else {
      k := DeletingWasGivenUp(states, steps, j - 1, steps[j - 1].snapshot);
    }
  }

  /** The finalization, at step k, of bucket n by a log set with policy Delete. */
  ghost predicate DeletesData(states: seq<State>, steps: seq<Step>, k: nat, n: string)
    requires k < |steps| && k < |states|
  {
    && steps[k].Act? && steps[k].action.FinalizeBucket? && steps[k].action.policy == Delete
    && steps[k].snapshot in states[k].buckets.log && states[k].buckets.log[steps[k].snapshot].name == n
  }

  /** Hence, if every log set that ever finalizes the bucket has policy Retain, its data is
      never deleted. */
  lemma RetainNeverDeletes(states: seq<State>, steps: seq<Step>, j: nat, n: string)
    requires IsRun(states, steps) && j < |states|
    requires forall k :: 0 <= k < j ==> !DeletesData(states, steps, k, n)
    ensures n !in states[j].jobs
  {
    if n in states[j].jobs {
      var k := JobOnlyAfterDeletePolicy(states, steps, j, n);
      assert DeletesData(states, steps, k, n);
    }
  }

  ghost predicate Bound(s: State, n: string) {
    s.buckets.Valid() && n in s.buckets.live && s.buckets.Get(n).bindTo != ""
  }

  // ---------- what becomes of the data finalizer ----------

  /** The claim controller may let a bucket go: it was released, it never ran, or its data has
      been deleted. */
  ghost predicate MayGo(b: Bucket, job: JobView) {
    b.state != InUse && (b.state == Released || !b.everRunning || job == Succeeded)
  }

  ghost predicate Guarded(s: State, n: string) {
    s.buckets.Valid() && n in s.buckets.live && DATA_FINALIZER in s.buckets.Get(n).finalizers
  }

  /** A step takes the data finalizer, and the bucket with it, only from the current version of
      a bucket that may go. */
  lemma LetsGoExactly(s: State, step: Step, n: string)
    requires Inv(s) && Enabled(s, step) && Guarded(s, n)
    ensures !Guarded(Apply(s, step), n) <==>
            && step.Act? && step.action.FinalizeClaim? && step.snapshot == s.buckets.live[n]
            && MayGo(s.buckets.Get(n), step.action.job)
  {
    StepKeepsInv(s, step);
    match step
    case CreateBucket(m, l, s3) => PutFacts(s.buckets, m, NewBucket(l, s3));
    case DeleteBucket(m) =>
      RemoveFacts(s.buckets, m);
      if m in s.buckets.live { PutFacts(s.buckets, m, s.buckets.Get(m).(deleting := true)); }
    case Act(v, action) => ActLetsGo(s, v, action, n);
  }

  lemma ActLetsGo(s: State, v: nat, action: Action, n: string)
    requires Inv(s) && Enabled(s, Act(v, action)) && Guarded(s, n)
    ensures Apply(s, Act(v, action)).buckets.Valid()
    ensures !Guarded(Apply(s, Act(v, action)), n) <==>
            action.FinalizeClaim? && v == s.buckets.live[n] && MayGo(s.buckets.Get(n), action.job)
  {
    StepKeepsInv(s, Act(v, action));
    var read := s.buckets.log[v];
    RemoveFacts(s.buckets, read.name);
    var to := Written(read.content, action);
    if to.Some? { PutFacts(s.buckets, read.name, to.value); }
    hide Sound, Inv;
  }

  /** Over every run: a guarded bucket stays guarded until a finalization of its claim finds it
      released, never used, or with its deleting job done. */
  lemma {:induction false} GuardedUntilItMayGo(states: seq<State>, steps: seq<Step>, i: nat, j: nat, n: string) returns (k: nat)
    requires IsRun(states, steps) && i <= j < |states| && Guarded(states[i], n) && !Guarded(states[j], n)
    ensures i <= k < j && Guarded(states[k], n)
    ensures steps[k].Act? && steps[k].action.FinalizeClaim? && steps[k].snapshot == states[k].buckets.live[n]
    ensures MayGo(states[k].buckets.Get(n), steps[k].action.job)
    decreases j - i
  {
    RunKeepsInv(states, steps, i);
    assert StepAt(states, steps, i);
    LetsGoExactly(states[i], steps[i], n);
    if Guarded(states[i + 1], n) {
      k := GuardedUntilItMayGo(states, steps, i + 1, j, n);
    } else {
      k := i;
    }
  }

  /** In particular a bucket in state Deleting that has run goes only after its job succeeded. */
  lemma DataGoneBeforeTheClaim(states: seq<State>, steps: seq<Step>, k: nat, n: string)
    requires IsRun(states, steps) && k < |steps| && Guarded(states[k], n) && !Guarded(states[k + 1], n)
    requires states[k].buckets.Get(n).state == Deleting && states[k].buckets.Get(n).everRunning
    ensures steps[k] == Act(states[k].buckets.live[n], FinalizeClaim(Succeeded))
  {
    RunKeepsInv(states, steps, k);
    assert StepAt(states, steps, k);
    LetsGoExactly(states[k], steps[k], n);
  }

  // ---------- the controllers ----------

  /** Whether the server takes the update. */
  predicate Commits(s: Store<Bucket>, v: nat, b: Bucket)
    requires v in s.log
  {
    s.Current(v) && !(s.log[v].content.deleting && exists f :: f in b.finalizers && f !in s.log[v].content.finalizers)
  }

  class Controllers {
    var state: State

    constructor ()
      ensures state == INIT
    {
      state := INIT;
    }

    method Update(v: nat, b: Bucket) returns (ok: bool)
      requires v in state.buckets.log
      modifies this
      ensures ok == Commits(old(state).buckets, v, b)
      ensures state == old(state).(buckets := Commit(old(state).buckets, v, b))
    {
      ok := Commits(state.buckets, v, b);
      state := state.(buckets := Commit(state.buckets, v, b));
    }

    /** A log set's sync, on the bucket its cache lists, if any. */
    method SyncBucketClaim(l: LogSetKey, s3: string, found: Option<nat>, newName: string) returns (ok: bool)
      requires Inv(state) && (found.Some? ==> found.value in state.buckets.log)
      modifies this
      ensures Inv(state)
      ensures state == Apply(old(state), if found.Some? then Act(found.value, SyncBucket(l, s3)) else CreateBucket(newName, l, s3))
      ensures found.Some? && ok && old(state).buckets.Current(found.value) ==> HeldBy(state, old(state).buckets.log[found.value].name, l.Mark())
      ensures found.Some? && old(state).buckets.Current(found.value) ==> (ok <==> Mine(old(state).buckets.log[found.value].content, l) && MayGuard(old(state).buckets.log[found.value].content))
      ensures found.Some? && ok && old(state).buckets.Current(found.value) ==> TakenFor(old(state), state, found.value, l, s3)
      ensures found.Some? && !ok ==> state == old(state)
      ensures found.None? ==> (ok <==> newName !in old(state).buckets.live) && (!ok ==> state == old(state))
      ensures found.None? && ok ==> HeldBy(state, newName, l.Mark())
      ensures found.None? && ok ==> state.buckets.Get(newName) == Bucket(InUse, l.Mark(), [DATA_FINALIZER], false, false, s3, "")
    {
      StepKeepsInv(state, if found.Some? then Act(found.value, SyncBucket(l, s3)) else CreateBucket(newName, l, s3));
      if found.None? {
        ok := newName !in state.buckets.live;
        if ok {
          state := state.(buckets := state.buckets.Put(newName, NewBucket(l, s3)));
        }
        return;
      }
      var bucket := state.buckets.log[found.value].content;
      if bucket.bindTo != "" && bucket.bindTo != l.Mark() {
        return false;
      }
      if state.buckets.Current(found.value) { TakenForFacts(state, found.value, l, s3); }
      hide TakenFor, Sound;
      var target := bucket;
      target := target.(finalizers := With(target.finalizers, DATA_FINALIZER));
      target := target.(s3 := s3);
      target := target.(bindTo := l.Mark());
      target := target.(state := InUse);
      ok := true;
      if target != bucket {
        ok := Update(found.value, target);
      }
    }

    /** A log set's finalization. It reports success only once the bucket it found is no longer
        the log set's. */
    method FinalizeBucketClaim(l: LogSetKey, found: Option<nat>, policy: Policy) returns (success: bool)
      requires Inv(state) && (found.Some? ==> found.value in state.buckets.log)
      modifies this
      ensures Inv(state)
      ensures found.None? ==> success && state == old(state)
      ensures found.Some? ==> state == Finalized(old(state), found.value, l, policy)
      ensures found.Some? && success && policy != NoPolicy ==> !HeldBy(state, old(state).buckets.log[found.value].name, l.Mark())
      ensures found.Some? && success && policy != NoPolicy ==> GoneFor(old(state), state, found.value, l, policy)
      ensures found.Some? && !success ==> state == old(state)
      ensures found.Some? && old(state).buckets.Current(found.value) ==>
        (success <==> Mine(old(state).buckets.log[found.value].content, l) && !Occupied(old(state).buckets.log[found.value].content))
      ensures found.Some? && Occupied(old(state).buckets.log[found.value].content) ==> !success && state == old(state)
    {
      if found.None? {
        return true;
      }
      hide HeldBy, Sound, HasPrefix, Commit, Deleted, GoneFor;
      var v := found.value;
      FinalizedFacts(state, v, l, policy);
      var name, bucket := state.buckets.log[v].name, state.buckets.log[v].content;
      if bucket.bindTo != "" && bucket.bindTo != l.Mark() {
        return false;
      }
      var dn := ContainFinalizerPrefix(bucket.finalizers, DN_PREFIX);
      var cn := ContainFinalizerPrefix(bucket.finalizers, CN_PREFIX);
      if dn || cn {
        return false;
      }
      if policy != NoPolicy && state.buckets.Current(v) { GoneForFacts(state, v, l, policy); }
      match policy
      case NoPolicy =>
        success := true;
      case Retain =>
        success := Update(v, bucket.(state := Released, bindTo := ""));
      case Delete =>
        success := Update(v, bucket.(state := Deleting, bindTo := ""));
        if success {
          state := state.(buckets := Deleted(state.buckets, name));
        }
    }

    /** A CN or DN set puts its finalizer on the bucket its cache lists, unless it is there. */
    method AddBucketFinalizer(v: nat, f: string) returns (ok: bool)
      requires Inv(state) && v in state.buckets.log && f != DATA_FINALIZER
      modifies this
      ensures Inv(state) && state == Apply(old(state), Act(v, AddFinalizer(f)))
      ensures f in old(state).buckets.log[v].content.finalizers ==> ok && state == old(state)
      ensures f !in old(state).buckets.log[v].content.finalizers ==>
        (ok <==> old(state).buckets.Current(v) && !old(state).buckets.log[v].content.deleting)
      ensures !ok ==> state == old(state)
      ensures ok && old(state).buckets.Current(v) ==> Rewritten(old(state), state, v, old(state).buckets.log[v].content.everRunning)
      ensures ok && old(state).buckets.Current(v) ==> forall g ::
        g in state.buckets.Get(old(state).buckets.log[v].name).finalizers <==> g in old(state).buckets.log[v].content.finalizers || g == f
    {
      StepKeepsInv(state, Act(v, AddFinalizer(f)));
      var bucket := state.buckets.log[v].content;
      PutFacts(state.buckets, state.buckets.log[v].name, bucket.(finalizers := With(bucket.finalizers, f)));
      hide Sound;
      ok := true;
      if f !in bucket.finalizers {
        ok := Update(v, bucket.(finalizers := With(bucket.finalizers, f)));
      }
    }

    /** And takes it off again; with its last finalizer a bucket under deletion goes away. */
    method RemoveBucketFinalizer(v: nat, f: string) returns (ok: bool)
      requires Inv(state) && v in state.buckets.log && f != DATA_FINALIZER
      modifies this
      ensures Inv(state) && state == Apply(old(state), Act(v, RemoveFinalizer(f)))
      ensures f !in old(state).buckets.log[v].content.finalizers ==> ok && state == old(state)
      ensures f in old(state).buckets.log[v].content.finalizers ==> (ok <==> old(state).buckets.Current(v))
      ensures !ok ==> state == old(state)
      ensures ok && old(state).buckets.Current(v) && old(state).buckets.log[v].name in state.buckets.live ==>
        && Rewritten(old(state), state, v, old(state).buckets.log[v].content.everRunning)
        && forall g ::
          g in state.buckets.Get(old(state).buckets.log[v].name).finalizers <==> g in old(state).buckets.log[v].content.finalizers && g != f
    {
      StepKeepsInv(state, Act(v, RemoveFinalizer(f)));
      var bucket := state.buckets.log[v].content;
      PutFacts(state.buckets, state.buckets.log[v].name, bucket.(finalizers := Without(bucket.finalizers, f)));
      RemoveFacts(state.buckets, state.buckets.log[v].name);
      hide Sound;
      ok := true;
      if f in bucket.finalizers {
        ok := Update(v, bucket.(finalizers := Without(bucket.finalizers, f)));
      }
    }

    /** Some pod of the cluster is running: the mark is set once and never taken back. */
    method SetBucketEverRunning(v: nat) returns (ok: bool)
      requires Inv(state) && v in state.buckets.log
      modifies this
      ensures Inv(state) && state == Apply(old(state), Act(v, SetEverRunning))
      ensures old(state).buckets.log[v].content.everRunning ==> ok && state == old(state)
      ensures !old(state).buckets.log[v].content.everRunning ==> (ok <==> old(state).buckets.Current(v))
      ensures !ok ==> state == old(state)
      ensures ok && old(state).buckets.Current(v) && old(state).buckets.log[v].content.finalizers != [] ==> Rewritten(old(state), state, v, true)
    {
      StepKeepsInv(state, Act(v, SetEverRunning));
      var bucket := state.buckets.log[v].content;
      PutFacts(state.buckets, state.buckets.log[v].name, bucket.(everRunning := true));
      hide Sound;
      ok := true;
      if !bucket.everRunning {
        ok := Update(v, bucket.(everRunning := true));
      }
    }

    /** The claim controller's finalization of a bucket it has seen under deletion. */
    method FinalizeClaimObject(v: nat, job: JobView) returns (done: bool)
      requires Inv(state) && Enabled(state, Act(v, FinalizeClaim(job)))
      modifies this
      ensures Inv(state) && state == Apply(old(state), Act(v, FinalizeClaim(job)))
      ensures done <==> old(state).buckets.Current(v) && MayGo(old(state).buckets.log[v].content, job)
      ensures done ==> !Guarded(state, old(state).buckets.log[v].name)
      ensures state.jobs == old(state).jobs +
              if !MayGo(old(state).buckets.log[v].content, job) && old(state).buckets.log[v].content.state == Deleting && job == NotFound
              then {old(state).buckets.log[v].name} else {}
      ensures !done && state.buckets != old(state).buckets && old(state).buckets.log[v].content.finalizers != [] ==>
        OnlyReason(old(state), state, v, FailReason(old(state).buckets.log[v].content, job))
    {
      FinalizeClaimFacts(state, v, job);
      hide OnlyReason, Guarded, Sound;
      var name, bucket := state.buckets.log[v].name, state.buckets.log[v].content;
      if bucket.state == InUse {
        var _ := Update(v, bucket.(reason := "InUse"));
        return false;
      }
      if bucket.state == Released || !bucket.everRunning {
        done := Update(v, bucket.(finalizers := Without(bucket.finalizers, DATA_FINALIZER)));
        return;
      }
      done := false;
      match job
      case NotFound =>
        state := state.(jobs := state.jobs + {name}, wiped := state.wiped + {bucket.s3});
      case NoConfigMap =>
      case NotCreated =>
        var _ := Update(v, bucket.(reason := "FailCreateJob"));
      case Succeeded =>
        done := Update(v, bucket.(finalizers := Without(bucket.finalizers, DATA_FINALIZER)));
      case Failed =>
        var _ := Update(v, bucket.(reason := "JobFailure"));
      case Running =>
    }
  }

  /** The reason of the failure condition a finalization leaves. */
  ghost function FailReason(b: Bucket, job: JobView): string {
    if b.state == InUse then "InUse" else if job == NotCreated then "FailCreateJob" else "JobFailure"
  }

  /** The bucket read at v is as it was but for the reason of its condition. */
  ghost predicate OnlyReason(s: State, t: State, v: nat, reason: string) {
    && v in s.buckets.log && t.buckets.Valid() && s.buckets.log[v].name in t.buckets.live
    && t.buckets.Get(s.buckets.log[v].name) == s.buckets.log[v].content.(reason := reason)
  }

  lemma FinalizeClaimFacts(s: State, v: nat, job: JobView)
    requires Inv(s) && Enabled(s, Act(v, FinalizeClaim(job)))
    ensures var t, b, n := Apply(s, Act(v, FinalizeClaim(job))), s.buckets.log[v].content, s.buckets.log[v].name;
            && Inv(t)
            && (s.buckets.Current(v) && MayGo(b, job) ==> !Guarded(t, n))
            && (!(s.buckets.Current(v) && MayGo(b, job)) && t.buckets != s.buckets && b.finalizers != [] ==> OnlyReason(s, t, v, FailReason(b, job)))
  {
    StepKeepsInv(s, Act(v, FinalizeClaim(job)));
    var read := s.buckets.log[v];
    if s.buckets.Current(v) && MayGo(read.content, job) {
      CommittedIsUnguarded(s, v, Written(read.content, FinalizeClaim(job)).value);
    } else if read.content.finalizers != [] {
      FailedKeeps(s, v, job);
    }
  }

  lemma CommittedIsUnguarded(s: State, v: nat, b: Bucket)
    requires s.buckets.Valid() && s.buckets.Current(v)
    requires forall f :: f in b.finalizers <==> f in s.buckets.log[v].content.finalizers && f != DATA_FINALIZER
    ensures var t := s.(buckets := Commit(s.buckets, v, b)); t.buckets.Valid() && !Guarded(t, s.buckets.log[v].name)
  {
    PutFacts(s.buckets, s.buckets.log[v].name, b);
    RemoveFacts(s.buckets, s.buckets.log[v].name);
  }

  lemma FailedKeeps(s: State, v: nat, job: JobView)
    requires s.buckets.Valid() && Enabled(s, Act(v, FinalizeClaim(job)))
    requires !(s.buckets.Current(v) && MayGo(s.buckets.log[v].content, job)) && s.buckets.log[v].content.finalizers != []
    ensures var t, b := Apply(s, Act(v, FinalizeClaim(job))), s.buckets.log[v].content;
            t.buckets != s.buckets ==> OnlyReason(s, t, v, FailReason(b, job))
  {
    var read := s.buckets.log[v];
    var to := Written(read.content, FinalizeClaim(job));
    if to.Some? { PutFacts(s.buckets, read.name, to.value); }
  }

  /** The bucket read at v may have other finalizers now and has this mark of having run; the
      rest of it is as it was. */
  ghost predicate Rewritten(s: State, t: State, v: nat, everRunning: bool) {
    && v in s.buckets.log && t.buckets.Valid() && s.buckets.log[v].name in t.buckets.live
    && var b := t.buckets.Get(s.buckets.log[v].name);
       b == s.buckets.log[v].content.(finalizers := b.finalizers, everRunning := everRunning)
  }

  /** The server lets the data finalizer be there: it is already, or the object is not deleted. */
  ghost predicate MayGuard(b: Bucket) { DATA_FINALIZER in b.finalizers || !b.deleting }

  /** The bucket read at v is now held by the log set for its storage, guarded, and otherwise as
      it was. */
  ghost predicate TakenFor(s: State, t: State, v: nat, l: LogSetKey, s3: string) {
    && v in s.buckets.log && HeldBy(t, s.buckets.log[v].name, l.Mark())
    && var was, b := s.buckets.log[v].content, t.buckets.Get(s.buckets.log[v].name);
       && b.state == InUse && b.s3 == s3
       && (forall f :: f in b.finalizers <==> f in was.finalizers || f == DATA_FINALIZER)
       && b.everRunning == was.everRunning && b.deleting == was.deleting && b.reason == was.reason
  }

  /** The bucket read at v was unoccupied and the log set's, or nobody's; it is nobody's now, and
      with policy Delete it is in state Deleting and under deletion, or gone; with Retain it is
      Released and not deleted by this. */
  ghost predicate GoneFor(s: State, t: State, v: nat, l: LogSetKey, policy: Policy) {
    && v in s.buckets.log && s.buckets.Valid() && t.buckets.Valid() && Mine(s.buckets.log[v].content, l) && !Occupied(s.buckets.log[v].content)
    && var was, n := s.buckets.log[v].content, s.buckets.log[v].name;
       if policy == Delete then
         n in t.buckets.live ==> t.buckets.Get(n) == was.(state := Deleting, bindTo := "", deleting := true)
       else if n in t.buckets.live then t.buckets.Get(n) == was.(state := Released, bindTo := "")
       else was.deleting && was.finalizers == []
  }

  lemma GoneForFacts(s: State, v: nat, l: LogSetKey, policy: Policy)
    requires Inv(s) && v in s.buckets.log && policy != NoPolicy && Mine(s.buckets.log[v].content, l) && !Occupied(s.buckets.log[v].content)
    requires s.buckets.Current(v)
    ensures GoneFor(s, Finalized(s, v, l, policy), v, l, policy)
    ensures Commits(s.buckets, v, Written(s.buckets.log[v].content, FinalizeBucket(l, policy)).value)
  {
    var was, n := s.buckets.log[v].content, s.buckets.log[v].name;
    var to := was.(state := if policy == Retain then Released else Deleting, bindTo := "");
    var t := s.(buckets := Commit(s.buckets, v, to));
    PutFacts(s.buckets, n, to);
    RemoveFacts(s.buckets, n);
    StepKeepsInv(s, Act(v, FinalizeBucket(l, policy)));
    hide Sound, Occupied;
    if n in t.buckets.live && policy == Delete {
      PutFacts(t.buckets, n, to.(deleting := true));
      RemoveFacts(t.buckets, n);
    }
  }

  lemma TakenForFacts(s: State, v: nat, l: LogSetKey, s3: string)
    requires Inv(s) && v in s.buckets.log && s.buckets.Current(v) && Mine(s.buckets.log[v].content, l) && l.Mark() != ""
    ensures MayGuard(s.buckets.log[v].content) ==> TakenFor(s, Apply(s, Act(v, SyncBucket(l, s3))), v, l, s3)
  {
    var was, n := s.buckets.log[v].content, s.buckets.log[v].name;
    PutFacts(s.buckets, n, was.(state := InUse, bindTo := l.Mark(), finalizers := With(was.finalizers, DATA_FINALIZER), s3 := s3));
    hide Sound;
  }

  /** The finalization step, with policy Delete followed by the deletion of the claim if the
      step was committed. */
  ghost function Finalized(s: State, v: nat, l: LogSetKey, policy: Policy): State
    requires Inv(s) && v in s.buckets.log
  {
    var step := Act(v, FinalizeBucket(l, policy));
    var to := Written(s.buckets.log[v].content, step.action);
    if policy == Delete && to.Some? && Commits(s.buckets, v, to.value) then
      StepKeepsInv(s, step);
      Apply(Apply(s, step), DeleteBucket(s.buckets.log[v].name))
    else Apply(s, step)
  }

  lemma FinalizedFacts(s: State, v: nat, l: LogSetKey, policy: Policy)
    requires Inv(s) && v in s.buckets.log
    ensures Inv(Finalized(s, v, l, policy))
    ensures Apply(s, Act(v, FinalizeBucket(l, policy))).buckets.Valid()
    ensures var to := Written(s.buckets.log[v].content, FinalizeBucket(l, policy));
            to.Some? && Commits(s.buckets, v, to.value) ==> !HeldBy(Finalized(s, v, l, policy), s.buckets.log[v].name, l.Mark())
  {
    var step, n := Act(v, FinalizeBucket(l, policy)), s.buckets.log[v].name;
    StepKeepsInv(s, step);
    var t := Apply(s, step);
    StepKeepsInv(t, DeleteBucket(n));
    var to := Written(s.buckets.log[v].content, step.action);
    hide Sound, Occupied;
    if to.Some? && Commits(s.buckets, v, to.value) {
      CommittedIsUnbound(s, v, to.value);
      DeletedIsUnbound(t, n);
    }
  }

  lemma CommittedIsUnbound(s: State, v: nat, b: Bucket)
    requires s.buckets.Valid() && v in s.buckets.log && b.bindTo == ""
    requires Commits(s.buckets, v, b)
    ensures var t := s.(buckets := Commit(s.buckets, v, b)); t.buckets.Valid() && !Bound(t, s.buckets.log[v].name)
  {
    PutFacts(s.buckets, s.buckets.log[v].name, b);
    RemoveFacts(s.buckets, s.buckets.log[v].name);
  }

  lemma DeletedIsUnbound(s: State, n: string)
    requires s.buckets.Valid() && !Bound(s, n)
    ensures var t := s.(buckets := Deleted(s.buckets, n)); t.buckets.Valid() && !Bound(t, n)
  {
    RemoveFacts(s.buckets, n);
    if n in s.buckets.live { PutFacts(s.buckets, n, s.buckets.Get(n).(deleting := true)); }
  }
}
