/** Whether the data of a bucket in use is safe. Data belongs to a storage, and more than one
    claim can stand for the same storage. */
module BucketData {
  import opened Options
  import opened ApiServer
  import opened Buckets

  /** A version that entitles the claim controller to delete the data. */
  ghost predicate Entitles(b: Bucket) { b.state == Deleting && b.deleting && b.everRunning }

  ghost predicate WasEntitled(s: State, x: string) {
    exists v :: v in s.buckets.log && s.buckets.log[v].content.s3 == x && Entitles(s.buckets.log[v].content)
  }

  /** A job was requested on the storage, or whoever still reads an old version may request one. */
  ghost predicate Doomed(s: State, x: string) {
    x in s.wiped || WasEntitled(s, x)
  }

  /** Some log set holds bucket n on the storage. */
  ghost predicate Holds(s: State, n: string, x: string) {
    Bound(s, n) && s.buckets.Get(n).s3 == x
  }

  ghost predicate NoJobOnHeld(s: State) {
    forall n, x :: Holds(s, n, x) ==> x !in s.wiped
  }

  ghost predicate DataIsSafe(s: State) {
    forall n, x :: Holds(s, n, x) ==> !Doomed(s, x)
  }

  // ---------- one step ----------

  /** What a step writes, if the server takes it and keeps the object. */
  ghost function Puts(s: State, step: Step): Option<Write<Bucket>>
    requires s.buckets.Valid() && Enabled(s, step)
  {
    match step
    case CreateBucket(n, l, s3) => if n in s.buckets.live then None else Some(Write(n, NewBucket(l, s3)))
    case DeleteBucket(n) =>
      if n !in s.buckets.live || s.buckets.Get(n).finalizers == [] then None
      else Some(Write(n, s.buckets.Get(n).(deleting := true)))
    case Act(v, action) =>
      var read := s.buckets.log[v];
      var to := Written(read.content, action);
      if to.None? || !Commits(s.buckets, v, to.value) || (read.content.deleting && to.value.finalizers == []) then None
      else Some(Write(read.name, to.value))
  }

  /** The step takes a doomed storage, or dooms the storage of another bucket that is held. */
  ghost predicate Endangers(s: State, step: Step) {
    && s.buckets.Valid() && Enabled(s, step) && Puts(s, step).Some?
    && var w := Puts(s, step).value;
       || ((step.CreateBucket? || (step.Act? && step.action.SyncBucket?)) && Doomed(s, w.content.s3))
       || (Entitles(w.content) && exists m :: m != w.name && Holds(s, m, w.content.s3))
  }

  lemma ApplyPuts(s: State, step: Step)
    requires s.buckets.Valid() && Enabled(s, step)
    ensures var t := Apply(s, step).buckets;
            if Puts(s, step).Some? then t == s.buckets.Put(Puts(s, step).value.name, Puts(s, step).value.content)
            else t.log == s.buckets.log && forall n :: n in t.live ==> n in s.buckets.live && t.live[n] == s.buckets.live[n]
  {
  }

  /** A write keeps the storage and the binding, unless it creates or syncs the bucket. */
  lemma PutsKeeps(s: State, step: Step)
    requires Inv(s) && Enabled(s, step) && Puts(s, step).Some?
    ensures var w := Puts(s, step).value;
            if step.CreateBucket? || (step.Act? && step.action.SyncBucket?) then w.content.bindTo != "" && !Entitles(w.content)
            else
              && w.name in s.buckets.live && w.content.s3 == s.buckets.Get(w.name).s3
              && (w.content.bindTo != "" ==> w.content.bindTo == s.buckets.Get(w.name).bindTo)
  {
  }

  lemma EntitlingIsFree(s: State, step: Step)
    requires Inv(s) && Enabled(s, step) && Puts(s, step).Some? && Entitles(Puts(s, step).value.content)
    ensures Puts(s, step).value.content.bindTo == ""
  {
    ApplyPuts(s, step);
    StepKeepsInv(s, step);
    var w := Puts(s, step).value;
    PutFacts(s.buckets, w.name, w.content);
    hide Apply, Puts;
    assert Sound(Apply(s, step).buckets.Get(w.name));
  }

  /** Buckets a step leaves held, and those it makes held. */
  lemma HeldAfter(s: State, step: Step, n: string, x: string)
    requires Inv(s) && Enabled(s, step)
    ensures var p := Puts(s, step);
            Holds(Apply(s, step), n, x) <==>
              if p.Some? && p.value.name == n then p.value.content.bindTo != "" && p.value.content.s3 == x else Holds(s, n, x)
  {
    var t := Apply(s, step);
    StepKeepsInv(s, step);
    ApplyPuts(s, step);
    if n in s.buckets.live { StepEdge(s, step, n); }
    var p := Puts(s, step);
    hide Apply, Puts, Sound;
    if p.Some? { PutFacts(s.buckets, p.value.name, p.value.content); }
  }

  /** Storages a step leaves doomed, and the one it dooms. */
  lemma DoomedAfter(s: State, step: Step, x: string)
    requires Inv(s) && Enabled(s, step)
    ensures var p := Puts(s, step);
            Doomed(Apply(s, step), x) <==> Doomed(s, x) || (p.Some? && Entitles(p.value.content) && p.value.content.s3 == x)
  {
    var t, p := Apply(s, step), Puts(s, step);
    ApplyPuts(s, step);
    WipedAfter(s, step, x);
    hide Apply, Puts, Entitles;
    if p.Some? {
      assert t.buckets.log[t.buckets.version] == p.value && t.buckets.version !in s.buckets.log;
      if WasEntitled(s, x) {
        var v :| v in s.buckets.log && s.buckets.log[v].content.s3 == x && Entitles(s.buckets.log[v].content);
        assert v in t.buckets.log && t.buckets.log[v] == s.buckets.log[v];
      }
    }
  }

  lemma WipedAfter(s: State, step: Step, x: string)
    requires Inv(s) && Enabled(s, step)
    ensures x in s.wiped ==> x in Apply(s, step).wiped
    ensures x in Apply(s, step).wiped ==> Doomed(s, x)
  {
  }

  ghost predicate CanRequest(s: State, v: nat) {
    Enabled(s, Act(v, FinalizeClaim(NotFound)))
  }

  /** What safety means: no log set holds a storage with a data job, and no pass of the claim
      controllers, however old the version they read, can change that. */
  lemma SafeExactly(s: State)
    requires Inv(s)
    ensures DataIsSafe(s) <==>
            NoJobOnHeld(s) && forall v :: CanRequest(s, v) ==> NoJobOnHeld(Apply(s, Act(v, FinalizeClaim(NotFound))))
  {
    forall v, n, x | DataIsSafe(s) && CanRequest(s, v) && Holds(Apply(s, Act(v, FinalizeClaim(NotFound))), n, x)
      ensures x !in Apply(s, Act(v, FinalizeClaim(NotFound))).wiped
    {
      var step := Act(v, FinalizeClaim(NotFound));
      HeldAfter(s, step, n, x);
      WipedAfter(s, step, x);
      if Puts(s, step).Some? { PutsKeeps(s, step); }
      assert Holds(s, n, x);
    }
    forall n, x | Holds(s, n, x) && x !in s.wiped && Doomed(s, x)
      ensures exists v :: CanRequest(s, v) && !NoJobOnHeld(Apply(s, Act(v, FinalizeClaim(NotFound))))
    {
      var v :| v in s.buckets.log && s.buckets.log[v].content.s3 == x && Entitles(s.buckets.log[v].content);
      RequestHits(s, v, n, x);
    }
  }

  lemma RequestHits(s: State, v: nat, n: string, x: string)
    requires Inv(s) && Holds(s, n, x) && v in s.buckets.log && s.buckets.log[v].content.s3 == x && Entitles(s.buckets.log[v].content)
    ensures CanRequest(s, v)
    ensures !NoJobOnHeld(Apply(s, Act(v, FinalizeClaim(NotFound))))
  {
    var t := Apply(s, Act(v, FinalizeClaim(NotFound)));
    assert t.buckets == s.buckets && x in t.wiped;
    assert Holds(t, n, x);
  }

  /** From a safe state a step leads to a safe one if and only if it does not endanger data. */
  lemma StepKeepsSafeExactly(s: State, step: Step)
    requires Inv(s) && Enabled(s, step) && DataIsSafe(s)
    ensures DataIsSafe(Apply(s, step)) <==> !Endangers(s, step)
  {
    var t, p := Apply(s, step), Puts(s, step);
    if p.Some? {
      PutsKeeps(s, step);
      if Entitles(p.value.content) { EntitlingIsFree(s, step); }
    }
    forall n, x
      ensures Holds(t, n, x) <==>
              if p.Some? && p.value.name == n then p.value.content.bindTo != "" && p.value.content.s3 == x else Holds(s, n, x)
      ensures Doomed(t, x) <==> Doomed(s, x) || (p.Some? && Entitles(p.value.content) && p.value.content.s3 == x)
    {
      HeldAfter(s, step, n, x);
      DoomedAfter(s, step, x);
    }
    hide Apply, Puts, Entitles, Doomed, Sound;
    var taking := step.CreateBucket? || (step.Act? && step.action.SyncBucket?);
    if p.Some? {
      var w := p.value;
      assert w.content.bindTo != "" ==> Holds(t, w.name, w.content.s3);
      assert w.content.bindTo != "" && !taking ==> Holds(s, w.name, w.content.s3);
    }
    if !Endangers(s, step) {
      forall n, x | Holds(t, n, x)
        ensures !Doomed(t, x)
      {
        assert p.None? || p.value.name != n ==> Holds(s, n, x);
      }
    }
  }

  // ---------- whole runs ----------

  /** Over every run: no log set ever holds a storage whose data is or may be deleted, if and
      only if no step of the run takes a doomed storage or dooms one that is held. */
  lemma DataIsSafeExactly(states: seq<State>, steps: seq<Step>)
    requires IsRun(states, steps)
    ensures (forall i :: 0 <= i < |states| ==> DataIsSafe(states[i]))
            <==> (forall k :: 0 <= k < |steps| ==> !Endangers(states[k], steps[k]))
  {
    if forall k :: 0 <= k < |steps| ==> !Endangers(states[k], steps[k]) {
      forall i | 0 <= i < |states|
        ensures DataIsSafe(states[i])
      {
        SafeUpTo(states, steps, i);
      }
    }
    if forall i :: 0 <= i < |states| ==> DataIsSafe(states[i]) {
      forall k | 0 <= k < |steps|
        ensures !Endangers(states[k], steps[k])
      {
        RunKeepsInv(states, steps, k);
        assert StepAt(states, steps, k);
        assert DataIsSafe(states[k]) && DataIsSafe(states[k + 1]);
        StepKeepsSafeExactly(states[k], steps[k]);
      }
    }
  }

  lemma {:induction false} SafeUpTo(states: seq<State>, steps: seq<Step>, i: nat)
    requires IsRun(states, steps) && i < |states|
    requires forall k :: 0 <= k < i ==> !Endangers(states[k], steps[k])
    ensures DataIsSafe(states[i])
  {
    if i > 0 {
      SafeUpTo(states, steps, i - 1);
      RunKeepsInv(states, steps, i - 1);
      assert StepAt(states, steps, i - 1);
      StepKeepsSafeExactly(states[i - 1], steps[i - 1]);
    }
  }

  // ---------- what a log set could look at ----------

  /** The name is new and so is the storage; or the version the log set read has no deletion
      timestamp and stands for the log set's own storage. */
  ghost predicate Careful(s: State, step: Step) {
    match step
    case CreateBucket(n, _, x) => forall v :: v in s.buckets.log ==> s.buckets.log[v].name != n && s.buckets.log[v].content.s3 != x
    case DeleteBucket(_) => true
    case Act(v, action) =>
      action.SyncBucket? && s.buckets.Current(v) ==> !s.buckets.log[v].content.deleting && s.buckets.log[v].content.s3 == action.s3
  }

  /** Every storage has had one claim only. */
  ghost predicate OneClaimEach(s: State) {
    forall v, w :: v in s.buckets.log && w in s.buckets.log && s.buckets.log[v].content.s3 == s.buckets.log[w].content.s3 ==>
      s.buckets.log[v].name == s.buckets.log[w].name
  }

  /** What was ever under deletion still is. */
  ghost predicate DeletionIsFinal(s: State)
    requires s.buckets.Valid()
  {
    forall v :: v in s.buckets.log && s.buckets.log[v].content.deleting ==> StaysDeleted(s, s.buckets.log[v].name)
  }

  /** And jobs are on storages of claims that were. */
  ghost predicate Orderly(s: State)
    requires s.buckets.Valid()
  {
    OneClaimEach(s) && DeletionIsFinal(s) && forall x :: x in s.wiped ==> WasDeleted(s, x)
  }

  ghost predicate StaysDeleted(s: State, n: string)
    requires s.buckets.Valid()
  {
    n in s.buckets.live ==> s.buckets.Get(n).deleting
  }

  ghost predicate WasDeleted(s: State, x: string) {
    exists v :: v in s.buckets.log && s.buckets.log[v].content.s3 == x && s.buckets.log[v].content.deleting
  }

  lemma DoomedWasDeleted(s: State, x: string)
    requires s.buckets.Valid() && Orderly(s) && Doomed(s, x)
    ensures WasDeleted(s, x)
  {
  }

  /** A careful write stays with a bucket of the same storage, or is of a new one; and a bucket
      under deletion stays so. */
  lemma CarefulPuts(s: State, step: Step)
    requires Inv(s) && Enabled(s, step) && Careful(s, step) && Puts(s, step).Some?
    ensures var w := Puts(s, step).value;
            if step.CreateBucket? then !w.content.deleting && forall v :: v in s.buckets.log ==> s.buckets.log[v].name != w.name && s.buckets.log[v].content.s3 != w.content.s3
            else
              && w.name in s.buckets.live && w.content.s3 == s.buckets.Get(w.name).s3
              && (s.buckets.Get(w.name).deleting ==> w.content.deleting && !(step.Act? && step.action.SyncBucket?))
  {
  }

  lemma CarefulStepKeepsOrderly(s: State, step: Step)
    requires Inv(s) && Orderly(s) && Enabled(s, step) && Careful(s, step)
    ensures Apply(s, step).buckets.Valid() && Orderly(Apply(s, step))
  {
    var t, p := Apply(s, step), Puts(s, step);
    StepKeepsInv(s, step);
    ApplyPuts(s, step);
    forall x | x in t.wiped
      ensures WasDeleted(s, x)
    {
      WipedAfter(s, step, x);
    }
    if p.Some? { CarefulPuts(s, step); }
    hide Apply, Puts, Careful, Enabled, Sound;
    if p.Some? { OrderlyAfterPut(s, t, p.value); }
  }

  lemma OrderlyAfterPut(s: State, t: State, w: Write<Bucket>)
    requires s.buckets.Valid() && Orderly(s) && t.buckets == s.buckets.Put(w.name, w.content)
    requires forall x :: x in t.wiped ==> WasDeleted(s, x)
    requires if w.name in s.buckets.live then w.content.s3 == s.buckets.Get(w.name).s3 && (s.buckets.Get(w.name).deleting ==> w.content.deleting)
             else forall v :: v in s.buckets.log ==> s.buckets.log[v].name != w.name && s.buckets.log[v].content.s3 != w.content.s3
    ensures t.buckets.Valid() && Orderly(t)
  {
    PutFacts(s.buckets, w.name, w.content);
    PutKeepsOneClaim(s, t, w);
    PutKeepsDeletion(s, t, w);
    hide OneClaimEach, DeletionIsFinal;
    forall x | x in t.wiped
      ensures WasDeleted(t, x)
    {
      var v :| v in s.buckets.log && s.buckets.log[v].content.s3 == x && s.buckets.log[v].content.deleting;
      assert v in t.buckets.log && t.buckets.log[v] == s.buckets.log[v];
    }
  }

  lemma PutKeepsOneClaim(s: State, t: State, w: Write<Bucket>)
    requires s.buckets.Valid() && OneClaimEach(s) && t.buckets == s.buckets.Put(w.name, w.content)
    requires if w.name in s.buckets.live then w.content.s3 == s.buckets.Get(w.name).s3
             else forall v :: v in s.buckets.log ==> s.buckets.log[v].content.s3 != w.content.s3
    ensures OneClaimEach(t)
  {
    var last := t.buckets.version;
    forall v | v in s.buckets.log && s.buckets.log[v].content.s3 == w.content.s3
      ensures s.buckets.log[v].name == w.name
    {
      assert s.buckets.live[w.name] in s.buckets.log;
    }
    forall u, v | u in t.buckets.log && v in t.buckets.log && t.buckets.log[u].content.s3 == t.buckets.log[v].content.s3
      ensures t.buckets.log[u].name == t.buckets.log[v].name
    {
      assert u != last ==> t.buckets.log[u] == s.buckets.log[u];
      assert v != last ==> t.buckets.log[v] == s.buckets.log[v];
    }
  }

  lemma PutKeepsDeletion(s: State, t: State, w: Write<Bucket>)
    requires s.buckets.Valid() && DeletionIsFinal(s) && t.buckets == s.buckets.Put(w.name, w.content)
    requires if w.name in s.buckets.live then s.buckets.Get(w.name).deleting ==> w.content.deleting
             else forall v :: v in s.buckets.log ==> s.buckets.log[v].name != w.name
    ensures t.buckets.Valid() && DeletionIsFinal(t)
  {
    PutFacts(s.buckets, w.name, w.content);
    forall v | v in t.buckets.log && t.buckets.log[v].content.deleting
      ensures StaysDeleted(t, t.buckets.log[v].name)
    {
      if v != t.buckets.version { assert t.buckets.log[v] == s.buckets.log[v] && StaysDeleted(s, s.buckets.log[v].name); }
    }
  }

  lemma CarefulIsHarmless(s: State, step: Step)
    requires Inv(s) && Orderly(s) && Enabled(s, step) && Careful(s, step)
    ensures !Endangers(s, step)
  {
    var p := Puts(s, step);
    if p.Some? {
      var w := p.value;
      CarefulPuts(s, step);
      hide Apply, Puts, Careful, Enabled, Sound, Entitles;
      if Doomed(s, w.content.s3) { DoomedWasDeleted(s, w.content.s3); }
      if w.name in s.buckets.live { assert s.buckets.log[s.buckets.live[w.name]].content.s3 == w.content.s3 || step.CreateBucket?; }
      forall m | m != w.name
        ensures !Holds(s, m, w.content.s3)
      {
        if m in s.buckets.live { assert s.buckets.live[m] in s.buckets.log && s.buckets.log[s.buckets.live[m]].name == m; }
      }
    }
  }

  lemma {:induction false} CarefulRun(states: seq<State>, steps: seq<Step>, i: nat)
    requires IsRun(states, steps) && i < |states|
    requires forall k :: 0 <= k < i ==> Careful(states[k], steps[k])
    ensures Inv(states[i]) && Orderly(states[i])
  {
    RunKeepsInv(states, steps, i);
    if i > 0 {
      CarefulRun(states, steps, i - 1);
      assert StepAt(states, steps, i - 1);
      CarefulStepKeepsOrderly(states[i - 1], steps[i - 1]);
    }
  }

  /** Log sets that find no other claim, old or new, of their storage and take no claim under
      deletion never hold a storage whose data is or may be deleted. */
  lemma CarefulLogSetsKeepTheirData(states: seq<State>, steps: seq<Step>)
    requires IsRun(states, steps)
    requires forall k :: 0 <= k < |steps| ==> Careful(states[k], steps[k])
    ensures forall i :: 0 <= i < |states| ==> DataIsSafe(states[i])
  {
    forall k | 0 <= k < |steps|
      ensures !Endangers(states[k], steps[k])
    {
      CarefulRun(states, steps, k);
      assert StepAt(states, steps, k);
      CarefulIsHarmless(states[k], steps[k]);
    }
    DataIsSafeExactly(states, steps);
  }

  // ---------- what the code does ----------

  /** A claim under deletion whose data job is due. */
  ghost predicate JobIsDue(s: State, n: string) {
    && s.buckets.Valid() && n in s.buckets.live
    && Entitles(s.buckets.Get(n)) && DATA_FINALIZER in s.buckets.Get(n).finalizers
  }

  ghost predicate Leads(s: State, step: Step, t: State) {
    s.buckets.Valid() && Enabled(s, step) && t == Apply(s, step)
  }

  /** The code takes doomed storages: any log set can come to hold a bucket whose data is being
      deleted, after another log set gave it up and before the claim is gone. */
  lemma RetakenWhileDeleting(s: State, n: string, l: LogSetKey) returns (t: State, u: State)
    requires Inv(s) && JobIsDue(s, n)
    ensures var v, x := s.buckets.live[n], s.buckets.Get(n).s3;
            && Leads(s, Act(v, FinalizeClaim(NotFound)), t) && Leads(t, Act(v, SyncBucket(l, x)), u)
            && Endangers(t, Act(v, SyncBucket(l, x))) && HeldBy(u, n, l.Mark()) && Holds(u, n, x) && x in u.wiped
  {
    var v, x := s.buckets.live[n], s.buckets.Get(n).s3;
    t := Apply(s, Act(v, FinalizeClaim(NotFound)));
    assert x in t.wiped && t.buckets == s.buckets;
    var b := Written(s.buckets.Get(n), SyncBucket(l, x)).value;
    PutFacts(s.buckets, n, b);
    u := Apply(t, Act(v, SyncBucket(l, x)));
  }

  /** Bucket n of log set l, that has run, can be given up. */
  ghost predicate ReadyToGo(s: State, n: string, l: LogSetKey) {
    && HeldBy(s, n, l.Mark()) && l.Mark() != ""
    && s.buckets.Get(n).everRunning && !s.buckets.Get(n).deleting && !Occupied(s.buckets.Get(n))
  }

  /** The code dooms held storages: a log set with policy Delete gives up its claim while
      another log set holds a second claim of the same storage. */
  lemma SecondClaimLosesItsData(s: State, n: string, l: LogSetKey, m: string) returns (t: State, u: State, w: State)
    requires Inv(s) && ReadyToGo(s, n, l) && m != n && Holds(s, m, s.buckets.Get(n).s3)
    ensures var v, x := s.buckets.live[n], s.buckets.Get(n).s3;
            && Leads(s, Act(v, FinalizeBucket(l, Delete)), t) && Leads(t, DeleteBucket(n), u)
            && Endangers(t, DeleteBucket(n)) && n in u.buckets.live
            && Leads(u, Act(u.buckets.live[n], FinalizeClaim(NotFound)), w)
            && Holds(w, m, x) && x in w.wiped
  {
    var v, x := s.buckets.live[n], s.buckets.Get(n).s3;
    t := GiveUp(s, n, l, m);
    u := Condemn(t, n, m);
    w := Apply(u, Act(u.buckets.live[n], FinalizeClaim(NotFound)));
    assert w.buckets == u.buckets;
  }

  lemma GiveUp(s: State, n: string, l: LogSetKey, m: string) returns (t: State)
    requires Inv(s) && ReadyToGo(s, n, l) && m != n && Holds(s, m, s.buckets.Get(n).s3)
    ensures Leads(s, Act(s.buckets.live[n], FinalizeBucket(l, Delete)), t) && Inv(t)
    ensures n in t.buckets.live && t.buckets.Get(n) == s.buckets.Get(n).(state := Deleting, bindTo := "")
    ensures Holds(t, m, s.buckets.Get(n).s3) && DATA_FINALIZER in t.buckets.Get(n).finalizers
  {
    var step := Act(s.buckets.live[n], FinalizeBucket(l, Delete));
    t := Apply(s, step);
    StepKeepsInv(s, step);
    PutFacts(s.buckets, n, s.buckets.Get(n).(state := Deleting, bindTo := ""));
  }

  lemma Condemn(t: State, n: string, m: string) returns (u: State)
    requires Inv(t) && n in t.buckets.live && m != n && Holds(t, m, t.buckets.Get(n).s3)
    requires t.buckets.Get(n).state == Deleting && t.buckets.Get(n).everRunning && DATA_FINALIZER in t.buckets.Get(n).finalizers
    ensures Leads(t, DeleteBucket(n), u) && Inv(u) && Endangers(t, DeleteBucket(n))
    ensures JobIsDue(u, n) && u.buckets.Get(n).s3 == t.buckets.Get(n).s3 && Holds(u, m, t.buckets.Get(n).s3)
  {
    u := Apply(t, DeleteBucket(n));
    StepKeepsInv(t, DeleteBucket(n));
    PutFacts(t.buckets, n, t.buckets.Get(n).(deleting := true));
  }

  /** A run that reaches both: the claims of two log sets on one storage, the first of which
      has run, and from there the second log set's data on the way out. */
  lemma TwoClaimsOfOneStorage() returns (states: seq<State>, steps: seq<Step>)
    ensures IsRun(states, steps) && |steps| == 6
    ensures ReadyToGo(states[3], "b", LogSetKey("ns", "first")) && Holds(states[3], "c", "s3")
    ensures JobIsDue(states[5], "b") && states[5].buckets.Get("b").s3 == "s3"
    ensures "s3" in states[6].wiped && Holds(states[6], "c", "s3")
  {
    hide Apply, Enabled, Holds, ReadyToGo, JobIsDue, Leads, Endangers;
    var first, second := LogSetKey("ns", "first"), LogSetKey("ns", "second");
    var s1, s2, s3 := TwoClaims(first, second);
    assert HeldBy(s3, "b", first.Mark()) by { Unfold(s3, "b", first); }
    var s4, s5, s6 := SecondClaimLosesItsData(s3, "b", first, "c");
    RunEnds(s3, s4, s5, first);
    steps := [CreateBucket("b", first, "s3"), Act(1, SetEverRunning), CreateBucket("c", second, "s3"),
      Act(2, FinalizeBucket(first, Delete)), DeleteBucket("b"), Act(5, FinalizeClaim(NotFound))];
    states := [INIT, s1, s2, s3, s4, s5, s6];
    SixSteps(states, steps);
  }

  lemma Unfold(s: State, n: string, l: LogSetKey)
    requires ReadyToGo(s, n, l)
    ensures HeldBy(s, n, l.Mark())
  {
  }

  lemma SixSteps(states: seq<State>, steps: seq<Step>)
    requires |steps| == 6 && |states| == 7 && states[0] == INIT
    requires Leads(states[0], steps[0], states[1]) && Leads(states[1], steps[1], states[2]) && Leads(states[2], steps[2], states[3])
    requires Leads(states[3], steps[3], states[4]) && Leads(states[4], steps[4], states[5]) && Leads(states[5], steps[5], states[6])
    ensures IsRun(states, steps)
  {
    hide Apply, Enabled;
    assert StepAt(states, steps, 0) && StepAt(states, steps, 1) && StepAt(states, steps, 2);
    assert StepAt(states, steps, 3) && StepAt(states, steps, 4) && StepAt(states, steps, 5);
  }

  lemma TwoClaims(first: LogSetKey, second: LogSetKey) returns (s1: State, s2: State, s3: State)
    ensures Leads(INIT, CreateBucket("b", first, "s3"), s1) && Leads(s1, Act(1, SetEverRunning), s2)
    ensures Leads(s2, CreateBucket("c", second, "s3"), s3) && Inv(s3)
    ensures ReadyToGo(s3, "b", first) && Holds(s3, "c", "s3") && s3.buckets.Get("b").s3 == "s3"
    ensures s3.buckets.live["b"] == 2 && s3.buckets.version == 3
  {
    s1 := Apply(INIT, CreateBucket("b", first, "s3"));
    PutFacts(INIT.buckets, "b", NewBucket(first, "s3"));
    s2 := Apply(s1, Act(1, SetEverRunning));
    PutFacts(s1.buckets, "b", NewBucket(first, "s3").(everRunning := true));
    s3 := Apply(s2, CreateBucket("c", second, "s3"));
    PutFacts(s2.buckets, "c", NewBucket(second, "s3"));
    DataIsNoUser();
    StepKeepsInv(INIT, CreateBucket("b", first, "s3"));
    StepKeepsInv(s1, Act(1, SetEverRunning));
    StepKeepsInv(s2, CreateBucket("c", second, "s3"));
  }

  lemma RunEnds(s: State, t: State, u: State, l: LogSetKey)
    requires Inv(s) && ReadyToGo(s, "b", l) && s.buckets.live["b"] == 2 && s.buckets.version == 3
    requires Leads(s, Act(2, FinalizeBucket(l, Delete)), t) && Leads(t, DeleteBucket("b"), u) && "b" in u.buckets.live
    ensures u.buckets.live["b"] == 5 && JobIsDue(u, "b") && u.buckets.Get("b").s3 == s.buckets.Get("b").s3
  {
    PutFacts(s.buckets, "b", s.buckets.Get("b").(state := Deleting, bindTo := ""));
    PutFacts(t.buckets, "b", t.buckets.Get("b").(deleting := true));
  }
}
