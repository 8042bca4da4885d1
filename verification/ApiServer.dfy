/** The Kubernetes API server as the controllers see it: every write of an object gets the
    next resource version of the whole server, reads may return any version that was ever
    written, and `Update` is accepted only against the latest version of the object. */
module ApiServer {

  datatype Write<T> = Write(name: string, content: T)

  /** `log[v]` is the write that produced version `v`; `live[n]` is the version at which the
      existing object `n` was last written. Deleting an object keeps its old versions. */
  datatype Store<T> = Store(version: nat, live: map<string, nat>, log: map<nat, Write<T>>) {

    predicate Valid() {
      && (forall v :: v in log ==> v <= version)
      && (forall n :: n in live ==> live[n] in log && log[live[n]].name == n)
    }

    function Get(name: string): T
      requires Valid() && name in live
    {
      log[live[name]].content
    }

    /** A name is used once an object of that name was ever written. */
    predicate Used(name: string) {
      exists v :: v in log && log[v].name == name
    }

    /** An unconditional write: creation, or a patch of the current object. */
    function Put(name: string, content: T): Store<T> {
      Store(version + 1, live[name := version + 1], log[version + 1 := Write(name, content)])
    }

    function Remove(name: string): Store<T> {
      this.(live := live - {name})
    }

    /** Optimistic concurrency control: the version the writer read must still be current. */
    predicate Current(snapshot: nat) {
      snapshot in log && log[snapshot].name in live && live[log[snapshot].name] == snapshot
    }

    function Update(snapshot: nat, content: T): Store<T>
      requires snapshot in log
    {
      if Current(snapshot) then Put(log[snapshot].name, content) else this
    }
  }

  function EmptyStore<T>(): Store<T> {
    Store(0, map[], map[])
  }

  lemma PutFacts<T>(s: Store<T>, name: string, content: T)
    requires s.Valid()
    ensures s.Put(name, content).Valid()
    ensures s.Put(name, content).Get(name) == content
    ensures forall n :: n in s.live && n != name ==> n in s.Put(name, content).live && s.Put(name, content).Get(n) == s.Get(n)
    ensures forall n :: s.Put(name, content).Used(n) <==> n == name || s.Used(n)
  {
    var t := s.Put(name, content);
    forall n | n == name || s.Used(n)
      ensures t.Used(n)
    {
      if n == name {
        assert t.version in t.log;
      } else {
        var v :| v in s.log && s.log[v].name == n;
        assert v in t.log && t.log[v].name == n;
      }
    }
  }

  /** An accepted update was computed from the object it overwrites, however stale the
      reader's cache was; a refused one changes nothing. */
  lemma UpdateFacts<T>(s: Store<T>, snapshot: nat, content: T)
    requires s.Valid() && snapshot in s.log
    ensures var name := s.log[snapshot].name;
            if s.Current(snapshot) then
              s.Get(name) == s.log[snapshot].content && s.Update(snapshot, content) == s.Put(name, content)
            else
              s.Update(snapshot, content) == s
  {
  }

  lemma RemoveFacts<T>(s: Store<T>, name: string)
    requires s.Valid()
    ensures s.Remove(name).Valid()
    ensures forall n :: n in s.Remove(name).live <==> n in s.live && n != name
    ensures forall n :: n in s.live && n != name ==> s.Remove(name).Get(n) == s.Get(n)
    ensures forall n :: s.Remove(name).Used(n) <==> s.Used(n)
  {
    var t := s.Remove(name);
    assert t.log == s.log;
    forall n | s.Used(n)
      ensures t.Used(n)
    {
      var v :| v in s.log && s.log[v].name == n;
      assert v in t.log;
    }
  }

  lemma LiveIsUsed<T>(s: Store<T>, name: string)
    requires s.Valid() && name in s.live
    ensures s.Used(name)
  {
  }
}
