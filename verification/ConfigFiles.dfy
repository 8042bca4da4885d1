/** The config map of a pod set: every rendered config is a file named by its digest, and a
    sync keeps the older files that pods still read. */
module ConfigFiles {
  import opened Options
  import opened Hexadecimal

  type Data = map<string, string>

  const CONFIG_FILE := "config.toml"
  const ENTRYPOINT := "start.sh"

  predicate OccursAt(s: string, sub: string, i: nat) {
    i + |sub| <= |s| && s[i..i + |sub|] == sub
  }

  predicate Contains(s: string, sub: string) {
    exists i :: 0 <= i <= |s| && OccursAt(s, sub, i)
  }

  predicate IsDigest(d: string) { |d| == 7 && forall i :: 0 <= i < |d| ==> HexDigit(d[i]) }

  function FileKey(d: string): string { CONFIG_FILE + "-" + d }

  ghost predicate Digests(digest: string -> string) {
    forall v :: IsDigest(digest(v))
  }

  /** The only digest inside a file name is the one the file is named by: every other window
      of seven characters covers the dot or the dash. */
  lemma FileKeyContains(d: string, e: string)
    requires IsDigest(d) && IsDigest(e)
    ensures Contains(FileKey(d), e) <==> d == e
  {
    var key := FileKey(d);
    assert key[6] == '.' && key[11] == '-' && key[12..] == d && |key| == 19;
    forall i | 0 <= i <= |key| && OccursAt(key, e, i)
      ensures i == 12
    {
      hide FileKey;
      assert forall k :: i <= k < i + 7 ==> key[k] == key[i..i + 7][k - i] == e[k - i];
      assert !(i <= 6 < i + 7) && !(i <= 11 < i + 7);
    }
    if d == e { assert OccursAt(key, e, 12); }
  }

  lemma EntrypointHasNoDigest(e: string)
    requires IsDigest(e)
    ensures !Contains(ENTRYPOINT, e)
  {
    forall i | 0 <= i <= |ENTRYPOINT|
      ensures !OccursAt(ENTRYPOINT, e, i)
    {
      if i <= 1 { assert ENTRYPOINT[i..i + |e|][1 - i] == 't'; }
    }
  }

  // ---------- one sync ----------

  /** Some listed pod carries the suffix of this file; pods without the annotation show "". */
  ghost predicate InUse(key: string, suffixes: seq<string>) {
    exists s :: s in suffixes && s != "" && Contains(key, s)
  }

  ghost predicate Kept(key: string, v: string, suffixes: seq<string>, digest: string -> string) {
    Contains(key, digest(v)) && InUse(key, suffixes)
  }

  method ConfigInUse(key: string, suffixes: seq<string>) returns (used: bool)
    ensures used <==> InUse(key, suffixes)
  {
    hide Contains;
    for i := 0 to |suffixes|
      invariant forall s :: s in suffixes[..i] ==> s == "" || !Contains(key, s)
    {
      var s := suffixes[i];
      if |s| > 0 && Contains(key, s) {
        assert s in suffixes;
        return true;
      }
      assert suffixes[..i + 1] == suffixes[..i] + [s];
    }
    assert suffixes[..|suffixes|] == suffixes;
    return false;
  }

  /** The stored files after a sync: the wanted ones, overwritten and joined by the kept ones. */
  ghost function Ensured(existing: Option<Data>, desired: Data, suffixes: seq<string>, digest: string -> string): Data {
    if existing.None? then desired
    else desired + map key | key in existing.value && Kept(key, existing.value[key], suffixes, digest) :: existing.value[key]
  }

  method EnsureConfigMap(existing: Option<Data>, desired: Data, suffixes: seq<string>, digest: string -> string) returns (data: Data)
    ensures data == Ensured(existing, desired, suffixes, digest)
  {
    data := desired;
    if existing.None? {
      return;
    }
    hide Kept, Contains, InUse, Ensured;
    var todo := existing.value.Keys;
    NoneLooked(existing.value, desired, suffixes, digest);
    while todo != {}
      invariant todo <= existing.value.Keys
      invariant data == Ensured(Some(existing.value - todo), desired, suffixes, digest)
      decreases todo
    {
      var key :| key in todo;
      var v := existing.value[key];
      LookAt(existing.value, todo, desired, suffixes, digest, key);
      var used := ConfigInUse(key, suffixes);
      if Contains(key, digest(v)) && used {
        data := data[key := v];
      }
      todo := todo - {key};
    }
    assert existing.value - todo == existing.value;
  }

  lemma NoneLooked(existing: Data, desired: Data, suffixes: seq<string>, digest: string -> string)
    ensures Ensured(Some(existing - existing.Keys), desired, suffixes, digest) == desired
  {
  }

  /** One more old file looked at. */
  lemma LookAt(existing: Data, todo: set<string>, desired: Data, suffixes: seq<string>, digest: string -> string, key: string)
    requires key in existing && key in todo
    ensures var data := Ensured(Some(existing - todo), desired, suffixes, digest);
            var keep := Contains(key, digest(existing[key])) && InUse(key, suffixes);
            Ensured(Some(existing - (todo - {key})), desired, suffixes, digest) == if keep then data[key := existing[key]] else data
  {
    var keep := Contains(key, digest(existing[key])) && InUse(key, suffixes);
    assert keep <==> Kept(key, existing[key], suffixes, digest);
    hide Kept, Contains, InUse, Ensured;
    var rest := todo - {key};
    var data := Ensured(Some(existing - todo), desired, suffixes, digest);
    var next := if keep then data[key := existing[key]] else data;
    var more := Ensured(Some(existing - rest), desired, suffixes, digest);
    forall k
      ensures (k in more <==> k in next) && (k in more ==> more[k] == next[k])
    {
      EnsuredAt(existing - todo, desired, suffixes, digest, k);
      EnsuredAt(existing - rest, desired, suffixes, digest, k);
      if k != key { assert k in existing - todo <==> k in existing - rest; }
    }
    SameFiles(more, next);
  }

  lemma SameFiles(a: Data, b: Data)
    requires forall k :: k in a <==> k in b
    requires forall k :: k in a ==> a[k] == b[k]
    ensures a == b
  {
  }

  lemma EnsuredAt(existing: Data, desired: Data, suffixes: seq<string>, digest: string -> string, k: string)
    ensures var data := Ensured(Some(existing), desired, suffixes, digest);
            if k in existing && Kept(k, existing[k], suffixes, digest) then k in data && data[k] == existing[k]
            else if k in desired then k in data && data[k] == desired[k]
            else k !in data
  {
    hide Kept;
  }

  // ---------- any sequence of syncs ----------

  /** A sync renders a config and a start script and sees the suffixes of the listed pods. */
  datatype Sync = Sync(config: string, script: string, suffixes: seq<string>)

  function Wanted(y: Sync, digest: string -> string): Data {
    map[ENTRYPOINT := y.script, FileKey(digest(y.config)) := y.config]
  }

  /** The stored files after the first n syncs, starting without a config map. */
  ghost function After(syncs: seq<Sync>, n: nat, digest: string -> string): Option<Data>
    requires n <= |syncs|
  {
    if n == 0 then None
    else Some(Ensured(After(syncs, n - 1, digest), Wanted(syncs[n - 1], digest), syncs[n - 1].suffixes, digest))
  }

  ghost predicate NoCollision(syncs: seq<Sync>, digest: string -> string) {
    forall i, j :: 0 <= i < |syncs| && 0 <= j < |syncs| && digest(syncs[i].config) == digest(syncs[j].config)
      ==> syncs[i].config == syncs[j].config
  }

  /** The config of sync i is still due after sync j: every sync since then saw a pod that
      reads its file. */
  ghost predicate Due(syncs: seq<Sync>, i: nat, j: nat, digest: string -> string)
    requires j < |syncs|
  {
    i <= j && forall k :: i < k <= j ==> InUse(FileKey(digest(syncs[i].config)), syncs[k].suffixes)
  }

  /** A stored file is the entry point or the config of an earlier sync under its own digest. */
  ghost predicate Named(syncs: seq<Sync>, n: nat, key: string, v: string, digest: string -> string)
    requires 0 < n <= |syncs|
  {
    (key == ENTRYPOINT && v == syncs[n - 1].script)
    || exists i :: 0 <= i < n && key == FileKey(digest(syncs[i].config)) && v == syncs[i].config && Due(syncs, i, n - 1, digest)
  }

  ghost predicate StillKept(syncs: seq<Sync>, n: nat, digest: string -> string, key: string)
    requires 0 < n <= |syncs|
  {
    n > 1 && key in After(syncs, n - 1, digest).value
    && Kept(key, After(syncs, n - 1, digest).value[key], syncs[n - 1].suffixes, digest)
  }

  lemma AfterAt(syncs: seq<Sync>, n: nat, digest: string -> string, key: string)
    requires 0 < n <= |syncs|
    ensures ENTRYPOINT != FileKey(digest(syncs[n - 1].config))
    ensures After(syncs, n, digest).Some?
    ensures var y, data := syncs[n - 1], After(syncs, n, digest).value;
            if StillKept(syncs, n, digest, key) then key in data && data[key] == After(syncs, n - 1, digest).value[key]
            else if key == ENTRYPOINT then key in data && data[key] == y.script
            else if key == FileKey(digest(y.config)) then key in data && data[key] == y.config
            else key !in data
  {
    hide Contains, InUse, Kept;
    assert |ENTRYPOINT| != |FileKey(digest(syncs[n - 1].config))|;
  }

  lemma StillNamed(syncs: seq<Sync>, n: nat, key: string, v: string, digest: string -> string)
    requires 1 < n <= |syncs| && key != ENTRYPOINT && Named(syncs, n - 1, key, v, digest) && InUse(key, syncs[n - 1].suffixes)
    ensures Named(syncs, n, key, v, digest)
  {
    hide InUse, FileKey;
    var i :| 0 <= i < n - 1 && key == FileKey(digest(syncs[i].config)) && v == syncs[i].config && Due(syncs, i, n - 2, digest);
    assert Due(syncs, i, n - 1, digest);
  }

  lemma NewestIsNamed(syncs: seq<Sync>, n: nat, digest: string -> string)
    requires 0 < n <= |syncs|
    ensures Named(syncs, n, ENTRYPOINT, syncs[n - 1].script, digest)
    ensures Named(syncs, n, FileKey(digest(syncs[n - 1].config)), syncs[n - 1].config, digest)
  {
    assert Due(syncs, n - 1, n - 1, digest);
  }

  lemma {:induction false} EveryFileIsNamed(syncs: seq<Sync>, n: nat, digest: string -> string, key: string)
    requires Digests(digest) && 0 < n <= |syncs| && key in After(syncs, n, digest).value
    ensures Named(syncs, n, key, After(syncs, n, digest).value[key], digest)
    decreases n
  {
    var v := After(syncs, n, digest).value[key];
    AfterAt(syncs, n, digest, key);
    EntrypointHasNoDigest(digest(v));
    hide Contains, InUse, After, FileKey, Digests, Named;
    NewestIsNamed(syncs, n, digest);
    if StillKept(syncs, n, digest, key) {
      EveryFileIsNamed(syncs, n - 1, digest, key);
      StillNamed(syncs, n, key, v, digest);
    }
  }

  /** As long as every sync sees a pod that reads it, the config of sync i is stored under the
      same name with the same content; with i = j, the newest config is always there. */
  lemma {:induction false} DueConfigIsStored(syncs: seq<Sync>, i: nat, j: nat, digest: string -> string)
    requires Digests(digest) && NoCollision(syncs, digest) && i <= j < |syncs| && Due(syncs, i, j, digest)
    ensures var data := After(syncs, j + 1, digest).value; var key := FileKey(digest(syncs[i].config));
            key in data && data[key] == syncs[i].config
    decreases j
  {
    var d := digest(syncs[i].config);
    var key := FileKey(d);
    assert key != ENTRYPOINT by { assert |key| > |ENTRYPOINT|; }
    FileKeyContains(d, d);
    hide Contains, InUse, FileKey, After, Digests, Named, NoCollision;
    AfterAt(syncs, j + 1, digest, key);
    if i < j {
      assert Due(syncs, i, j - 1, digest) && InUse(key, syncs[j].suffixes);
      hide Due;
      DueConfigIsStored(syncs, i, j - 1, digest);
      assert StillKept(syncs, j + 1, digest, key);
    } else if StillKept(syncs, j + 1, digest, key) {
      hide Due;
      EveryFileIsNamed(syncs, j, digest, key);
      NamedByDigest(syncs, j, i, After(syncs, j, digest).value[key], digest);
    }
  }

  lemma NamedByDigest(syncs: seq<Sync>, n: nat, i: nat, v: string, digest: string -> string)
    requires NoCollision(syncs, digest) && 0 < n <= |syncs| && i < |syncs|
    requires Named(syncs, n, FileKey(digest(syncs[i].config)), v, digest)
    ensures v == syncs[i].config
  {
    var key := FileKey(digest(syncs[i].config));
    assert |key| != |ENTRYPOINT|;
    hide Due, FileKey;
    var m :| 0 <= m < n && key == FileKey(digest(syncs[m].config)) && v == syncs[m].config;
    FileKeyIsInjective(digest(syncs[i].config), digest(syncs[m].config));
  }

  lemma FileKeyIsInjective(d: string, e: string)
    requires FileKey(d) == FileKey(e)
    ensures d == e
  {
    assert d == FileKey(d)[12..] && e == FileKey(e)[12..];
  }

  /** What is stored after any sequence of syncs, exactly: the newest start script, and the
      configs that are still due, each under the name of its digest. */
  lemma StoredExactly(syncs: seq<Sync>, n: nat, digest: string -> string, key: string, v: string)
    requires Digests(digest) && NoCollision(syncs, digest) && 0 < n <= |syncs|
    ensures key in After(syncs, n, digest).value && After(syncs, n, digest).value[key] == v <==> Named(syncs, n, key, v, digest)
  {
    AfterAt(syncs, n, digest, key);
    if key in After(syncs, n, digest).value { EveryFileIsNamed(syncs, n, digest, key); }
    if n > 1 && key in After(syncs, n - 1, digest).value { EntrypointHasNoDigest(digest(After(syncs, n - 1, digest).value[key])); }
    hide Contains, InUse, FileKey, After, Digests, Due;
    if Named(syncs, n, key, v, digest) && key != ENTRYPOINT {
      var i :| 0 <= i < n && key == FileKey(digest(syncs[i].config)) && v == syncs[i].config && Due(syncs, i, n - 1, digest);
      DueConfigIsStored(syncs, i, n - 1, digest);
    }
  }

  /** A pod whose suffix is the digest of its config reads that config for as long as every
      sync lists the pod. */
  lemma PodKeepsItsConfig(syncs: seq<Sync>, i: nat, j: nat, digest: string -> string)
    requires Digests(digest) && NoCollision(syncs, digest) && i <= j < |syncs|
    requires forall k :: i < k <= j ==> digest(syncs[i].config) in syncs[k].suffixes
    ensures var data := After(syncs, j + 1, digest).value; var key := FileKey(digest(syncs[i].config));
            key in data && data[key] == syncs[i].config
  {
    FileKeyContains(digest(syncs[i].config), digest(syncs[i].config));
    DueConfigIsStored(syncs, i, j, digest);
  }

  /** When all suffixes are digests, a file is in use exactly when a pod has its digest. */
  lemma InUseByDigest(d: string, suffixes: seq<string>)
    requires IsDigest(d) && forall s :: s in suffixes ==> s == "" || IsDigest(s)
    ensures InUse(FileKey(d), suffixes) <==> d in suffixes
  {
    forall s | s in suffixes && s != ""
      ensures Contains(FileKey(d), s) <==> d == s
    {
      FileKeyContains(d, s);
    }
  }
}
