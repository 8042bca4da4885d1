/** The configuration builder of a CN set: the file services merged into the user's
    configuration, then a list of keys the operator owns. Its result is hashed into the name
    of the configuration file, so building from a built configuration must change nothing. */
module CNConfig {
  import opened Options
  import opened Toml
  import opened TomlMerge
  import opened TomlIdempotence

  datatype Setting = Setting(path: Path, value: Value)

  function ApplySettings(v: Value, settings: seq<Setting>): (r: Value)
    requires v.Table?
    ensures r.Table?
    decreases |settings|
  {
    if settings == [] then v
    else ApplySettings(SetPath(v, settings[0].path, settings[0].value), settings[1..])
  }

  function Build(config: Value, over: Value, settings: seq<Setting>): (r: Value)
    requires config.Table? && over.Table?
    ensures r.Table?
  {
    ApplySettings(MergeTables(config, over), settings)
  }

  predicate PairwiseUnrelated(settings: seq<Setting>) {
    forall i, j :: 0 <= i < j < |settings| ==> Unrelated(settings[i].path, settings[j].path)
  }

  lemma {:induction false} SettingsKeepKey(v: Value, settings: seq<Setting>, key: string)
    requires v.Table? && forall i :: 0 <= i < |settings| ==> settings[i].path != [] && settings[i].path[0] != key
    ensures key in ApplySettings(v, settings).entries <==> key in v.entries
    ensures key in v.entries ==> ApplySettings(v, settings).entries[key] == v.entries[key]
    decreases |settings|
  {
    if settings != [] {
      SettingsKeepKey(SetPath(v, settings[0].path, settings[0].value), settings[1..], key);
    }
  }

  lemma {:induction false} SettingsKeepHeld(v: Value, settings: seq<Setting>, path: Path, value: Value)
    requires v.Table? && Holds(v, path, value)
    requires forall i :: 0 <= i < |settings| ==> Unrelated(settings[i].path, path)
    ensures Holds(ApplySettings(v, settings), path, value)
    decreases |settings|
  {
    if settings != [] {
      SetKeepsHolds(v, settings[0].path, settings[0].value, path, value);
      SettingsKeepHeld(SetPath(v, settings[0].path, settings[0].value), settings[1..], path, value);
    }
  }

  lemma {:induction false} SettingsHold(v: Value, settings: seq<Setting>, i: nat)
    requires v.Table? && PairwiseUnrelated(settings) && i < |settings|
    requires forall j :: 0 <= j < |settings| ==> settings[j].path != []
    ensures Holds(ApplySettings(v, settings), settings[i].path, settings[i].value)
    decreases i
  {
    var next := SetPath(v, settings[0].path, settings[0].value);
    if i == 0 {
      SetHolds(v, settings[0].path, settings[0].value);
      SettingsKeepHeld(next, settings[1..], settings[0].path, settings[0].value);
    } else {
      SettingsHold(next, settings[1..], i - 1);
    }
  }

  lemma {:induction false} HeldSettingsAreNoOps(v: Value, settings: seq<Setting>)
    requires v.Table? && forall i :: 0 <= i < |settings| ==> Holds(v, settings[i].path, settings[i].value)
    ensures ApplySettings(v, settings) == v
    decreases |settings|
  {
    if settings != [] {
      SetIsNoOp(v, settings[0].path, settings[0].value);
      HeldSettingsAreNoOps(v, settings[1..]);
    }
  }

  lemma BuiltKeepsMerged(config: Value, over: Value, settings: seq<Setting>, k: string)
    requires config.Table? && over.Table? && k in over.entries
    requires forall i :: 0 <= i < |settings| ==> settings[i].path != [] && settings[i].path[0] !in over.entries
    ensures k in Build(config, over, settings).entries
    ensures Build(config, over, settings).entries[k] == MergeTables(config, over).entries[k]
  {
    SettingsKeepKey(MergeTables(config, over), settings, k);
  }

  /** Building from a built configuration gives it back exactly if merging the override a
      second time does. */
  lemma BuildIsIdempotentExactly(config: Value, over: Value, settings: seq<Setting>)
    requires config.Table? && over.Table? && PairwiseUnrelated(settings)
    requires forall i :: 0 <= i < |settings| ==> settings[i].path != [] && settings[i].path[0] !in over.entries
    ensures Build(Build(config, over, settings), over, settings) == Build(config, over, settings) <==> Settles(config, over)
  {
    IdempotentExactly(config, over);
    hide Settles;
    if Idempotent(config, over) {
      BuildIsIdempotent(config, over, settings);
    }
    var built, merged := Build(config, over, settings), MergeTables(config, over);
    if Build(built, over, settings) == built {
      forall k | k in over.entries
        ensures MergeTables(merged, over).entries[k] == merged.entries[k]
      {
        BuiltKeepsMerged(config, over, settings, k);
        BuiltKeepsMerged(built, over, settings, k);
      }
      assert MergeTables(merged, over).entries == merged.entries;
    }
  }

  lemma BuildIsIdempotent(config: Value, over: Value, settings: seq<Setting>)
    requires config.Table? && over.Table? && Idempotent(config, over) && PairwiseUnrelated(settings)
    requires forall i :: 0 <= i < |settings| ==> settings[i].path != [] && settings[i].path[0] !in over.entries
    ensures Build(Build(config, over, settings), over, settings) == Build(config, over, settings)
  {
    var merged := MergeTables(config, over);
    var built := Build(config, over, settings);
    forall k | k in over.entries
      ensures k in built.entries && MergeValues(built.entries[k], over.entries[k]) == built.entries[k]
    {
      SettingsKeepKey(merged, settings, k);
      assert MergeTables(merged, over).entries[k] == merged.entries[k];
    }
    assert MergeTables(built, over).entries == built.entries;
    forall i | 0 <= i < |settings| ensures Holds(built, settings[i].path, settings[i].value) {
      SettingsHold(merged, settings, i);
    }
    HeldSettingsAreNoOps(built, settings);
  }

  // ---------- the CN set's builder ----------

  datatype Provider = MinIO | AWS

  /** `bucket` and `prefix` are the two parts of the S3 path. */
  datatype S3 = S3(provider: Provider, endpoint: string, region: string, bucket: string, prefix: Option<string>, certFiles: Option<seq<string>>)

  datatype Cache = Cache(memory: Option<string>, disk: Option<string>)

  datatype Storage = Storage(s3: Option<S3>, fileSystem: Option<string>)

  datatype CNSpec = CNSpec(
    storage: Storage, cache: Cache, localPath: string, role: string,
    discoveryFixed: bool, discoveryAddress: string, serviceAddresses: seq<string>,
    lockServiceAddress: string, portBase: string, exportToPrometheus: bool,
    udfAddress: Option<string>, drainEnabled: bool)

  function Strings(xs: seq<string>): (r: seq<Value>)
    ensures |r| == |xs| && forall i :: 0 <= i < |r| ==> r[i] == Str(xs[i])
  {
    seq(|xs|, i requires 0 <= i < |xs| => Str(xs[i]))
  }

  function S3Config(s3: S3, subDir: string): map<string, Value> {
    var m := map["endpoint" := Str(if s3.endpoint != "" then s3.endpoint else "s3.us-west-2.amazonaws.com"),
                 "bucket" := Str(s3.bucket),
                 "key-prefix" := Str(if s3.prefix.Some? then s3.prefix.value + "/" + subDir else subDir)];
    var m1 := if s3.region != "" then m["region" := Str(s3.region)] else m;
    if s3.certFiles.Some? then m1["cert-files" := Array(Strings(s3.certFiles.value))] else m1
  }

  function CacheConfig(cache: Option<Cache>): map<string, Value> {
    match cache
    case None => map["memory-capacity" := Str("1B")]
    case Some(Cache(memory, disk)) =>
      var m := if memory.Some? then map["memory-capacity" := Str(memory.value + "B")] else map[];
      if disk.Some? then m["disk-capacity" := Str(disk.value + "B")]["disk-path" := Str("/var/lib/matrixone/disk-cache")] else m
  }

  function SharedFileService(storage: Storage, cache: Option<Cache>, name: string, subDir: string): map<string, Value> {
    var m := map["name" := Str(name)];
    var m1 :=
      if storage.s3.Some? then
        m["backend" := Str(if storage.s3.value.provider.MinIO? then "MINIO" else "S3")]
         ["s3" := Table(S3Config(storage.s3.value, subDir))]
      else m;
    var m2 :=
      if storage.fileSystem.Some? then
        m1["backend" := Str(if name == "ETL" then "DISK-ETL" else "DISK")]["data-dir" := Str(storage.fileSystem.value)]
      else m1;
    if CacheConfig(cache) != map[] then m2["cache" := Table(CacheConfig(cache))] else m2
  }

  function FileServices(spec: CNSpec): seq<Value> {
    [Table(map["name" := Str("LOCAL"), "backend" := Str("DISK"), "data-dir" := Str(spec.localPath)]),
     Table(SharedFileService(spec.storage, Some(spec.cache), "S3", "data")),
     Table(SharedFileService(spec.storage, None, "ETL", "etl"))]
  }

  function FileServiceConfig(spec: CNSpec): (r: Value)
    ensures r.Table?
  {
    Table(map["data-dir" := Str(spec.localPath), "fileservice" := Array(FileServices(spec))])
  }

  function RequiredSettings(spec: CNSpec): seq<Setting> {
    [Setting(["service-type"], Str("CN")),
     if spec.discoveryFixed then Setting(["hakeeper-client", "discovery-address"], Str(spec.discoveryAddress))
     else Setting(["hakeeper-client", "service-addresses"], Array(Strings(spec.serviceAddresses))),
     Setting(["cn", "role"], Str(spec.role)),
     Setting(["cn", "lockservice", "listen-address"], Str(spec.lockServiceAddress)),
     Setting(["cn", "port-base"], Atom(spec.portBase))]
  }

  function PrometheusSetting(): Setting { Setting(["observability", "enableMetricToProm"], Atom("true")) }

  function UdfSetting(address: string): Setting { Setting(["cn", "python-udf-client", "server-address"], Str(address)) }

  function DrainSetting(): Setting { Setting(["cn", "init-work-state"], Str("Draining")) }

  function CNSettings(spec: CNSpec): seq<Setting> {
    RequiredSettings(spec)
    + (if spec.exportToPrometheus then [PrometheusSetting()] else [])
    + (if spec.udfAddress.Some? then [UdfSetting(spec.udfAddress.value)] else [])
    + (if spec.drainEnabled then [DrainSetting()] else [])
  }

  function BuildCNConfig(spec: CNSpec, config: Value): (r: Value)
    requires config.Table?
    ensures r.Table?
  {
    Build(config, FileServiceConfig(spec), CNSettings(spec))
  }

  ghost predicate NoNamedLists(v: Value) {
    match v
    case Table(m) => forall k :: k in m ==> NoNamedLists(m[k])
    case _ => !IsNamedList(v)
  }

  lemma {:induction false} NoNamedListsIsEasy(base: Value, over: Value)
    requires NoNamedLists(over)
    ensures WellNamed(over) && Unambiguous(base, over)
    decreases over
  {
    if over.Table? {
      forall k | k in over.entries ensures WellNamed(over.entries[k]) { NoNamedListsIsEasy(Null, over.entries[k]); }
      if base.Table? {
        forall k | k in over.entries && k in base.entries ensures Unambiguous(base.entries[k], over.entries[k]) {
          NoNamedListsIsEasy(base.entries[k], over.entries[k]);
        }
      }
    }
  }

  lemma FileServicesAreFlat(spec: CNSpec)
    ensures |FileServices(spec)| == 3
    ensures forall i :: 0 <= i < 3 ==> FileServices(spec)[i].Table? && NoNamedLists(FileServices(spec)[i])
    ensures NameOf(FileServices(spec)[0]) == Some("LOCAL")
    ensures NameOf(FileServices(spec)[1]) == Some("S3")
    ensures NameOf(FileServices(spec)[2]) == Some("ETL")
  {
    SharedIsFlat(spec.storage, Some(spec.cache), "S3", "data");
    SharedIsFlat(spec.storage, None, "ETL", "etl");
  }

  lemma SharedIsFlat(storage: Storage, cache: Option<Cache>, name: string, subDir: string)
    ensures var m := SharedFileService(storage, cache, name, subDir);
            NoNamedLists(Table(m)) && "name" in m && m["name"] == Str(name)
  {
    if storage.s3.Some? { assert NoNamedLists(Table(S3Config(storage.s3.value, subDir))); }
    assert NoNamedLists(Table(CacheConfig(cache)));
  }

  ghost predicate AtMostOnce(items: seq<Value>, name: Option<string>) {
    forall i, j :: 0 <= i < j < |items| && NameOf(items[i]) == name ==> NameOf(items[j]) != name
  }

  /** The user's file service list names none of the operator's entries twice. */
  ghost predicate OperatorNamesOnce(config: Value)
    requires config.Table?
  {
    "fileservice" in config.entries && config.entries["fileservice"].Array? ==>
      var items := config.entries["fileservice"].items;
      AtMostOnce(items, Some("LOCAL")) && AtMostOnce(items, Some("S3")) && AtMostOnce(items, Some("ETL"))
  }

  /** A list of flat, distinctly named tables merges cleanly into a list that has each of its
      names at most once. */
  lemma FlatListMergesCleanly(base: Value, list: seq<Value>)
    requires forall i :: 0 <= i < |list| ==> NoNamedLists(list[i])
    requires forall i :: 0 <= i < |list| ==> NameOf(list[i]).Some? && NameOf(list[i]).value != ""
    requires forall i, j :: 0 <= i < j < |list| ==> NameOf(list[i]) != NameOf(list[j])
    requires base.Array? ==> forall h :: 0 <= h < |list| ==> AtMostOnce(base.items, NameOf(list[h]))
    ensures WellNamed(Array(list)) && Unambiguous(base, Array(list))
  {
    forall i | 0 <= i < |list| ensures WellNamed(list[i]) { NoNamedListsIsEasy(Null, list[i]); }
    if IsNamedList(base) {
      forall j | 0 <= j < |list| && Match(base.items, list[j]).Some?
        ensures Unambiguous(base.items[Match(base.items, list[j]).value], list[j])
      {
        NoNamedListsIsEasy(base.items[Match(base.items, list[j]).value], list[j]);
      }
    }
  }

  /** A table of one string and one list merges cleanly if the list does. */
  lemma RootMergesCleanly(config: Value, stringKey: string, text: string, listKey: string, list: Value)
    requires config.Table? && WellNamed(list) && stringKey != listKey
    requires listKey in config.entries ==> Unambiguous(config.entries[listKey], list)
    ensures var over := Table(map[stringKey := Str(text), listKey := list]);
            WellNamed(over) && Unambiguous(config, over)
  {
    var over := Table(map[stringKey := Str(text), listKey := list]);
    assert WellNamed(Str(text));
    assert stringKey in config.entries ==> Unambiguous(config.entries[stringKey], Str(text));
  }

  lemma FileServiceConfigMergesCleanly(spec: CNSpec, config: Value)
    requires config.Table? && OperatorNamesOnce(config)
    ensures WellNamed(FileServiceConfig(spec)) && Unambiguous(config, FileServiceConfig(spec))
  {
    FileServicesAreFlat(spec);
    hide FileServices, NoNamedLists, WellNamed, Unambiguous, NameOf;
    var list := FileServices(spec);
    FlatListMergesCleanly(Null, list);
    if "fileservice" in config.entries {
      FlatListMergesCleanly(config.entries["fileservice"], list);
    }
    RootMergesCleanly(config, "data-dir", spec.localPath, "fileservice", Array(list));
  }

  /** The order in which the builder writes its keys, on their paths. */
  function Rank(p: Path): nat {
    if p == [] then 8
    else if p[0] == "service-type" then 0
    else if p[0] == "hakeeper-client" then 1
    else if p[0] == "observability" then 5
    else if p[0] != "cn" || |p| < 2 then 8
    else if p[1] == "role" then 2
    else if p[1] == "lockservice" then 3
    else if p[1] == "port-base" then 4
    else if p[1] == "python-udf-client" then 6
    else if p[1] == "init-work-state" then 7
    else 8
  }

  ghost predicate RankedBelow(settings: seq<Setting>, bound: nat) {
    && bound <= 8
    && (forall i :: 0 <= i < |settings| ==> Rank(settings[i].path) < bound)
    && (forall i, j :: 0 <= i < j < |settings| ==> Rank(settings[i].path) < Rank(settings[j].path))
  }

  lemma RankedAppend(front: seq<Setting>, last: Setting, add: bool, low: nat)
    requires low < 8 && RankedBelow(front, low) && Rank(last.path) == low
    ensures RankedBelow(front + (if add then [last] else []), low + 1)
  {
  }

  lemma RankedIsUnrelated(settings: seq<Setting>)
    requires RankedBelow(settings, 8)
    ensures PairwiseUnrelated(settings)
    ensures forall i :: 0 <= i < |settings| ==> settings[i].path != [] && settings[i].path[0] !in {"data-dir", "fileservice"}
  {
    forall i, j | 0 <= i < j < |settings| ensures Unrelated(settings[i].path, settings[j].path) {
      var p, q := settings[i].path, settings[j].path;
      assert Rank(p) < Rank(q) < 8;
      assert p[0] != q[0] || (|p| > 1 && |q| > 1 && p[1] != q[1]);
    }
  }

  lemma SettingRanks(spec: CNSpec)
    ensures RankedBelow(RequiredSettings(spec), 5)
    ensures Rank(PrometheusSetting().path) == 5 && Rank(DrainSetting().path) == 7
    ensures forall a :: Rank(UdfSetting(a).path) == 6
  {
  }

  lemma CNSettingsAreUnrelated(spec: CNSpec)
    ensures PairwiseUnrelated(CNSettings(spec))
    ensures forall i :: 0 <= i < |CNSettings(spec)| ==>
      CNSettings(spec)[i].path != [] && CNSettings(spec)[i].path[0] !in {"data-dir", "fileservice"}
  {
    SettingRanks(spec);
    hide Rank, RequiredSettings, PrometheusSetting, UdfSetting, DrainSetting;
    var first := RequiredSettings(spec);
    RankedAppend(first, PrometheusSetting(), spec.exportToPrometheus, 5);
    var second := first + (if spec.exportToPrometheus then [PrometheusSetting()] else []);
    var address := if spec.udfAddress.Some? then spec.udfAddress.value else "";
    RankedAppend(second, UdfSetting(address), spec.udfAddress.Some?, 6);
    var third := second + (if spec.udfAddress.Some? then [UdfSetting(address)] else []);
    RankedAppend(third, DrainSetting(), spec.drainEnabled, 7);
    RankedIsUnrelated(CNSettings(spec));
  }

  ghost predicate Stable(spec: CNSpec, config: Value)
    requires config.Table?
  {
    BuildCNConfig(spec, BuildCNConfig(spec, config)) == BuildCNConfig(spec, config)
  }

  /** Whatever the CN set asks for and the user has configured: building the configuration from
      an already built one changes nothing, so that its digest and with it the name of the
      file is stable, if and only if the user's file service list settles the operator's. */
  lemma CNConfigIsStableExactly(spec: CNSpec, config: Value)
    requires config.Table?
    ensures Stable(spec, config) <==>
            ("fileservice" in config.entries ==> Settles(config.entries["fileservice"], Array(FileServices(spec))))
  {
    hide FileServices, CNSettings, Settles, WellNamed, Build;
    FileServicesAreWellNamed(spec);
    CNSettingsAreUnrelated(spec);
    BuildIsIdempotentExactly(config, FileServiceConfig(spec), CNSettings(spec));
    RootSettles(config, "data-dir", spec.localPath, "fileservice", Array(FileServices(spec)));
  }

  lemma FileServicesAreWellNamed(spec: CNSpec)
    ensures WellNamed(Array(FileServices(spec)))
  {
    FileServicesAreFlat(spec);
    hide FileServices, NoNamedLists, WellNamed, NameOf;
    FlatListMergesCleanly(Null, FileServices(spec));
  }

  /** A table of one string and one list is settled exactly where its list is. */
  lemma RootSettles(config: Value, stringKey: string, text: string, listKey: string, list: Value)
    requires config.Table? && WellNamed(list) && stringKey != listKey
    ensures Settles(config, Table(map[stringKey := Str(text), listKey := list])) <==>
            (listKey in config.entries ==> Settles(config.entries[listKey], list))
  {
    var over := Table(map[stringKey := Str(text), listKey := list]);
    assert WellNamed(Str(text));
    assert stringKey in config.entries ==> Settles(config.entries[stringKey], Str(text));
    assert over.entries[listKey] == list && over.entries[stringKey] == Str(text);
  }

  /** In particular if the list names each of the operator's entries at most once. */
  lemma CNConfigIsStable(spec: CNSpec, config: Value)
    requires config.Table? && OperatorNamesOnce(config)
    ensures Stable(spec, config)
  {
    FileServiceConfigMergesCleanly(spec, config);
    CNSettingsAreUnrelated(spec);
    MergeIsIdempotent(config, FileServiceConfig(spec));
    BuildIsIdempotent(config, FileServiceConfig(spec), CNSettings(spec));
  }

  /** And not if it names LOCAL, S3 or ETL a second time with an entry other than the merged
      one, or one that merges differently: then building from the built configuration gives
      another one. */
  lemma CNConfigChurns(spec: CNSpec, config: Value, j: nat, i: nat, h: nat)
    requires config.Table? && "fileservice" in config.entries && IsNamedList(config.entries["fileservice"])
    requires j < |FileServices(spec)| && FileServices(spec)[j].Table?
    requires Clashes(config.entries["fileservice"].items, FileServices(spec)[j], i, h)
    ensures !Stable(spec, config)
  {
    FileServicesAreFlat(spec);
    CNConfigIsStableExactly(spec, config);
    var base, over := config.entries["fileservice"], Array(FileServices(spec));
    RepeatedNameChurns(base, over, j, i, h);
    IdempotentExactly(base, over);
  }
}
