/** What the configuration of a CN set reads, key by key, and the builder that edits the CN set's
    configuration object in place. */
module CNConfigReads {
  import opened Options
  import opened Toml
  import opened TomlMerge
  import opened TomlConfigs
  import opened CNConfig

  // ---------- reading ----------

  lemma {:induction false} HoldsReads(v: Value, path: Path, value: Value)
    requires v.Table? && Holds(v, path, value)
    ensures GetPath(v, path) == value
    decreases |path|
  {
    if |path| > 1 { HoldsReads(v.entries[path[0]], path[1..], value); }
  }

  lemma {:induction false} SettingsKeepUnrelated(v: Value, settings: seq<Setting>, path: Path)
    requires v.Table? && forall i :: 0 <= i < |settings| ==> Unrelated(settings[i].path, path)
    ensures GetPath(ApplySettings(v, settings), path) == GetPath(v, path)
    decreases |settings|
  {
    if settings != [] {
      SetKeepsUnrelated(v, settings[0].path, settings[0].value, path);
      SettingsKeepUnrelated(SetPath(v, settings[0].path, settings[0].value), settings[1..], path);
    }
  }

  lemma SettingReads(spec: CNSpec, config: Value, i: nat)
    requires config.Table? && i < |CNSettings(spec)|
    ensures GetPath(BuildCNConfig(spec, config), CNSettings(spec)[i].path) == CNSettings(spec)[i].value
  {
    hide CNSettings, FileServiceConfig;
    CNSettingsAreUnrelated(spec);
    var merged := MergeTables(config, FileServiceConfig(spec));
    SettingsHold(merged, CNSettings(spec), i);
    HoldsReads(BuildCNConfig(spec, config), CNSettings(spec)[i].path, CNSettings(spec)[i].value);
  }

  ghost predicate ReadsStrings(v: Value, path: Path, xs: seq<string>)
    requires v.Table?
  {
    var r := GetPath(v, path);
    r.Array? && |r.items| == |xs| && forall i :: 0 <= i < |xs| ==> r.items[i] == Str(xs[i])
  }

  // ---------- the keys the operator owns ----------

  /** The keys of the CN set read as its spec and version ask: a version that can discover log
      stores has the discovery address, any other the list of service addresses. */
  ghost predicate ReadsKeys(spec: CNSpec, t: Value)
    requires t.Table?
  {
    && GetPath(t, ["service-type"]) == Str("CN")
    && (spec.discoveryFixed ==> GetPath(t, ["hakeeper-client", "discovery-address"]) == Str(spec.discoveryAddress))
    && (!spec.discoveryFixed ==> ReadsStrings(t, ["hakeeper-client", "service-addresses"], spec.serviceAddresses))
    && GetPath(t, ["cn", "role"]) == Str(spec.role)
    && GetPath(t, ["cn", "lockservice", "listen-address"]) == Str(spec.lockServiceAddress)
    && GetPath(t, ["cn", "port-base"]) == Atom(spec.portBase)
    && (spec.exportToPrometheus ==> GetPath(t, ["observability", "enableMetricToProm"]) == Atom("true"))
    && (spec.udfAddress.Some? ==> GetPath(t, ["cn", "python-udf-client", "server-address"]) == Str(spec.udfAddress.value))
    && (spec.drainEnabled ==> GetPath(t, ["cn", "init-work-state"]) == Str("Draining"))
    && GetPath(t, ["data-dir"]) == Str(spec.localPath)
  }

  lemma RequiredRead(spec: CNSpec, config: Value)
    requires config.Table?
    ensures var t := BuildCNConfig(spec, config);
            && GetPath(t, ["service-type"]) == Str("CN")
            && (spec.discoveryFixed ==> GetPath(t, ["hakeeper-client", "discovery-address"]) == Str(spec.discoveryAddress))
            && (!spec.discoveryFixed ==> ReadsStrings(t, ["hakeeper-client", "service-addresses"], spec.serviceAddresses))
            && GetPath(t, ["cn", "role"]) == Str(spec.role)
            && GetPath(t, ["cn", "lockservice", "listen-address"]) == Str(spec.lockServiceAddress)
            && GetPath(t, ["cn", "port-base"]) == Atom(spec.portBase)
  {
    hide BuildCNConfig, GetPath;
    var s := CNSettings(spec);
    assert s[..5] == RequiredSettings(spec);
    assert forall i :: 0 <= i < 5 ==> s[i] == s[..5][i];
    SettingReads(spec, config, 0);
    SettingReads(spec, config, 1);
    SettingReads(spec, config, 2);
    SettingReads(spec, config, 3);
    SettingReads(spec, config, 4);
  }

  /** A setting of the list is read wherever it stands. */
  lemma MemberReads(spec: CNSpec, config: Value, setting: Setting)
    requires config.Table? && setting in CNSettings(spec)
    ensures GetPath(BuildCNConfig(spec, config), setting.path) == setting.value
  {
    var i :| 0 <= i < |CNSettings(spec)| && CNSettings(spec)[i] == setting;
    SettingReads(spec, config, i);
  }

  lemma OptionalRead(spec: CNSpec, config: Value)
    requires config.Table?
    ensures var t := BuildCNConfig(spec, config);
            && (spec.exportToPrometheus ==> GetPath(t, ["observability", "enableMetricToProm"]) == Atom("true"))
            && (spec.udfAddress.Some? ==> GetPath(t, ["cn", "python-udf-client", "server-address"]) == Str(spec.udfAddress.value))
            && (spec.drainEnabled ==> GetPath(t, ["cn", "init-work-state"]) == Str("Draining"))
  {
    hide BuildCNConfig, GetPath, RequiredSettings;
    if spec.exportToPrometheus {
      assert PrometheusSetting() in CNSettings(spec);
      MemberReads(spec, config, PrometheusSetting());
    }
    if spec.udfAddress.Some? {
      assert UdfSetting(spec.udfAddress.value) in CNSettings(spec);
      MemberReads(spec, config, UdfSetting(spec.udfAddress.value));
    }
    if spec.drainEnabled {
      assert DrainSetting() in CNSettings(spec);
      MemberReads(spec, config, DrainSetting());
    }
  }

  // ---------- the keys of the user ----------

  ghost predicate IsWritten(spec: CNSpec, p: Path) {
    || p == ["service-type"]
    || p == ["hakeeper-client", if spec.discoveryFixed then "discovery-address" else "service-addresses"]
    || p == ["cn", "role"] || p == ["cn", "lockservice", "listen-address"] || p == ["cn", "port-base"]
    || (spec.exportToPrometheus && p == ["observability", "enableMetricToProm"])
    || (spec.udfAddress.Some? && p == ["cn", "python-udf-client", "server-address"])
    || (spec.drainEnabled && p == ["cn", "init-work-state"])
    || p == ["data-dir"] || p == ["fileservice"]
  }

  /** A path that has nothing to do with those. */
  ghost predicate IsUsers(spec: CNSpec, q: Path) {
    forall p :: IsWritten(spec, p) ==> Unrelated(p, q)
  }

  lemma SettingsAreWritten(spec: CNSpec)
    ensures forall i :: 0 <= i < |CNSettings(spec)| ==> IsWritten(spec, CNSettings(spec)[i].path)
  {
  }

  /** Everything else reads as the user configured it. */
  lemma UsersKeysRead(spec: CNSpec, config: Value, q: Path)
    requires config.Table? && IsUsers(spec, q)
    ensures GetPath(BuildCNConfig(spec, config), q) == GetPath(config, q)
  {
    SettingsAreWritten(spec);
    NotTheRoots(spec, q);
    var over := FileServiceConfig(spec);
    var settings := CNSettings(spec);
    assert forall i :: 0 <= i < |settings| ==> Unrelated(settings[i].path, q);
    hide CNSettings, IsWritten, FileServices;
    SettingsKeepUnrelated(MergeTables(config, over), settings, q);
    BaseReadsBack(config, over, q);
  }

  lemma NotTheRoots(spec: CNSpec, q: Path)
    requires IsUsers(spec, q)
    ensures q != [] && q[0] != "data-dir" && q[0] != "fileservice"
  {
    assert Unrelated(["data-dir"], q) && Unrelated(["fileservice"], q);
    assert ["data-dir"] <= q <==> q != [] && q[0] == "data-dir";
    assert ["fileservice"] <= q <==> q != [] && q[0] == "fileservice";
  }

  // ---------- the file services ----------

  /** A file service entry on the shared storage: its backend, place and credentials as the
      storage asks, a file system winning over S3, and the cache limits, which the ETL entry
      always has at their smallest. */
  ghost predicate ReadsShared(storage: Storage, cache: Option<Cache>, etl: bool, subDir: string, entry: Value)
    requires entry.Table?
  {
    && (storage.fileSystem.Some? ==>
          && GetPath(entry, ["backend"]) == Str(if etl then "DISK-ETL" else "DISK")
          && GetPath(entry, ["data-dir"]) == Str(storage.fileSystem.value))
    && (storage.s3.Some? ==> ReadsS3(storage.s3.value, subDir, entry))
    && (storage.s3.Some? && storage.fileSystem.None? ==>
          GetPath(entry, ["backend"]) == Str(if storage.s3.value.provider == MinIO then "MINIO" else "S3"))
    && ReadsCache(cache, entry)
  }

  ghost predicate ReadsS3(s3: S3, subDir: string, entry: Value)
    requires entry.Table?
  {
    && GetPath(entry, ["s3", "bucket"]) == Str(s3.bucket)
    && GetPath(entry, ["s3", "endpoint"]) == Str(if s3.endpoint == "" then "s3.us-west-2.amazonaws.com" else s3.endpoint)
    && GetPath(entry, ["s3", "key-prefix"]) == Str(if s3.prefix.None? then subDir else s3.prefix.value + "/" + subDir)
    && (s3.region != "" ==> GetPath(entry, ["s3", "region"]) == Str(s3.region))
    && (s3.certFiles.Some? ==> ReadsStrings(entry, ["s3", "cert-files"], s3.certFiles.value))
  }

  /** The list starts with the operator's three entries, whatever the user's list was. */
  ghost predicate ReadsFileServices(spec: CNSpec, list: Value) {
    && list.Array? && |list.items| >= 3
    && list.items[0].Table? && list.items[1].Table? && list.items[2].Table?
    && NameOf(list.items[0]) == Some("LOCAL") && NameOf(list.items[1]) == Some("S3") && NameOf(list.items[2]) == Some("ETL")
    && GetPath(list.items[0], ["backend"]) == Str("DISK") && GetPath(list.items[0], ["data-dir"]) == Str(spec.localPath)
    && ReadsShared(spec.storage, Some(spec.cache), false, "data", list.items[1])
    && ReadsShared(spec.storage, None, true, "etl", list.items[2])
  }

  /** The entry holds every scalar and every plain list of the other. */
  ghost predicate Carries(entry: Value, over: Value)
    requires entry.Table? && over.Table?
  {
    forall path, value :: Holds(over, path, value) && !value.Table? && !IsNamedList(value) ==> Holds(entry, path, value)
  }

  lemma CarriesReads(entry: Value, over: Value, path: Path, value: Value)
    requires entry.Table? && over.Table? && Carries(entry, over)
    requires Holds(over, path, value) && !value.Table? && !IsNamedList(value)
    ensures GetPath(entry, path) == value
  {
    HoldsReads(entry, path, value);
  }

  lemma CarriesKey(entry: Value, over: Value, key: string)
    requires entry.Table? && over.Table? && Carries(entry, over) && key in over.entries
    requires !over.entries[key].Table? && !IsNamedList(over.entries[key])
    ensures GetPath(entry, [key]) == over.entries[key]
  {
    CarriesReads(entry, over, [key], over.entries[key]);
  }

  lemma CarriesNested(entry: Value, over: Value, key: string, inner: string)
    requires entry.Table? && over.Table? && Carries(entry, over) && key in over.entries && over.entries[key].Table?
    requires inner in over.entries[key].entries
    requires !over.entries[key].entries[inner].Table? && !IsNamedList(over.entries[key].entries[inner])
    ensures GetPath(entry, [key, inner]) == over.entries[key].entries[inner]
  {
    var path := [key, inner];
    assert path[1..] == [inner];
    assert Holds(over.entries[key], [inner], over.entries[key].entries[inner]);
    CarriesReads(entry, over, path, over.entries[key].entries[inner]);
  }

  lemma SharedReads(storage: Storage, cache: Option<Cache>, etl: bool, subDir: string, entry: Value)
    requires entry.Table? && Carries(entry, Table(SharedFileService(storage, cache, if etl then "ETL" else "S3", subDir)))
    ensures ReadsShared(storage, cache, etl, subDir, entry)
  {
    var over := Table(SharedFileService(storage, cache, if etl then "ETL" else "S3", subDir));
    hide Carries, GetPath;
    if storage.fileSystem.Some? {
      CarriesKey(entry, over, "backend");
      CarriesKey(entry, over, "data-dir");
    }
    if storage.s3.Some? {
      assert over.entries["s3"] == Table(S3Config(storage.s3.value, subDir));
      S3Reads(storage.s3.value, subDir, entry, over);
      CarriesKey(entry, over, "backend");
    }
    if CacheConfig(cache) != map[] {
      assert over.entries["cache"] == Table(CacheConfig(cache));
      CacheReads(cache, entry, over);
    }
    hide SharedFileService, ReadsS3, ReadsCache;
    CacheIsThere(cache);
  }

  lemma CacheIsThere(cache: Option<Cache>)
    ensures cache.None? || cache.value.memory.Some? || cache.value.disk.Some? ==> CacheConfig(cache) != map[]
  {
    if cache.None? || cache.value.memory.Some? { assert "memory-capacity" in CacheConfig(cache); }
    if cache.Some? && cache.value.disk.Some? { assert "disk-path" in CacheConfig(cache); }
  }

  ghost predicate ReadsCache(cache: Option<Cache>, entry: Value)
    requires entry.Table?
  {
    && (cache.None? ==> GetPath(entry, ["cache", "memory-capacity"]) == Str("1B"))
    && (cache.Some? && cache.value.memory.Some? ==>
          GetPath(entry, ["cache", "memory-capacity"]) == Str(cache.value.memory.value + "B"))
    && (cache.Some? && cache.value.disk.Some? ==>
          && GetPath(entry, ["cache", "disk-capacity"]) == Str(cache.value.disk.value + "B")
          && GetPath(entry, ["cache", "disk-path"]) == Str("/var/lib/matrixone/disk-cache"))
  }

  lemma CacheReads(cache: Option<Cache>, entry: Value, over: Value)
    requires entry.Table? && over.Table? && Carries(entry, over)
    requires "cache" in over.entries && over.entries["cache"] == Table(CacheConfig(cache))
    ensures ReadsCache(cache, entry)
  {
    hide Carries, GetPath;
    if cache.None? || cache.value.memory.Some? { CarriesNested(entry, over, "cache", "memory-capacity"); }
    if cache.Some? && cache.value.disk.Some? {
      CarriesNested(entry, over, "cache", "disk-capacity");
      CarriesNested(entry, over, "cache", "disk-path");
    }
  }

  lemma S3Reads(s3: S3, subDir: string, entry: Value, over: Value)
    requires entry.Table? && over.Table? && Carries(entry, over)
    requires "s3" in over.entries && over.entries["s3"] == Table(S3Config(s3, subDir))
    ensures ReadsS3(s3, subDir, entry)
  {
    hide Carries, GetPath;
    CarriesNested(entry, over, "s3", "bucket");
    CarriesNested(entry, over, "s3", "endpoint");
    CarriesNested(entry, over, "s3", "key-prefix");
    if s3.region != "" { CarriesNested(entry, over, "s3", "region"); }
    if s3.certFiles.Some? { CarriesNested(entry, over, "s3", "cert-files"); }
  }

  /** The merged list carries the operator's entries in front. */
  lemma ListCarries(spec: CNSpec, config: Value) returns (list: Value)
    requires config.Table?
    ensures "fileservice" in BuildCNConfig(spec, config).entries
    ensures list == BuildCNConfig(spec, config).entries["fileservice"]
    ensures list.Array? && |list.items| >= 3
    ensures forall j :: 0 <= j < 3 ==>
      list.items[j].Table? && NameOf(list.items[j]) == NameOf(FileServices(spec)[j])
      && FileServices(spec)[j].Table? && Carries(list.items[j], FileServices(spec)[j])
  {
    FileServicesAreFlat(spec);
    CNSettingsAreUnrelated(spec);
    var over, services := FileServiceConfig(spec), FileServices(spec);
    BuiltKeepsMerged(config, over, CNSettings(spec), "fileservice");
    assert over.entries["fileservice"] == Array(services);
    assert IsNamedList(Array(services));
    list := BuildCNConfig(spec, config).entries["fileservice"];
    hide FileServices, CNSettings, FileServiceConfig, NoNamedLists;
    if "fileservice" in config.entries && IsNamedList(config.entries["fileservice"]) {
      var base := config.entries["fileservice"].items;
      assert list == Array(MergeEntries(base, services) + Unmatched(base, services, 0));
      forall j | 0 <= j < 3
        ensures list.items[j].Table? && NameOf(list.items[j]) == NameOf(services[j]) && Carries(list.items[j], services[j])
      {
        NamedListReadsBack(base, services, j);
        assert list.items[j] == MergeEntries(base, services)[j];
      }
    } else {
      assert list == Array(services);
    }
  }

  lemma FileServicesRead(spec: CNSpec, config: Value)
    requires config.Table?
    ensures "fileservice" in BuildCNConfig(spec, config).entries
    ensures ReadsFileServices(spec, BuildCNConfig(spec, config).entries["fileservice"])
  {
    var list := ListCarries(spec, config);
    var services := FileServices(spec);
    FileServicesAreFlat(spec);
    assert services[1] == Table(SharedFileService(spec.storage, Some(spec.cache), "S3", "data"));
    assert services[2] == Table(SharedFileService(spec.storage, None, "ETL", "etl"));
    assert services[0].entries["backend"] == Str("DISK") && services[0].entries["data-dir"] == Str(spec.localPath);
    hide BuildCNConfig, SharedFileService, FileServices, Carries, GetPath, ReadsShared;
    CarriesKey(list.items[0], services[0], "backend");
    CarriesKey(list.items[0], services[0], "data-dir");
    SharedReads(spec.storage, Some(spec.cache), false, "data", list.items[1]);
    SharedReads(spec.storage, None, true, "etl", list.items[2]);
  }

  lemma DataDirReads(spec: CNSpec, config: Value)
    requires config.Table?
    ensures GetPath(BuildCNConfig(spec, config), ["data-dir"]) == Str(spec.localPath)
  {
    CNSettingsAreUnrelated(spec);
    hide CNSettings, FileServices;
    BuiltKeepsMerged(config, FileServiceConfig(spec), CNSettings(spec), "data-dir");
  }

  // ---------- the whole configuration ----------

  /** The built configuration: the operator's keys and file services as the spec asks, and the
      user's configuration everywhere else. */
  ghost predicate ReadsAsAsked(spec: CNSpec, config: Value, t: Value)
    requires config.Table? && t.Table?
  {
    && ReadsKeys(spec, t)
    && "fileservice" in t.entries && ReadsFileServices(spec, t.entries["fileservice"])
    && forall q :: IsUsers(spec, q) ==> GetPath(t, q) == GetPath(config, q)
  }

  lemma BuiltReadsAsAsked(spec: CNSpec, config: Value)
    requires config.Table?
    ensures ReadsAsAsked(spec, config, BuildCNConfig(spec, config))
  {
    RequiredRead(spec, config);
    OptionalRead(spec, config);
    DataDirReads(spec, config);
    FileServicesRead(spec, config);
    hide BuildCNConfig, GetPath, ReadsFileServices, IsUsers;
    forall q | IsUsers(spec, q)
      ensures GetPath(BuildCNConfig(spec, config), q) == GetPath(config, q)
    {
      UsersKeysRead(spec, config, q);
    }
  }

  // ---------- the builder on the shared configuration object ----------

  lemma {:induction false} ApplySettingsAppend(v: Value, front: seq<Setting>, last: Setting)
    requires v.Table?
    ensures ApplySettings(v, front + [last]) == SetPath(ApplySettings(v, front), last.path, last.value)
    decreases |front|
  {
    if front == [] {
      assert front + [last] == [last];
    } else {
      assert (front + [last])[1..] == front[1..] + [last];
      ApplySettingsAppend(SetPath(v, front[0].path, front[0].value), front[1..], last);
    }
  }

  method Write(config: TomlConfig, s: Setting, ghost merged: Value, ghost done: seq<Setting>)
    requires merged.Table? && config.Tree() == ApplySettings(merged, done)
    modifies config
    ensures config.Tree() == ApplySettings(merged, done + [s])
  {
    ApplySettingsAppend(merged, done, s);
    config.Set(s.path, s.value);
  }

  method WriteNth(config: TomlConfig, settings: seq<Setting>, n: nat, ghost merged: Value)
    requires merged.Table? && n < |settings| && config.Tree() == ApplySettings(merged, settings[..n])
    modifies config
    ensures config.Tree() == ApplySettings(merged, settings[..n + 1])
  {
    assert settings[..n + 1] == settings[..n] + [settings[n]];
    Write(config, settings[n], merged, settings[..n]);
  }

  /** Edits the CN set's own configuration object, so the next reconciliation starts from the
      result of this one. */
  method BuildInPlace(config: TomlConfig, spec: CNSpec)
    modifies config
    ensures config.Tree() == BuildCNConfig(spec, old(config.Tree()))
    ensures ReadsAsAsked(spec, old(config.Tree()), config.Tree())
  {
    hide SetPath, FileServices, ReadsAsAsked;
    config.MergeDeep(FileServiceConfig(spec).entries);
    ghost var merged := MergeTables(old(config.Tree()), FileServiceConfig(spec));
    var required := RequiredSettings(spec);
    ghost var done := required[..0];
    WriteNth(config, required, 0, merged);
    WriteNth(config, required, 1, merged);
    WriteNth(config, required, 2, merged);
    WriteNth(config, required, 3, merged);
    WriteNth(config, required, 4, merged);
    assert required[..5] == required;
    done := required;
    if spec.exportToPrometheus {
      Write(config, PrometheusSetting(), merged, done);
      done := done + [PrometheusSetting()];
    }
    if spec.udfAddress.Some? {
      Write(config, UdfSetting(spec.udfAddress.value), merged, done);
      done := done + [UdfSetting(spec.udfAddress.value)];
    }
    if spec.drainEnabled {
      Write(config, DrainSetting(), merged, done);
      done := done + [DrainSetting()];
    }
    assert done == CNSettings(spec);
    BuiltReadsAsAsked(spec, old(config.Tree()));
  }
}
