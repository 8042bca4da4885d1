/** Deep merge of configuration trees. */
module TomlMerge {
  import opened Options
  import opened Toml

  /** A list whose entries are tables and whose first entry has a name: merged by name. */
  predicate IsNamedList(v: Value) {
    && v.Array? && v.items != []
    && (forall i :: 0 <= i < |v.items| ==> v.items[i].Table?)
    && "name" in v.items[0].entries
  }

  /** The name an entry can be matched by. */
  function NameOf(entry: Value): Option<string> {
    if entry.Table? && "name" in entry.entries && entry.entries["name"].Str? then Some(entry.entries["name"].text) else None
  }

  /** The last entry of that name. */
  function IndexOf(items: seq<Value>, name: string): (r: Option<nat>)
    ensures r.Some? ==> r.value < |items| && NameOf(items[r.value]) == Some(name)
    ensures r.Some? ==> forall j :: r.value < j < |items| ==> NameOf(items[j]) != Some(name)
    ensures r.None? ==> forall j :: 0 <= j < |items| ==> NameOf(items[j]) != Some(name)
  {
    if items == [] then None
    else if NameOf(items[|items| - 1]) == Some(name) then Some(|items| - 1)
    else IndexOf(items[..|items| - 1], name)
  }

  /** The base entry an override entry is merged into. */
  function Match(base: seq<Value>, entry: Value): (r: Option<nat>)
    ensures r.Some? ==> r.value < |base|
  {
    if NameOf(entry).Some? && NameOf(entry).value != "" then IndexOf(base, NameOf(entry).value) else None
  }

  function MergeTables(base: Value, over: Value): (r: Value)
    requires base.Table? && over.Table?
    ensures r.Table?
    decreases over, 1
  {
    Table(map k | k in base.entries.Keys + over.entries.Keys ::
      if k !in over.entries then base.entries[k]
      else if k !in base.entries then over.entries[k]
      else MergeValues(base.entries[k], over.entries[k]))
  }

  function MergeValues(base: Value, over: Value): Value
    decreases over, 2
  {
    if base.Table? && over.Table? then MergeTables(base, over)
    else if IsNamedList(base) && IsNamedList(over) then
      Array(MergeEntries(base.items, over.items) + Unmatched(base.items, over.items, 0))
    else over
  }

  /** The override's entries, in its order, each merged into its match. */
  function MergeEntries(base: seq<Value>, over: seq<Value>): (r: seq<Value>)
    requires forall i :: 0 <= i < |base| ==> base[i].Table?
    requires forall i :: 0 <= i < |over| ==> over[i].Table?
    ensures |r| == |over|
    decreases over, 0
  {
    if over == [] then []
    else
      var entry := over[0];
      [if Match(base, entry).Some? then MergeTables(base[Match(base, entry).value], entry) else entry]
      + MergeEntries(base, over[1..])
  }

  /** The entries of the base from index i on that no override entry was merged into. */
  function Unmatched(base: seq<Value>, over: seq<Value>, i: nat): seq<Value>
    requires i <= |base|
    decreases |base| - i
  {
    if i == |base| then []
    else if IsMatched(base, over, i) then Unmatched(base, over, i + 1)
    else [base[i]] + Unmatched(base, over, i + 1)
  }

  predicate IsMatched(base: seq<Value>, over: seq<Value>, i: nat) {
    exists j :: 0 <= j < |over| && Match(base, over[j]) == Some(i)
  }

  // ---------- idempotence ----------

  /** Every named list gives its entries non-empty, distinct names. */
  ghost predicate WellNamed(v: Value) {
    match v
    case Table(m) => forall k :: k in m ==> WellNamed(m[k])
    case Array(items) =>
      IsNamedList(v) ==>
        && (forall i :: 0 <= i < |items| ==> NameOf(items[i]).Some? && NameOf(items[i]).value != "")
        && (forall i, j :: 0 <= i < j < |items| ==> NameOf(items[i]) != NameOf(items[j]))
        && (forall i :: 0 <= i < |items| ==> WellNamed(items[i]))
    case _ => true
  }

  /** Wherever an override entry is matched by name, the base has that name once. */
  ghost predicate Unambiguous(base: Value, over: Value)
    decreases over
  {
    if base.Table? && over.Table? then
      forall k :: k in over.entries && k in base.entries ==> Unambiguous(base.entries[k], over.entries[k])
    else if IsNamedList(base) && IsNamedList(over) then
      forall j :: 0 <= j < |over.items| && Match(base.items, over.items[j]).Some? ==>
        var i := Match(base.items, over.items[j]).value;
        && (forall h :: 0 <= h < |base.items| && NameOf(base.items[h]) == NameOf(over.items[j]) ==> h == i)
        && Unambiguous(base.items[i], over.items[j])
    else true
  }

  lemma {:induction false} MergeEntriesAt(base: seq<Value>, over: seq<Value>, j: nat)
    requires forall i :: 0 <= i < |base| ==> base[i].Table?
    requires forall i :: 0 <= i < |over| ==> over[i].Table?
    requires j < |over|
    ensures var m := Match(base, over[j]);
            MergeEntries(base, over)[j] == if m.Some? then MergeTables(base[m.value], over[j]) else over[j]
    decreases j
  {
    if j > 0 { MergeEntriesAt(base, over[1..], j - 1); }
  }

  lemma {:induction false} UnmatchedAt(base: seq<Value>, over: seq<Value>, i: nat, k: nat) returns (h: nat)
    requires i <= |base| && k < |Unmatched(base, over, i)|
    ensures i <= h < |base| && Unmatched(base, over, i)[k] == base[h] && !IsMatched(base, over, h)
    decreases |base| - i
  {
    if IsMatched(base, over, i) {
      h := UnmatchedAt(base, over, i + 1, k);
    } else if k == 0 {
      h := i;
    } else {
      h := UnmatchedAt(base, over, i + 1, k - 1);
    }
  }

  /** A merged entry keeps the override's name. */
  lemma MergedName(base: Value, over: Value)
    requires base.Table? && over.Table? && NameOf(over).Some?
    ensures NameOf(MergeTables(base, over)) == NameOf(over)
  {
  }

  /** With a name twice in the base the merge does not settle: each merge swaps the two. */
  lemma AmbiguousBaseChurns(name: string, x: Value, y: Value)
    requires name != "" && x != y
    ensures var a, b := Table(map["name" := Str(name), "x" := x]), Table(map["name" := Str(name), "x" := y]);
            var over := Array([Table(map["name" := Str(name)])]);
            && WellNamed(over) && !Unambiguous(Array([a, b]), over)
            && MergeValues(Array([a, b]), over) == Array([b, a])
            && MergeValues(Array([b, a]), over) == Array([a, b])
  {
    var entry := Table(map["name" := Str(name)]);
    var a, b := Table(map["name" := Str(name), "x" := x]), Table(map["name" := Str(name), "x" := y]);
    assert WellNamed(Str(name)) && WellNamed(entry) && IsNamedList(Array([entry]));
    SwapPair(a, b, entry);
    SwapPair(b, a, entry);
    assert NameOf([a, b][0]) == NameOf([entry][0]) && NameOf([a, b][1]) == NameOf([entry][0]);
  }

  lemma SwapPair(a: Value, b: Value, entry: Value)
    requires a.Table? && b.Table? && entry.Table? && NameOf(entry).Some? && NameOf(entry).value != ""
    requires NameOf(a) == NameOf(entry) && NameOf(b) == NameOf(entry)
    requires entry.entries.Keys == {"name"}
    ensures IsNamedList(Array([a, b])) && IsNamedList(Array([entry]))
    ensures MergeValues(Array([a, b]), Array([entry])) == Array([b, a])
    ensures Match([a, b], entry) == Some(1)
  {
    assert Match([a, b], entry) == Some(1);
    assert MergeTables(b, entry).entries == b.entries;
    MergeEntriesAt([a, b], [entry], 0);
    assert MergeEntries([a, b], [entry]) == [b];
    assert IsMatched([a, b], [entry], 1) by { assert Match([a, b], [entry][0]) == Some(1); }
    assert !IsMatched([a, b], [entry], 0);
    assert Unmatched([a, b], [entry], 2) == [];
    assert Unmatched([a, b], [entry], 1) == [];
    assert Unmatched([a, b], [entry], 0) == [a];
  }

  // ---------- what a merge reads back ----------

  /** Every scalar, and every list that is not merged by name, of the override is found at its
      path in the merge. */
  lemma {:induction false} OverrideReadsBack(base: Value, over: Value, path: Path, value: Value)
    requires base.Table? && over.Table? && Holds(over, path, value)
    requires !value.Table? && !IsNamedList(value)
    ensures Holds(MergeTables(base, over), path, value)
    decreases |path|
  {
    var k := path[0];
    if |path| > 1 && k in base.entries && base.entries[k].Table? {
      OverrideReadsBack(base.entries[k], over.entries[k], path[1..], value);
    }
  }

  /** The path leaves the override at a key one of its tables does not have. */
  predicate Leaves(over: Value, path: Path)
    requires over.Table?
    decreases |path|
  {
    path != [] && (path[0] !in over.entries || (over.entries[path[0]].Table? && Leaves(over.entries[path[0]], path[1..])))
  }

  /** Whatever the override does not mention keeps its base value. */
  lemma {:induction false} BaseReadsBack(base: Value, over: Value, path: Path)
    requires base.Table? && over.Table? && Leaves(over, path)
    ensures GetPath(MergeTables(base, over), path) == GetPath(base, path)
    decreases |path|
  {
    var k := path[0];
    if k in over.entries {
      if k in base.entries && base.entries[k].Table? {
        BaseReadsBack(base.entries[k], over.entries[k], path[1..]);
      } else {
        LeavesReadsNull(over.entries[k], path[1..]);
      }
    }
  }

  lemma {:induction false} LeavesReadsNull(over: Value, path: Path)
    requires over.Table? && Leaves(over, path)
    ensures GetPath(over, path) == Null
    decreases |path|
  {
    if path[0] in over.entries { LeavesReadsNull(over.entries[path[0]], path[1..]); }
  }

  /** What a merge by name reads: the override's entries come first, in its order and under its
      names, each with every scalar it sets and with whatever its match has besides. */
  lemma NamedListReadsBack(base: seq<Value>, over: seq<Value>, j: nat)
    requires IsNamedList(Array(base)) && IsNamedList(Array(over)) && j < |over|
    ensures var entry := MergeEntries(base, over)[j];
            && entry.Table? && (NameOf(over[j]).Some? ==> NameOf(entry) == NameOf(over[j]))
            && (forall path, value :: Holds(over[j], path, value) && !value.Table? && !IsNamedList(value) ==> Holds(entry, path, value))
            && (forall path :: Leaves(over[j], path) && Match(base, over[j]).Some? ==>
                  GetPath(entry, path) == GetPath(base[Match(base, over[j]).value], path))
  {
    MergeEntriesAt(base, over, j);
    var m := Match(base, over[j]);
    if m.Some? {
      if NameOf(over[j]).Some? { MergedName(base[m.value], over[j]); }
      forall path, value | Holds(over[j], path, value) && !value.Table? && !IsNamedList(value)
        ensures Holds(MergeTables(base[m.value], over[j]), path, value)
      {
        OverrideReadsBack(base[m.value], over[j], path, value);
      }
      forall path | Leaves(over[j], path)
        ensures GetPath(MergeTables(base[m.value], over[j]), path) == GetPath(base[m.value], path)
      {
        BaseReadsBack(base[m.value], over[j], path);
      }
    }
  }

  /** And the entries of the base that no override entry was merged into come last, all of them,
      in their order and as they were. */
  lemma {:induction false} UnmatchedKeepOrder(base: seq<Value>, over: seq<Value>, i: nat) returns (at: seq<nat>)
    requires i <= |base|
    ensures |at| == |Unmatched(base, over, i)|
    ensures forall k :: 0 <= k < |at| ==> i <= at[k] < |base| && Unmatched(base, over, i)[k] == base[at[k]]
    ensures forall k, l :: 0 <= k < l < |at| ==> at[k] < at[l]
    ensures forall h :: i <= h < |base| ==> (h in at <==> !IsMatched(base, over, h))
    decreases |base| - i
  {
    hide IsMatched;
    if i == |base| {
      at := [];
    } else {
      var rest := UnmatchedKeepOrder(base, over, i + 1);
      at := if IsMatched(base, over, i) then rest else [i] + rest;
    }
  }

  // ---------- the loops ----------

  /** Merges key by key, in any order of the override's keys. */
  method DeepMergeMap(base: Value, over: Value) returns (result: Value)
    requires base.Table? && over.Table?
    ensures result == MergeTables(base, over)
    decreases over, 1
  {
    var m := base.entries;
    var todo := over.entries.Keys;
    while todo != {}
      invariant todo <= over.entries.Keys
      invariant m.Keys == base.entries.Keys + (over.entries.Keys - todo)
      invariant forall k :: k in m && k in over.entries && k !in todo ==> m[k] == MergeTables(base, over).entries[k]
      invariant forall k :: k in m && (k !in over.entries || k in todo) ==> m[k] == base.entries[k]
      decreases todo
    {
      var k :| k in todo;
      todo := todo - {k};
      var v := over.entries[k];
      if k !in m {
        m := m[k := v];
        continue;
      }
      var current := m[k];
      if current.Table? && v.Table? {
        var merged := DeepMergeMap(current, v);
        m := m[k := merged];
      } else if IsNamedList(current) && IsNamedList(v) {
        var merged := MergeNamedMapSlice(current.items, v.items);
        m := m[k := Array(merged)];
      } else {
        m := m[k := v];
      }
    }
    result := Table(m);
    assert m == MergeTables(base, over).entries;
  }

  method MergeNamedMapSlice(base: seq<Value>, over: seq<Value>) returns (result: seq<Value>)
    requires forall i :: 0 <= i < |base| ==> base[i].Table?
    requires forall i :: 0 <= i < |over| ==> over[i].Table?
    ensures result == MergeEntries(base, over) + Unmatched(base, over, 0)
    decreases over, 0
  {
    hide IndexOf, MergeTables;
    var byName := IndexByName(base);
    var matched: set<nat> := {};
    var merged: seq<Value> := [];
    for j := 0 to |over|
      invariant |merged| == j && forall h :: 0 <= h < j ==> merged[h] == MergeEntries(base, over)[h]
      invariant forall i :: i in matched <==> exists h :: 0 <= h < j && Match(base, over[h]) == Some(i)
    {
      MergeEntriesAt(base, over, j);
      var entry := over[j];
      var name := if NameOf(entry).Some? then NameOf(entry).value else "";
      if name != "" && name in byName {
        var both := DeepMergeMap(base[byName[name]], entry);
        merged := merged + [both];
        matched := matched + {byName[name]};
      } else {
        merged := merged + [entry];
      }
    }
    assert merged == MergeEntries(base, over);
    var rest := KeepUnmatched(base, over, matched);
    return merged + rest;
  }

  /** Name to index, later entries of the same name overwriting earlier ones. */
  method IndexByName(base: seq<Value>) returns (byName: map<string, nat>)
    ensures Indexes(byName, base)
  {
    byName := map[];
    for i := 0 to |base|
      invariant Indexes(byName, base[..i])
    {
      NextIndex(base, i);
      if NameOf(base[i]).Some? {
        byName := byName[NameOf(base[i]).value := i];
      }
    }
    assert base[..|base|] == base;
  }

  ghost predicate Indexes(byName: map<string, nat>, items: seq<Value>) {
    forall n :: IndexOf(items, n) == if n in byName then Some(byName[n]) else None
  }

  lemma NextIndex(base: seq<Value>, i: nat)
    requires i < |base|
    ensures forall n :: IndexOf(base[..i + 1], n) == if NameOf(base[i]) == Some(n) then Some(i) else IndexOf(base[..i], n)
  {
    hide NameOf;
    assert base[..i + 1][..i] == base[..i];
  }

  method KeepUnmatched(base: seq<Value>, over: seq<Value>, matched: set<nat>) returns (rest: seq<Value>)
    requires forall i :: 0 <= i < |base| ==> (i in matched <==> IsMatched(base, over, i))
    ensures rest == Unmatched(base, over, 0)
  {
    hide IsMatched;
    rest := [];
    for i := 0 to |base|
      invariant rest + Unmatched(base, over, i) == Unmatched(base, over, 0)
    {
      if i !in matched {
        assert rest + ([base[i]] + Unmatched(base, over, i + 1)) == (rest + [base[i]]) + Unmatched(base, over, i + 1);
        rest := rest + [base[i]];
      }
    }
  }
}
