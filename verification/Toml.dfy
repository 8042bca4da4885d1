/** TOML configuration trees: paths, deep merge with by-name matching of lists. */
module Toml {

  /** A decoded TOML value. `Null` is the value a missing key reads as; `Atom` stands for any
      scalar that is not a string. A list of tables is one kind of `Array`. */
  datatype Value =
    | Null
    | Str(text: string)
    | Atom(text: string)
    | Table(entries: map<string, Value>)
    | Array(items: seq<Value>)

  type Path = seq<string>

  // ---------- paths ----------

  /** Reads a key path; the empty path is the table itself. */
  function GetPath(v: Value, path: Path): Value
    requires v.Table?
    decreases |path|
  {
    if path == [] then v
    else if path[0] !in v.entries then Null
    else if |path| == 1 then v.entries[path[0]]
    else if v.entries[path[0]].Table? then GetPath(v.entries[path[0]], path[1..])
    else Null
  }

  /** Writes a key path, overriding whatever is not a table on the way. */
  function SetPath(v: Value, path: Path, value: Value): (r: Value)
    requires v.Table?
    ensures r.Table?
    decreases |path|
  {
    if path == [] then v
    else if |path| == 1 then Table(v.entries[path[0] := value])
    else
      var next := if path[0] in v.entries && v.entries[path[0]].Table? then v.entries[path[0]] else Table(map[]);
      Table(v.entries[path[0] := SetPath(next, path[1..], value)])
  }

  /** Deletes a key path. */
  function DeletePath(v: Value, path: Path): (r: Value)
    requires v.Table? && path != []
    ensures r.Table?
    decreases |path|
  {
    if |path| == 1 then Table(v.entries - {path[0]})
    else if path[0] in v.entries && v.entries[path[0]].Table? then
      Table(v.entries[path[0] := DeletePath(v.entries[path[0]], path[1..])])
    else v
  }

  /** Neither path is a prefix of the other. */
  predicate Unrelated(p: Path, q: Path) {
    !(p <= q) && !(q <= p)
  }

  lemma UnrelatedTails(p: Path, q: Path)
    requires Unrelated(p, q) && p[0] == q[0]
    ensures |p| > 1 && |q| > 1 && Unrelated(p[1..], q[1..])
  {
    assert |p| == 1 ==> p <= q;
    assert |q| == 1 ==> q <= p;
    assert p == [p[0]] + p[1..] && q == [q[0]] + q[1..];
  }

  lemma {:induction false} GetAfterSet(v: Value, path: Path, value: Value)
    requires v.Table? && path != []
    ensures GetPath(SetPath(v, path, value), path) == value
    decreases |path|
  {
    if |path| > 1 {
      var next := if path[0] in v.entries && v.entries[path[0]].Table? then v.entries[path[0]] else Table(map[]);
      GetAfterSet(next, path[1..], value);
    }
  }

  lemma {:induction false} SetKeepsUnrelated(v: Value, path: Path, value: Value, other: Path)
    requires v.Table? && Unrelated(path, other)
    ensures GetPath(SetPath(v, path, value), other) == GetPath(v, other)
    decreases |path|
  {
    assert path != [] && other != [];
    if path[0] == other[0] {
      UnrelatedTails(path, other);
      var next := if path[0] in v.entries && v.entries[path[0]].Table? then v.entries[path[0]] else Table(map[]);
      SetKeepsUnrelated(next, path[1..], value, other[1..]);
    }
  }

  lemma {:induction false} GetAfterDelete(v: Value, path: Path)
    requires v.Table? && path != []
    ensures GetPath(DeletePath(v, path), path) == Null
    decreases |path|
  {
    if |path| > 1 && path[0] in v.entries && v.entries[path[0]].Table? {
      GetAfterDelete(v.entries[path[0]], path[1..]);
    }
  }

  lemma {:induction false} DeleteKeepsUnrelated(v: Value, path: Path, other: Path)
    requires v.Table? && Unrelated(path, other)
    ensures GetPath(DeletePath(v, path), other) == GetPath(v, other)
    decreases |path|
  {
    assert path != [] && other != [];
    if path[0] == other[0] {
      UnrelatedTails(path, other);
      if path[0] in v.entries && v.entries[path[0]].Table? {
        DeleteKeepsUnrelated(v.entries[path[0]], path[1..], other[1..]);
      }
    }
  }

  /** The path is there and holds the value. */
  predicate Holds(v: Value, path: Path, value: Value)
    requires v.Table?
    decreases |path|
  {
    path != [] && path[0] in v.entries
    && if |path| == 1 then v.entries[path[0]] == value
       else v.entries[path[0]].Table? && Holds(v.entries[path[0]], path[1..], value)
  }

  lemma {:induction false} SetHolds(v: Value, path: Path, value: Value)
    requires v.Table? && path != []
    ensures Holds(SetPath(v, path, value), path, value)
    decreases |path|
  {
    if |path| > 1 {
      var next := if path[0] in v.entries && v.entries[path[0]].Table? then v.entries[path[0]] else Table(map[]);
      SetHolds(next, path[1..], value);
    }
  }

  /** Writing what is already there changes nothing. */
  lemma {:induction false} SetIsNoOp(v: Value, path: Path, value: Value)
    requires v.Table? && Holds(v, path, value)
    ensures SetPath(v, path, value) == v
    decreases |path|
  {
    if |path| > 1 {
      SetIsNoOp(v.entries[path[0]], path[1..], value);
    }
    assert v.entries[path[0] := v.entries[path[0]]] == v.entries;
  }

  lemma {:induction false} SetKeepsHolds(v: Value, path: Path, value: Value, other: Path, held: Value)
    requires v.Table? && Unrelated(path, other) && Holds(v, other, held)
    ensures Holds(SetPath(v, path, value), other, held)
    decreases |path|
  {
    assert path != [];
    if path[0] == other[0] {
      UnrelatedTails(path, other);
      SetKeepsHolds(v.entries[path[0]], path[1..], value, other[1..], held);
    }
  }
}
