/** The configuration object the operator edits in place. */
module TomlConfigs {
  import opened Options
  import opened Toml
  import opened TomlMerge

  /** A configuration as the operator holds it, edited in place; a nil root is `None`. */
  class TomlConfig {
    var root: Option<map<string, Value>>

    ghost function Tree(): (t: Value)
      reads this
      ensures t.Table?
    {
      Table(if root.Some? then root.value else map[])
    }

    constructor (initial: Option<map<string, Value>>)
      ensures root == initial
    {
      root := initial;
    }

    method Set(path: Path, value: Value)
      modifies this
      ensures root.Some? && Tree() == SetPath(old(Tree()), path, value)
    {
      if root.None? {
        root := Some(map[]);
      }
      root := Some(SetPath(Table(root.value), path, value).entries);
    }

    /** Creates the root if there is none, then merges into it. */
    method MergeDeep(over: map<string, Value>)
      modifies this
      ensures root.Some? && Tree() == MergeTables(old(Tree()), Table(over))
    {
      if root.None? {
        root := Some(map[]);
      }
      var merged := DeepMergeMap(Table(root.value), Table(over));
      root := Some(merged.entries);
    }

    method Del(path: Path)
      requires path != []
      modifies this
      ensures Tree() == DeletePath(old(Tree()), path)
      ensures old(root).None? ==> root.None?
    {
      if root.None? {
        DeleteFromEmpty(path);
        return;
      }
      root := Some(DeletePath(Table(root.value), path).entries);
    }
  }

  lemma DeleteFromEmpty(path: Path)
    requires path != []
    ensures DeletePath(Table(map[]), path) == Table(map[])
  {
    var empty: map<string, Value> := map[];
    assert empty - {path[0]} == empty;
  }
}
