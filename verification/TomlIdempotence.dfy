/** Exactly when merging the same override a second time changes nothing. */
module TomlIdempotence {
  import opened Options
  import opened Toml
  import opened TomlMerge

  ghost predicate Idempotent(base: Value, over: Value) {
    MergeValues(MergeValues(base, over), over) == MergeValues(base, over)
  }

  ghost predicate DistinctNames(items: seq<Value>) {
    && (forall i :: 0 <= i < |items| ==> NameOf(items[i]).Some? && NameOf(items[i]).value != "")
    && (forall i, j :: 0 <= i < j < |items| ==> NameOf(items[i]) != NameOf(items[j]))
  }

  /** The last namesake in the list of each override entry that has one. */
  function LastNamesakes(list: seq<Value>, over: seq<Value>): seq<Value> {
    if over == [] then []
    else
      (if Match(list, over[0]).Some? then [list[Match(list, over[0]).value]] else [])
      + LastNamesakes(list, over[1..])
  }

  /** What the base says about an override, on its own: every list merged by name has distinct,
      non-empty names in the override; every further base entry of a matched name is already a
      copy of the merged entry; and those copies lead the leftover entries in the override's
      order, so that taking the last of each instead of the first gives the same list. */
  ghost predicate Settles(base: Value, over: Value)
    decreases over
  {
    if base.Table? && over.Table? then
      forall k :: k in over.entries ==>
        if k in base.entries then Settles(base.entries[k], over.entries[k]) else WellNamed(over.entries[k])
    else if IsNamedList(base) && IsNamedList(over) then
      var leftover := Unmatched(base.items, over.items, 0);
      && DistinctNames(over.items)
      && leftover == LastNamesakes(leftover, over.items) + Unmatched(leftover, over.items, 0)
      && forall j :: 0 <= j < |over.items| ==>
           var m := Match(base.items, over.items[j]);
           if m.None? then WellNamed(over.items[j])
           else Settles(base.items[m.value], over.items[j]) && OthersAreCopies(base.items, over.items[j], m.value)
    else WellNamed(over)
  }

  ghost predicate OthersAreCopies(base: seq<Value>, entry: Value, i: nat)
    requires i < |base| && base[i].Table? && entry.Table?
  {
    forall h :: 0 <= h < |base| && h != i && NameOf(base[h]) == NameOf(entry) ==> base[h] == MergeTables(base[i], entry)
  }

  // ---------- merging into a merged list ----------

  /** The entries of `merged` whose override entry has a namesake in the list. */
  function Repeated(merged: seq<Value>, list: seq<Value>, over: seq<Value>): seq<Value>
    requires |merged| == |over|
    decreases |over|
  {
    if over == [] then []
    else (if Match(list, over[0]).Some? then [merged[0]] else []) + Repeated(merged[1..], list, over[1..])
  }

  ghost predicate SameNames(merged: seq<Value>, over: seq<Value>) {
    |merged| == |over| && forall j :: 0 <= j < |over| ==> NameOf(merged[j]) == NameOf(over[j])
  }

  lemma MatchAfter(merged: seq<Value>, list: seq<Value>, over: seq<Value>, j: nat)
    requires DistinctNames(over) && SameNames(merged, over) && j < |over|
    ensures Match(merged + list, over[j]) == if Match(list, over[j]).Some? then Some(|merged| + Match(list, over[j]).value) else Some(j)
  {
    var all, name := merged + list, NameOf(over[j]).value;
    var i := if Match(list, over[j]).Some? then |merged| + Match(list, over[j]).value else j;
    assert NameOf(all[i]) == Some(name);
    forall h | i < h < |all|
      ensures NameOf(all[h]) != Some(name)
    {
      if h < |merged| { assert all[h] == merged[h] && NameOf(merged[h]) == NameOf(over[h]); } else { assert all[h] == list[h - |merged|]; }
    }
  }

  lemma {:induction false} UnmatchedBack(merged: seq<Value>, list: seq<Value>, over: seq<Value>, i: nat)
    requires DistinctNames(over) && SameNames(merged, over) && i <= |list|
    ensures Unmatched(merged + list, over, |merged| + i) == Unmatched(list, over, i)
    decreases |list| - i
  {
    hide Match, NameOf, IsMatched, Unmatched, DistinctNames, SameNames;
    UnmatchedStep(list, over, i);
    UnmatchedStep(merged + list, over, |merged| + i);
    if i < |list| {
      UnmatchedBack(merged, list, over, i + 1);
      MatchedInBack(merged, list, over, i);
      assert (merged + list)[|merged| + i] == list[i];
    }
  }

  lemma MatchedInBack(merged: seq<Value>, list: seq<Value>, over: seq<Value>, i: nat)
    requires DistinctNames(over) && SameNames(merged, over) && i < |list|
    ensures IsMatched(merged + list, over, |merged| + i) <==> IsMatched(list, over, i)
  {
    forall j | 0 <= j < |over|
      ensures Match(merged + list, over[j]) == Some(|merged| + i) <==> Match(list, over[j]) == Some(i)
    {
      MatchAfter(merged, list, over, j);
    }
    hide Match;
  }

  lemma {:induction false} UnmatchedFront(merged: seq<Value>, list: seq<Value>, over: seq<Value>, i: nat)
    requires DistinctNames(over) && SameNames(merged, over) && i <= |over|
    ensures Unmatched(merged + list, over, i) == Repeated(merged[i..], list, over[i..]) + Unmatched(list, over, 0)
    decreases |over| - i
  {
    hide Match, NameOf, IsMatched, Unmatched, Repeated, DistinctNames;
    RepeatedStep(merged, list, over, i);
    if i == |over| {
      UnmatchedBack(merged, list, over, 0);
    } else {
      UnmatchedFront(merged, list, over, i + 1);
      UnmatchedStep(merged + list, over, i);
      MatchedInFront(merged, list, over, i);
      assert (merged + list)[i] == merged[i];
    }
  }

  lemma MatchedInFront(merged: seq<Value>, list: seq<Value>, over: seq<Value>, i: nat)
    requires DistinctNames(over) && SameNames(merged, over) && i < |over|
    ensures IsMatched(merged + list, over, i) <==> Match(list, over[i]).None?
  {
    forall j | 0 <= j < |over|
      ensures Match(merged + list, over[j]) == Some(i) <==> j == i && Match(list, over[i]).None?
    {
      MatchAfter(merged, list, over, j);
    }
  }

  lemma RepeatedStep(merged: seq<Value>, list: seq<Value>, over: seq<Value>, i: nat)
    requires |merged| == |over| && i <= |over|
    ensures Repeated(merged[i..], list, over[i..]) ==
            if i == |over| then []
            else (if Match(list, over[i]).Some? then [merged[i]] else []) + Repeated(merged[i + 1..], list, over[i + 1..])
  {
    hide Match;
    if i < |over| {
      assert merged[i..][1..] == merged[i + 1..] && over[i..][1..] == over[i + 1..];
    }
  }

  lemma UnmatchedStep(list: seq<Value>, over: seq<Value>, i: nat)
    requires i <= |list|
    ensures Unmatched(list, over, i) ==
            if i == |list| then [] else if IsMatched(list, over, i) then Unmatched(list, over, i + 1) else [list[i]] + Unmatched(list, over, i + 1)
  {
    hide IsMatched;
  }

  // ---------- entries of one name ----------

  function Namesakes(s: seq<Value>, name: string): seq<Value> {
    if s == [] then []
    else (if NameOf(s[0]) == Some(name) then [s[0]] else []) + Namesakes(s[1..], name)
  }

  lemma NamesakesCons(x: Value, rest: seq<Value>, name: string)
    ensures Namesakes([x] + rest, name) == (if NameOf(x) == Some(name) then [x] else []) + Namesakes(rest, name)
  {
    hide NameOf;
    assert ([x] + rest)[1..] == rest;
  }

  lemma {:induction false} NamesakesConcat(a: seq<Value>, b: seq<Value>, name: string)
    ensures Namesakes(a + b, name) == Namesakes(a, name) + Namesakes(b, name)
  {
    if a == [] {
      assert a + b == b;
    } else {
      hide Namesakes, NameOf;
      assert a + b == [a[0]] + (a[1..] + b) && a == [a[0]] + a[1..];
      NamesakesCons(a[0], a[1..] + b, name);
      NamesakesCons(a[0], a[1..], name);
      NamesakesConcat(a[1..], b, name);
    }
  }

  lemma {:induction false} NoNamesakes(s: seq<Value>, name: string)
    requires forall x :: x in s ==> NameOf(x) != Some(name)
    ensures Namesakes(s, name) == []
  {
    if s != [] { NoNamesakes(s[1..], name); }
  }

  lemma {:induction false} NamesakesHave(s: seq<Value>, name: string, x: Value)
    requires x in s && NameOf(x) == Some(name)
    ensures x in Namesakes(s, name)
  {
    if s[0] != x { NamesakesHave(s[1..], name, x); }
  }

  lemma {:induction false} RepeatedHas(merged: seq<Value>, list: seq<Value>, over: seq<Value>, x: Value)
    requires SameNames(merged, over) && x in Repeated(merged, list, over)
    ensures exists j :: 0 <= j < |over| && NameOf(x) == NameOf(over[j])
    decreases |over|
  {
    if Match(list, over[0]).Some? && x == merged[0] {
      assert NameOf(x) == NameOf(over[0]);
    } else {
      RepeatedHas(merged[1..], list, over[1..], x);
      var j :| 0 <= j < |over[1..]| && NameOf(x) == NameOf(over[1..][j]);
      assert NameOf(x) == NameOf(over[j + 1]);
    }
  }

  lemma {:induction false} RepeatedNamesakes(merged: seq<Value>, list: seq<Value>, over: seq<Value>, j: nat)
    requires DistinctNames(over) && SameNames(merged, over) && j < |over| && Match(list, over[j]).Some?
    ensures Namesakes(Repeated(merged, list, over), NameOf(over[j]).value) == [merged[j]]
    decreases |over|
  {
    var name := NameOf(over[j]).value;
    var rest := Repeated(merged[1..], list, over[1..]);
    var first := if Match(list, over[0]).Some? then [merged[0]] else [];
    NamesakesConcat(first, rest, name);
    if j > 0 {
      RepeatedNamesakes(merged[1..], list, over[1..], j - 1);
      NoNamesakes(first, name);
    } else {
      forall x | x in rest
        ensures NameOf(x) != Some(name)
      {
        RepeatedHas(merged[1..], list, over[1..], x);
        var k :| 0 <= k < |over[1..]| && NameOf(x) == NameOf(over[1..][k]);
        assert NameOf(over[0]) != NameOf(over[k + 1]);
      }
      NoNamesakes(rest, name);
      assert merged[0] == first[0] && NameOf(merged[0]) == Some(name);
      assert first[1..] == [] && Namesakes(first, name) == [merged[0]];
    }
  }

  function Short(s: seq<Value>): seq<Value> { if s == [] then [] else s[..|s| - 1] }

  /** Of the entries of a matched name exactly the last one is taken. */
  lemma {:induction false} UnmatchedNamesakes(list: seq<Value>, over: seq<Value>, j: nat, i: nat)
    requires j < |over| && Match(list, over[j]).Some? && i <= |list|
    ensures var name, last := NameOf(over[j]).value, Match(list, over[j]).value;
            && (Namesakes(list[i..], name) != [] <==> i <= last)
            && Namesakes(Unmatched(list, over, i), name) == Short(Namesakes(list[i..], name))
    decreases |list| - i
  {
    hide Match, NameOf, IsMatched, Namesakes, Unmatched, Short;
    MatchIsNamed(list, over[j]);
    var name, last := NameOf(over[j]).value, Match(list, over[j]).value;
    UnmatchedStep(list, over, i);
    if i == |list| {
      EmptyShort(list[i..], name);
    } else {
      var x, rest := list[i], Unmatched(list, over, i + 1);
      MatchedIsLast(list, over, j, i);
      UnmatchedNamesakes(list, over, j, i + 1);
      assert list[i..] == [x] + list[i + 1..];
      NamesakesCons(x, rest, name);
      NamesakesCons(x, list[i + 1..], name);
      ShortStep(x, NameOf(x) == Some(name), IsMatched(list, over, i), Namesakes(list[i + 1..], name), Namesakes(rest, name), i, last);
    }
  }

  lemma MatchIsNamed(list: seq<Value>, entry: Value)
    requires Match(list, entry).Some?
    ensures NameOf(entry).Some?
  {
  }

  lemma EmptyShort(s: seq<Value>, name: string)
    requires s == []
    ensures Namesakes(s, name) == [] && Namesakes([], name) == [] && Short([]) == []
  {
  }

  /** One entry more in front: kept unless it is the last of its name. */
  lemma ShortStep(x: Value, named: bool, taken: bool, next: seq<Value>, rest: seq<Value>, i: nat, last: nat)
    requires (next != [] <==> i + 1 <= last) && rest == Short(next)
    requires (named ==> i <= last && (taken <==> i == last)) && (i == last ==> named)
    ensures var mine := (if named then [x] else []) + next;
            (mine != [] <==> i <= last) && Short(mine) == if taken || !named then rest else [x] + rest
  {
    if !named { assert [] + next == next; }
  }

  lemma MatchedIsLast(list: seq<Value>, over: seq<Value>, j: nat, i: nat)
    requires j < |over| && Match(list, over[j]).Some? && i < |list|
    ensures var last := Match(list, over[j]).value;
            && NameOf(list[last]) == NameOf(over[j])
            && (NameOf(list[i]) == NameOf(over[j]) ==> i <= last && (IsMatched(list, over, i) <==> i == last))
  {
    if i == Match(list, over[j]).value { assert IsMatched(list, over, i); }
  }

  lemma {:induction false} AllEqual(s: seq<Value>, x: Value, k: nat)
    requires s != [] && s == [x] + s[..|s| - 1] && k < |s|
    ensures s[k] == x
  {
    if k > 0 {
      AllEqual(s, x, k - 1);
      assert s[k] == ([x] + s[..|s| - 1])[k] == s[k - 1];
    }
  }

  // ---------- counting the matches ----------

  ghost function MatchedFrom(base: seq<Value>, over: seq<Value>, i: nat): set<nat> {
    set m | i <= m < |base| && IsMatched(base, over, m)
  }

  lemma {:induction false} UnmatchedCount(base: seq<Value>, over: seq<Value>, i: nat)
    requires i <= |base|
    ensures |Unmatched(base, over, i)| == |base| - i - |MatchedFrom(base, over, i)|
    decreases |base| - i
  {
    hide IsMatched;
    if i < |base| {
      UnmatchedCount(base, over, i + 1);
      var next := MatchedFrom(base, over, i + 1);
      assert MatchedFrom(base, over, i) == if IsMatched(base, over, i) then next + {i} else next;
    } else {
      assert MatchedFrom(base, over, i) == {};
    }
  }

  function Values(ms: seq<Option<nat>>): set<nat> {
    if ms == [] then {}
    else (if ms[0].Some? then {ms[0].value} else {}) + Values(ms[1..])
  }

  lemma {:induction false} ValuesFacts(ms: seq<Option<nat>>)
    ensures |Values(ms)| <= |ms|
    ensures forall i :: i in Values(ms) <==> Some(i) in ms
  {
    if ms != [] {
      ValuesFacts(ms[1..]);
      assert ms == [ms[0]] + ms[1..];
    }
  }

  /** An entry without a value, or with a value that another entry has, does not count. */
  lemma Redundant(ms: seq<Option<nat>>, k: nat)
    requires k < |ms| && (ms[k].None? || exists j :: 0 <= j < |ms| && j != k && ms[j] == ms[k])
    ensures |Values(ms)| < |ms|
  {
    var others := ms[..k] + ms[k + 1..];
    ValuesFacts(ms);
    ValuesFacts(others);
    hide Values;
    forall i: nat
      ensures Some(i) in ms <==> Some(i) in others
    {
      KeepsOthers(ms, k, Some(i));
    }
    assert Values(ms) == Values(others);
  }

  lemma KeepsOthers(ms: seq<Option<nat>>, k: nat, x: Option<nat>)
    requires k < |ms| && (ms[k] == x ==> exists j :: 0 <= j < |ms| && j != k && ms[j] == x)
    ensures x in ms <==> x in ms[..k] + ms[k + 1..]
  {
    var others := ms[..k] + ms[k + 1..];
    if x in ms {
      var j :| 0 <= j < |ms| && ms[j] == x && j != k;
      assert others[if j < k then j else j - 1] == x;
    }
  }

  ghost function Matches(base: seq<Value>, over: seq<Value>): (ms: seq<Option<nat>>)
    ensures |ms| == |over| && forall j :: 0 <= j < |over| ==> ms[j] == Match(base, over[j])
  {
    seq(|over|, j requires 0 <= j < |over| => Match(base, over[j]))
  }

  lemma MatchedAreValues(base: seq<Value>, over: seq<Value>)
    ensures MatchedFrom(base, over, 0) == Values(Matches(base, over))
  {
    var ms := Matches(base, over);
    ValuesFacts(ms);
    hide Match, Values, Matches;
    forall i: nat
      ensures i in MatchedFrom(base, over, 0) <==> Some(i) in ms
    {
      if Some(i) in ms {
        var j :| 0 <= j < |ms| && ms[j] == Some(i);
        assert Match(base, over[j]) == Some(i);
      }
      if IsMatched(base, over, i) {
        var j :| 0 <= j < |over| && Match(base, over[j]) == Some(i);
        assert ms[j] == Some(i);
      }
    }
  }

  /** As many base entries matched as there are override entries only if all match apart. */
  lemma MatchesApart(base: seq<Value>, over: seq<Value>)
    requires |MatchedFrom(base, over, 0)| == |over|
    ensures forall j :: 0 <= j < |over| ==> Match(base, over[j]).Some?
    ensures forall j, k :: 0 <= j < k < |over| ==> Match(base, over[j]) != Match(base, over[k])
  {
    MatchedAreValues(base, over);
    hide Match, Values, MatchedFrom;
    var ms := Matches(base, over);
    forall k | 0 <= k < |over|
      ensures ms[k].Some? && forall j :: 0 <= j < k ==> ms[j] != ms[k]
    {
      if ms[k].None? || exists j :: 0 <= j < |ms| && j != k && ms[j] == ms[k] { Redundant(ms, k); }
    }
  }

  // ---------- lists merged by name ----------

  ghost predicate NamedLists(base: seq<Value>, over: seq<Value>) {
    IsNamedList(Array(base)) && IsNamedList(Array(over))
  }

  /** A second merge leaves a list as it is exactly if it leaves both of its parts so. */
  lemma ListIdempotentExactly(base: seq<Value>, over: seq<Value>)
    requires NamedLists(base, over)
    ensures var merged, leftover := MergeEntries(base, over), Unmatched(base, over, 0);
            && (forall i :: 0 <= i < |merged + leftover| ==> (merged + leftover)[i].Table?)
            && (Idempotent(Array(base), Array(over)) <==>
                MergeEntries(merged + leftover, over) == merged && Unmatched(merged + leftover, over, 0) == leftover)
  {
    var merged, leftover := MergeEntries(base, over), Unmatched(base, over, 0);
    var all := merged + leftover;
    AllTables(base, over);
    MergeEntriesAt(base, over, 0);
    assert "name" in merged[0].entries;
    assert all[0] == merged[0];
    assert IsNamedList(Array(all));
    var again, rest := MergeEntries(all, over), Unmatched(all, over, 0);
    assert MergeValues(Array(all), Array(over)) == Array(again + rest);
    assert again + rest == all ==> (again + rest)[..|over|] == again && (again + rest)[|over|..] == rest;
    assert all[..|over|] == merged && all[|over|..] == leftover;
  }

  lemma AllTables(base: seq<Value>, over: seq<Value>)
    requires NamedLists(base, over)
    ensures forall j :: 0 <= j < |over| ==> MergeEntries(base, over)[j].Table?
    ensures forall x :: x in Unmatched(base, over, 0) ==> x.Table?
  {
    forall j | 0 <= j < |over|
      ensures MergeEntries(base, over)[j].Table?
    {
      MergeEntriesAt(base, over, j);
    }
    forall x | x in Unmatched(base, over, 0)
      ensures x.Table?
    {
      var k :| 0 <= k < |Unmatched(base, over, 0)| && Unmatched(base, over, 0)[k] == x;
      var h := UnmatchedAt(base, over, 0, k);
    }
  }

  lemma MergedHaveNames(base: seq<Value>, over: seq<Value>)
    requires NamedLists(base, over) && DistinctNames(over)
    ensures SameNames(MergeEntries(base, over), over)
  {
    forall j | 0 <= j < |over|
      ensures NameOf(MergeEntries(base, over)[j]) == NameOf(over[j])
    {
      MergeEntriesAt(base, over, j);
      var m := Match(base, over[j]);
      if m.Some? { MergedName(base[m.value], over[j]); }
    }
  }

  /** The lengths alone force distinct, non-empty names. */
  lemma IdempotentNames(merged: seq<Value>, leftover: seq<Value>, over: seq<Value>)
    requires |merged| == |over| && Unmatched(merged + leftover, over, 0) == leftover
    ensures DistinctNames(over)
  {
    UnmatchedCount(merged + leftover, over, 0);
    MatchesApart(merged + leftover, over);
  }

  /** Taking the last of the leftover namesakes and putting the merged entry first gives the
      namesakes back only if they are all copies of the merged entry. */
  lemma NamesakesShift(merged: seq<Value>, leftover: seq<Value>, over: seq<Value>, j: nat)
    requires DistinctNames(over) && SameNames(merged, over) && Unmatched(merged + leftover, over, 0) == leftover
    requires j < |over| && Match(leftover, over[j]).Some?
    ensures var mine := Namesakes(leftover, NameOf(over[j]).value);
            mine != [] && mine == [merged[j]] + mine[..|mine| - 1]
  {
    var name := NameOf(over[j]).value;
    UnmatchedFront(merged, leftover, over, 0);
    assert merged[0..] == merged && over[0..] == over && leftover[0..] == leftover;
    RepeatedNamesakes(merged, leftover, over, j);
    UnmatchedNamesakes(leftover, over, j, 0);
    hide Namesakes, Unmatched, Match, Repeated, DistinctNames, SameNames, NameOf;
    NamesakesConcat(Repeated(merged, leftover, over), Unmatched(leftover, over, 0), name);
  }

  lemma CopiesAreMerged(merged: seq<Value>, leftover: seq<Value>, over: seq<Value>, j: nat, x: Value)
    requires DistinctNames(over) && SameNames(merged, over) && Unmatched(merged + leftover, over, 0) == leftover
    requires j < |over| && x in leftover && NameOf(x) == NameOf(over[j])
    ensures x == merged[j]
  {
    var name := NameOf(over[j]).value;
    assert Match(leftover, over[j]).Some?;
    NamesakesShift(merged, leftover, over, j);
    NamesakesHave(leftover, name, x);
    hide Namesakes, Unmatched, Match, DistinctNames, SameNames;
    var mine := Namesakes(leftover, name);
    var k :| 0 <= k < |mine| && mine[k] == x;
    AllEqual(mine, merged[j], k);
  }

  ghost predicate LeftoverAreCopies(merged: seq<Value>, leftover: seq<Value>, over: seq<Value>)
    requires |merged| == |over|
  {
    forall j, k :: 0 <= j < |over| && 0 <= k < |leftover| && NameOf(leftover[k]) == NameOf(over[j]) ==> leftover[k] == merged[j]
  }

  lemma {:induction false} LastNamesakesAreRepeated(merged: seq<Value>, leftover: seq<Value>, over: seq<Value>)
    requires |merged| == |over| && LeftoverAreCopies(merged, leftover, over)
    ensures LastNamesakes(leftover, over) == Repeated(merged, leftover, over)
    decreases |over|
  {
    if over != [] {
      assert LeftoverAreCopies(merged[1..], leftover, over[1..]);
      LastNamesakesAreRepeated(merged[1..], leftover, over[1..]);
    }
  }

  /** With copies in the leftover, each entry of the second merge is the entry merged again. */
  lemma SecondMergeAt(merged: seq<Value>, leftover: seq<Value>, over: seq<Value>, j: nat)
    requires DistinctNames(over) && SameNames(merged, over) && LeftoverAreCopies(merged, leftover, over) && j < |over|
    requires forall i :: 0 <= i < |merged + leftover| ==> (merged + leftover)[i].Table?
    requires forall i :: 0 <= i < |over| ==> over[i].Table?
    ensures merged[j].Table? && MergeEntries(merged + leftover, over)[j] == MergeTables(merged[j], over[j])
  {
    var all := merged + leftover;
    assert all[j] == merged[j];
    MergeEntriesAt(all, over, j);
    MatchAfter(merged, leftover, over, j);
    var m := Match(leftover, over[j]);
    if m.Some? { assert all[|merged| + m.value] == leftover[m.value]; }
  }

  lemma {:induction false} UnmatchedHas(base: seq<Value>, over: seq<Value>, i: nat, h: nat)
    requires i <= h < |base| && !IsMatched(base, over, h)
    ensures base[h] in Unmatched(base, over, i)
    decreases h - i
  {
    if i < h { UnmatchedHas(base, over, i + 1, h); }
  }

  /** The leftover namesakes of an override entry are the base's namesakes but the matched. */
  lemma LeftoverFromBase(base: seq<Value>, over: seq<Value>)
    requires NamedLists(base, over) && DistinctNames(over)
    ensures LeftoverAreCopies(MergeEntries(base, over), Unmatched(base, over, 0), over) <==>
            forall j :: 0 <= j < |over| && Match(base, over[j]).Some? ==> OthersAreCopies(base, over[j], Match(base, over[j]).value)
  {
    var merged, leftover := MergeEntries(base, over), Unmatched(base, over, 0);
    if LeftoverAreCopies(merged, leftover, over) {
      forall j, h | 0 <= j < |over| && Match(base, over[j]).Some? && 0 <= h < |base| && h != Match(base, over[j]).value && NameOf(base[h]) == NameOf(over[j])
        ensures base[h] == MergeTables(base[Match(base, over[j]).value], over[j])
      {
        MergeEntriesAt(base, over, j);
        MatchedIsLast(base, over, j, h);
        UnmatchedHas(base, over, 0, h);
        var k :| 0 <= k < |leftover| && leftover[k] == base[h];
      }
    }
    if forall j :: 0 <= j < |over| && Match(base, over[j]).Some? ==> OthersAreCopies(base, over[j], Match(base, over[j]).value) {
      forall j, k | 0 <= j < |over| && 0 <= k < |leftover| && NameOf(leftover[k]) == NameOf(over[j])
        ensures leftover[k] == merged[j]
      {
        MergeEntriesAt(base, over, j);
        var h := UnmatchedAt(base, over, 0, k);
        assert Match(base, over[j]).Some?;
        MatchedIsLast(base, over, j, h);
      }
    }
  }

  /** The second merge gives the parts of the first back exactly if the leftover namesakes are
      copies in place and every merged entry absorbs its override entry. */
  lemma PartsExactly(merged: seq<Value>, leftover: seq<Value>, over: seq<Value>)
    requires DistinctNames(over) && SameNames(merged, over)
    requires forall i :: 0 <= i < |merged + leftover| ==> (merged + leftover)[i].Table?
    requires forall i :: 0 <= i < |over| ==> over[i].Table? && merged[i].Table?
    ensures MergeEntries(merged + leftover, over) == merged && Unmatched(merged + leftover, over, 0) == leftover
            <==>
            && LeftoverAreCopies(merged, leftover, over)
            && leftover == LastNamesakes(leftover, over) + Unmatched(leftover, over, 0)
            && forall j :: 0 <= j < |over| ==> MergeTables(merged[j], over[j]) == merged[j]
  {
    UnmatchedFront(merged, leftover, over, 0);
    assert merged[0..] == merged && over[0..] == over;
    if Unmatched(merged + leftover, over, 0) == leftover {
      forall j, k | 0 <= j < |over| && 0 <= k < |leftover| && NameOf(leftover[k]) == NameOf(over[j])
        ensures leftover[k] == merged[j]
      {
        CopiesAreMerged(merged, leftover, over, j, leftover[k]);
      }
    }
    if LeftoverAreCopies(merged, leftover, over) {
      LastNamesakesAreRepeated(merged, leftover, over);
      forall j | 0 <= j < |over|
        ensures MergeEntries(merged + leftover, over)[j] == MergeTables(merged[j], over[j])
      {
        SecondMergeAt(merged, leftover, over, j);
      }
    }
  }

  // ---------- a value merged with itself ----------

  /** A value absorbs a merge with itself exactly when its named lists are well named; with an
      empty base this is when merging an override twice equals merging it once. */
  lemma {:induction false} SelfMergeExactly(v: Value)
    ensures MergeValues(v, v) == v <==> WellNamed(v)
    decreases v, 1
  {
    if v.Table? {
      SelfTable(v);
    } else if IsNamedList(v) {
      SelfList(v);
    }
  }

  lemma SelfTable(v: Value)
    requires v.Table?
    ensures MergeTables(v, v) == v <==> WellNamed(v)
    decreases v, 0
  {
    forall k | k in v.entries
      ensures MergeValues(v.entries[k], v.entries[k]) == v.entries[k] <==> WellNamed(v.entries[k])
    {
      SelfMergeExactly(v.entries[k]);
    }
    hide MergeValues, MergeTables;
    SelfEntries(v);
  }

  lemma SelfList(v: Value)
    requires IsNamedList(v)
    ensures MergeEntries(v.items, v.items) + Unmatched(v.items, v.items, 0) == v.items <==> WellNamed(v)
    decreases v, 0
  {
    forall j | 0 <= j < |v.items|
      ensures MergeTables(v.items[j], v.items[j]) == v.items[j] <==> WellNamed(v.items[j])
    {
      SelfMergeExactly(v.items[j]);
    }
    hide MergeTables, MergeEntries, Unmatched, NameOf;
    SelfParts(v.items);
  }

  lemma SelfEntries(v: Value)
    requires v.Table?
    ensures MergeTables(v, v) == v <==> forall k :: k in v.entries ==> MergeValues(v.entries[k], v.entries[k]) == v.entries[k]
  {
    var w := MergeTables(v, v);
    assert forall k :: k in v.entries ==> w.entries[k] == MergeValues(v.entries[k], v.entries[k]);
    hide MergeValues;
    assert w.entries.Keys == v.entries.Keys;
    assert (forall k :: k in v.entries ==> w.entries[k] == v.entries[k]) ==> w.entries == v.entries;
  }

  lemma SelfParts(items: seq<Value>)
    requires forall i :: 0 <= i < |items| ==> items[i].Table?
    ensures MergeEntries(items, items) + Unmatched(items, items, 0) == items <==>
            DistinctNames(items) && forall j :: 0 <= j < |items| ==> MergeTables(items[j], items[j]) == items[j]
  {
    hide MergeTables, NameOf, Match, MergeEntries, Unmatched, DistinctNames;
    assert items + [] == items;
    NothingLeft(items);
    if MergeEntries(items, items) + Unmatched(items, items, 0) == items {
      assert |Unmatched(items, items, 0)| == 0;
      IdempotentNames(items, [], items);
    }
    if DistinctNames(items) {
      SameNamesAsSelf(items);
      PartsExactly(items, [], items);
      assert MergeEntries(items, items) + [] == MergeEntries(items, items);
    }
  }

  lemma SameNamesAsSelf(items: seq<Value>)
    ensures SameNames(items, items) && LeftoverAreCopies(items, [], items)
  {
  }

  /** The empty leftover is in place. */
  lemma {:induction false} NothingLeft(over: seq<Value>)
    ensures LastNamesakes([], over) == [] && Unmatched([], over, 0) == []
    decreases |over|
  {
    if over != [] { NothingLeft(over[1..]); }
  }

  // ---------- the theorem ----------

  /** One entry of a list: what it takes to be left alone. */
  ghost predicate EntrySettles(base: seq<Value>, entry: Value)
    requires entry.Table? && forall i :: 0 <= i < |base| ==> base[i].Table?
  {
    var m := Match(base, entry);
    if m.None? then WellNamed(entry) else Settles(base[m.value], entry)
  }

  /** Merging an override a second time changes nothing if and only if the base settles it. */
  lemma {:induction false} IdempotentExactly(base: Value, over: Value)
    ensures Idempotent(base, over) <==> Settles(base, over)
    decreases over, 2
  {
    if base.Table? && over.Table? {
      TablesExactly(base, over);
    } else if IsNamedList(base) && IsNamedList(over) {
      ListsExactly(base, over);
    } else {
      SelfMergeExactly(over);
    }
  }

  lemma TablesExactly(base: Value, over: Value)
    requires base.Table? && over.Table?
    ensures Idempotent(base, over) <==> Settles(base, over)
    decreases over, 1
  {
    var once := MergeTables(base, over);
    var twice := MergeTables(once, over);
    forall k | k in over.entries
      ensures twice.entries[k] == once.entries[k] <==>
              if k in base.entries then Settles(base.entries[k], over.entries[k]) else WellNamed(over.entries[k])
    {
      if k in base.entries {
        IdempotentExactly(base.entries[k], over.entries[k]);
      } else {
        SelfMergeExactly(over.entries[k]);
      }
    }
    assert twice.entries.Keys == once.entries.Keys;
    assert (forall k :: k in over.entries ==> twice.entries[k] == once.entries[k]) ==> twice.entries == once.entries;
  }

  lemma EntryExactly(base: Value, over: Value, j: nat)
    requires base.Array? && over.Array? && NamedLists(base.items, over.items) && j < |over.items|
    ensures var merged := MergeEntries(base.items, over.items)[j];
            merged.Table? && (MergeTables(merged, over.items[j]) == merged <==> EntrySettles(base.items, over.items[j]))
    decreases over, 0
  {
    MergeEntriesAt(base.items, over.items, j);
    var m := Match(base.items, over.items[j]);
    if m.Some? {
      IdempotentExactly(base.items[m.value], over.items[j]);
    } else {
      SelfMergeExactly(over.items[j]);
    }
  }

  lemma ListsExactly(base: Value, over: Value)
    requires IsNamedList(base) && IsNamedList(over)
    ensures Idempotent(base, over) <==> Settles(base, over)
    decreases over, 1
  {
    hide Idempotent, Settles, Unmatched, MergeEntries, MergeTables, EntrySettles, LastNamesakes, OthersAreCopies, LeftoverAreCopies, Match, DistinctNames;
    var merged, leftover := MergeEntries(base.items, over.items), Unmatched(base.items, over.items, 0);
    assert base == Array(base.items) && over == Array(over.items);
    ListIdempotentExactly(base.items, over.items);
    forall j | 0 <= j < |over.items|
      ensures merged[j].Table? && (MergeTables(merged[j], over.items[j]) == merged[j] <==> EntrySettles(base.items, over.items[j]))
    {
      EntryExactly(base, over, j);
    }
    SettlesParts(base, over);
    if Idempotent(base, over) {
      IdempotentNames(merged, leftover, over.items);
    }
    if DistinctNames(over.items) {
      MergedHaveNames(base.items, over.items);
      LeftoverFromBase(base.items, over.items);
      PartsExactly(merged, leftover, over.items);
    }
  }

  /** The list clause of `Settles`, by parts. */
  lemma SettlesParts(base: Value, over: Value)
    requires IsNamedList(base) && IsNamedList(over)
    ensures var leftover := Unmatched(base.items, over.items, 0);
            Settles(base, over) <==>
              && DistinctNames(over.items)
              && leftover == LastNamesakes(leftover, over.items) + Unmatched(leftover, over.items, 0)
              && (forall j :: 0 <= j < |over.items| ==> EntrySettles(base.items, over.items[j]))
              && (forall j :: 0 <= j < |over.items| && Match(base.items, over.items[j]).Some? ==>
                    OthersAreCopies(base.items, over.items[j], Match(base.items, over.items[j]).value))
  {
  }

  /** Only overrides with distinct, non-empty names are idempotent on any base at all. */
  lemma {:induction false} SettlesIsWellNamed(base: Value, over: Value)
    requires Settles(base, over)
    ensures WellNamed(over)
    decreases over
  {
    if base.Table? && over.Table? {
      forall k | k in over.entries
        ensures WellNamed(over.entries[k])
      {
        if k in base.entries { SettlesIsWellNamed(base.entries[k], over.entries[k]); }
      }
    } else if IsNamedList(base) && IsNamedList(over) {
      forall j | 0 <= j < |over.items|
        ensures WellNamed(over.items[j])
      {
        var m := Match(base.items, over.items[j]);
        if m.Some? { SettlesIsWellNamed(base.items[m.value], over.items[j]); }
      }
    }
  }

  lemma {:induction false} NoneTaken(list: seq<Value>, over: seq<Value>, i: nat)
    requires i <= |list| && forall j :: 0 <= j < |over| ==> Match(list, over[j]).None?
    ensures Unmatched(list, over, i) == list[i..]
    decreases |list| - i
  {
    if i < |list| { NoneTaken(list, over, i + 1); }
  }

  lemma {:induction false} NoneRepeated(list: seq<Value>, over: seq<Value>)
    requires forall j :: 0 <= j < |over| ==> Match(list, over[j]).None?
    ensures LastNamesakes(list, over) == []
    decreases |over|
  {
    if over != [] { NoneRepeated(list, over[1..]); }
  }

  /** With each matched name once in the base, no leftover entry has one. */
  lemma OnceIsTaken(base: seq<Value>, over: seq<Value>, j: nat)
    requires j < |over|
    requires Match(base, over[j]).Some? ==>
      forall h :: 0 <= h < |base| && NameOf(base[h]) == NameOf(over[j]) ==> h == Match(base, over[j]).value
    ensures Match(Unmatched(base, over, 0), over[j]).None?
  {
    var leftover := Unmatched(base, over, 0);
    forall k | 0 <= k < |leftover|
      ensures NameOf(over[j]).Some? && NameOf(over[j]).value != "" ==> NameOf(leftover[k]) != NameOf(over[j])
    {
      var h := UnmatchedAt(base, over, 0, k);
      assert Match(base, over[j]) == Some(h) ==> IsMatched(base, over, h);
    }
  }

  lemma {:induction false} UnambiguousSettles(base: Value, over: Value)
    requires WellNamed(over) && Unambiguous(base, over)
    ensures Settles(base, over)
    decreases over
  {
    if base.Table? && over.Table? {
      forall k | k in over.entries && k in base.entries
        ensures Settles(base.entries[k], over.entries[k])
      {
        UnambiguousSettles(base.entries[k], over.entries[k]);
      }
    } else if IsNamedList(base) && IsNamedList(over) {
      var leftover := Unmatched(base.items, over.items, 0);
      forall j | 0 <= j < |over.items|
        ensures Match(leftover, over.items[j]).None?
      {
        OnceIsTaken(base.items, over.items, j);
      }
      NoneTaken(leftover, over.items, 0);
      NoneRepeated(leftover, over.items);
      forall j | 0 <= j < |over.items| && Match(base.items, over.items[j]).Some?
        ensures Settles(base.items[Match(base.items, over.items[j]).value], over.items[j])
      {
        UnambiguousSettles(base.items[Match(base.items, over.items[j]).value], over.items[j]);
      }
      SettlesParts(base, over);
    }
  }

  /** In particular merging a well-named override a second time changes nothing on a base that
      names each matched entry once. */
  lemma MergeIsIdempotent(base: Value, over: Value)
    requires WellNamed(over) && Unambiguous(base, over)
    ensures Idempotent(base, over)
  {
    UnambiguousSettles(base, over);
    IdempotentExactly(base, over);
  }

  /** Whatever the base: an idempotent override is well named; and a base that names each
      matched entry once is left alone by exactly the well-named overrides. */
  lemma IdempotentIsWellNamed(base: Value, over: Value)
    ensures Idempotent(base, over) ==> WellNamed(over)
    ensures Unambiguous(base, over) ==> (Idempotent(base, over) <==> WellNamed(over))
  {
    IdempotentExactly(base, over);
    if Settles(base, over) { SettlesIsWellNamed(base, over); }
    if Unambiguous(base, over) && WellNamed(over) { UnambiguousSettles(base, over); }
  }

  /** Entry h is a second base entry of the name entry i is matched by, and is not the merged
      entry or does not merge to it. */
  ghost predicate Clashes(base: seq<Value>, entry: Value, i: nat, h: nat)
    requires entry.Table? && forall k :: 0 <= k < |base| ==> base[k].Table?
  {
    && Match(base, entry) == Some(i) && h < |base| && h != i && NameOf(base[h]) == NameOf(entry)
    && (base[h] != MergeTables(base[i], entry) || MergeTables(base[h], entry) != MergeTables(base[i], entry))
  }

  /** Such an entry makes the merge churn, wherever it stands and whatever else the lists hold. */
  lemma RepeatedNameChurns(base: Value, over: Value, j: nat, i: nat, h: nat)
    requires IsNamedList(base) && IsNamedList(over) && j < |over.items| && Clashes(base.items, over.items[j], i, h)
    ensures !Idempotent(base, over)
  {
    IdempotentExactly(base, over);
    SettlesParts(base, over);
    IdempotentExactly(base.items[i], over.items[j]);
  }
}
