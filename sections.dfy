/**
 * The section body both renderers build: the section heading line, then for each area group in
 * first-seen order an optional sub-heading one level below the section heading, then the
 * rendered tasks of that area. The two renderers differ only in how a task is rendered and in
 * whether sub-headings are switched by a setting.
 */
module Sections {
  import opened Seqs
  import opened TextUtils
  import opened Grouping
  import opened Things

  /** The sub-heading line an area contributes: none for the empty area or with headers off. */
  function SubHeading(area: string, includeHeaders: bool, level: nat): seq<string> {
    if area != "" && includeHeaders then [ToHeading(area, level + 1)] else []
  }

  /** The lines one area group contributes. */
  function Block(render: Task -> string, includeHeaders: bool, level: nat, group: (string, seq<Task>)): seq<string> {
    SubHeading(group.0, includeHeaders, level) + Map(render, group.1)
  }

  function Blocks(render: Task -> string, includeHeaders: bool, level: nat, groups: seq<(string, seq<Task>)>): seq<string> {
    if groups == [] then [] else Block(render, includeHeaders, level, groups[0]) + Blocks(render, includeHeaders, level, groups[1..])
  }

  /** `groupBy(tasks, (task) => task.area || "")`. */
  function AreaGroups(tasks: seq<Task>): seq<(string, seq<Task>)> {
    GroupBy(tasks, AreaKey)
  }

  /** The lines of a section body, before they are joined with line breaks. */
  function BodyLines(heading: string, render: Task -> string, includeHeaders: bool, tasks: seq<Task>): seq<string> {
    [heading] + Blocks(render, includeHeaders, GetHeadingLevel(heading), AreaGroups(tasks))
  }

  /** The areas that get a sub-heading when headers are on. */
  ghost function NamedAreas(tasks: seq<Task>): set<string> {
    set t | t in tasks && AreaKey(t) != "" :: AreaKey(t)
  }

  lemma {:induction false} BlocksSnoc(render: Task -> string, includeHeaders: bool, level: nat, groups: seq<(string, seq<Task>)>, g: (string, seq<Task>))
    ensures Blocks(render, includeHeaders, level, groups + [g]) == Blocks(render, includeHeaders, level, groups) + Block(render, includeHeaders, level, g)
  {
    if groups == [] {
      assert [] + [g] == [g];
      assert Blocks(render, includeHeaders, level, [g]) == Block(render, includeHeaders, level, g) + Blocks(render, includeHeaders, level, []);
    } else {
      assert (groups + [g])[1..] == groups[1..] + [g];
      BlocksSnoc(render, includeHeaders, level, groups[1..], g);
    }
  }

  /** One step of the rendering loop: pushing a group's sub-heading (if due) and its tasks extends the body by its block. */
  lemma PushBlock(heading: string, render: Task -> string, includeHeaders: bool, level: nat, groups: seq<(string, seq<Task>)>, i: int, output: seq<string>)
    requires 0 <= i < |groups|
    requires output == [heading] + Blocks(render, includeHeaders, level, groups[..i])
    ensures groups[i].0 != "" && includeHeaders ==>
      output + [ToHeading(groups[i].0, level + 1)] + Map(render, groups[i].1) == [heading] + Blocks(render, includeHeaders, level, groups[..i + 1])
    ensures !(groups[i].0 != "" && includeHeaders) ==>
      output + Map(render, groups[i].1) == [heading] + Blocks(render, includeHeaders, level, groups[..i + 1])
  {
    BlocksSnoc(render, includeHeaders, level, groups[..i], groups[i]);
    assert groups[..i + 1] == groups[..i] + [groups[i]];
  }

  lemma {:induction false} BlocksWithoutHeaders(render: Task -> string, level: nat, groups: seq<(string, seq<Task>)>)
    ensures Blocks(render, false, level, groups) == Map(render, Flatten(groups))
  {
    if groups != [] {
      BlocksWithoutHeaders(render, level, groups[1..]);
      MapAppend(render, groups[0].1, Flatten(groups[1..]));
    }
  }

  /**
   * With headers off, the body is the heading followed by every task rendered, group after
   * group; the tasks rendered are exactly the input tasks, each once.
   */
  lemma BodyWithoutHeaders(heading: string, render: Task -> string, tasks: seq<Task>)
    ensures BodyLines(heading, render, false, tasks) == [heading] + Map(render, Flatten(AreaGroups(tasks)))
    ensures multiset(Flatten(AreaGroups(tasks))) == multiset(tasks)
  {
    BlocksWithoutHeaders(render, GetHeadingLevel(heading), AreaGroups(tasks));
    GroupByPermutes(tasks, AreaKey);
  }

  /** Each group's block is a contiguous run of the blocks' lines. */
  lemma {:induction false} BlockInBlocks(render: Task -> string, includeHeaders: bool, level: nat, groups: seq<(string, seq<Task>)>, i: int) returns (p: nat)
    requires 0 <= i < |groups|
    ensures var b := Block(render, includeHeaders, level, groups[i]);
      var bs := Blocks(render, includeHeaders, level, groups);
      p + |b| <= |bs| && bs[p..p + |b|] == b
  {
    var b0 := Block(render, includeHeaders, level, groups[0]);
    var rest := Blocks(render, includeHeaders, level, groups[1..]);
    var b := Block(render, includeHeaders, level, groups[i]);
    assert Blocks(render, includeHeaders, level, groups) == b0 + rest;
    if i == 0 {
      p := 0;
      SliceOfAppend(b0, rest, 0, |b0|);
    } else {
      var q := BlockInBlocks(render, includeHeaders, level, groups[1..], i - 1);
      assert groups[1..][i - 1] == groups[i];
      assert q + |b| <= |rest| && rest[q..q + |b|] == b;
      p := |b0| + q;
      SliceOfAppend(b0, rest, p, p + |b|);
    }
  }

  /** A slice of `a + b` lying wholly within `a` or wholly within `b`. */
  lemma SliceOfAppend(a: seq<string>, b: seq<string>, lo: int, hi: int)
    requires 0 <= lo <= hi <= |a| + |b|
    ensures hi <= |a| ==> (a + b)[lo..hi] == a[lo..hi]
    ensures |a| <= lo ==> (a + b)[lo..hi] == b[lo - |a|..hi - |a|]
  {
  }

  /**
   * Every area of the input has its block in the body, after the heading line and all in one
   * run: its sub-heading when one is due, then the area's tasks rendered in input order.
   */
  lemma BodyAreaBlock(heading: string, render: Task -> string, includeHeaders: bool, tasks: seq<Task>, t: Task) returns (p: nat)
    requires t in tasks
    ensures var b := SubHeading(AreaKey(t), includeHeaders, GetHeadingLevel(heading)) + Map(render, Select(tasks, AreaKey, AreaKey(t)));
      var lines := BodyLines(heading, render, includeHeaders, tasks);
      1 <= p && p + |b| <= |lines| && lines[p..p + |b|] == b
  {
    var groups := AreaGroups(tasks);
    var level := GetHeadingLevel(heading);
    var i := GroupOf(tasks, AreaKey, t);
    var q := BlockInBlocks(render, includeHeaders, level, groups, i);
    p := q + 1;
    var bs := Blocks(render, includeHeaders, level, groups);
    assert ([heading] + bs)[p..p + |Block(render, includeHeaders, level, groups[i])|] == bs[q..q + |Block(render, includeHeaders, level, groups[i])|];
  }

  /** When all tasks share one area, the body is the heading, that area's sub-heading if due, then the tasks in input order. */
  lemma BodySingleArea(heading: string, render: Task -> string, includeHeaders: bool, tasks: seq<Task>, area: string)
    requires tasks != []
    requires forall i :: 0 <= i < |tasks| ==> AreaKey(tasks[i]) == area
    ensures BodyLines(heading, render, includeHeaders, tasks) == [heading] + SubHeading(area, includeHeaders, GetHeadingLevel(heading)) + Map(render, tasks)
  {
    GroupBySingleKey(tasks, AreaKey, area);
    var level := GetHeadingLevel(heading);
    var g := (area, tasks);
    assert Blocks(render, includeHeaders, level, [g]) == Block(render, includeHeaders, level, g) + Blocks(render, includeHeaders, level, []);
  }

  function NamedCount(groups: seq<(string, seq<Task>)>): nat {
    if groups == [] then 0 else (if groups[0].0 != "" then 1 else 0) + NamedCount(groups[1..])
  }

  lemma {:induction false} BlocksLength(render: Task -> string, includeHeaders: bool, level: nat, groups: seq<(string, seq<Task>)>)
    ensures |Blocks(render, includeHeaders, level, groups)| == |Flatten(groups)| + (if includeHeaders then NamedCount(groups) else 0)
  {
    if groups != [] {
      BlocksLength(render, includeHeaders, level, groups[1..]);
    }
  }

  ghost function NamedKeys(groups: seq<(string, seq<Task>)>): set<string> {
    set i | 0 <= i < |groups| && groups[i].0 != "" :: groups[i].0
  }

  lemma {:induction false} NamedCountDistinct(groups: seq<(string, seq<Task>)>)
    requires forall i, j :: 0 <= i < j < |groups| ==> groups[i].0 != groups[j].0
    ensures NamedCount(groups) == |NamedKeys(groups)|
  {
    if groups != [] {
      var rest := groups[1..];
      NamedCountDistinct(rest);
      var head := if groups[0].0 != "" then {groups[0].0} else {};
      NamedKeysCons(groups);
      NamedHeadFresh(groups);
      assert head !! NamedKeys(rest);
      assert |head + NamedKeys(rest)| == |head| + |NamedKeys(rest)|;
    }
  }

  lemma NamedKeysCons(groups: seq<(string, seq<Task>)>)
    requires groups != []
    ensures NamedKeys(groups) == (if groups[0].0 != "" then {groups[0].0} else {}) + NamedKeys(groups[1..])
  {
    var rest := groups[1..];
    var head := if groups[0].0 != "" then {groups[0].0} else {};
    forall x | x in NamedKeys(groups) ensures x in head + NamedKeys(rest) {
      var i :| 0 <= i < |groups| && groups[i].0 != "" && groups[i].0 == x;
      if i > 0 { assert rest[i - 1].0 == x; }
    }
    forall x | x in NamedKeys(rest) ensures x in NamedKeys(groups) {
      var i :| 0 <= i < |rest| && rest[i].0 != "" && rest[i].0 == x;
      assert groups[i + 1].0 == x;
    }
  }

  lemma NamedHeadFresh(groups: seq<(string, seq<Task>)>)
    requires groups != []
    requires forall i, j :: 0 <= i < j < |groups| ==> groups[i].0 != groups[j].0
    ensures groups[0].0 !in NamedKeys(groups[1..])
  {
    var rest := groups[1..];
    forall x | x in NamedKeys(rest) ensures x != groups[0].0 {
      var i :| 0 <= i < |rest| && rest[i].0 != "" && rest[i].0 == x;
      assert groups[i + 1].0 == x;
    }
  }

  /**
   * The body has one line for the heading, one per task, and, with headers on, one per
   * distinct non-empty area.
   */
  lemma BodyLength(heading: string, render: Task -> string, includeHeaders: bool, tasks: seq<Task>)
    ensures |BodyLines(heading, render, includeHeaders, tasks)| == 1 + |tasks| + (if includeHeaders then |NamedAreas(tasks)| else 0)
  {
    var groups := AreaGroups(tasks);
    BlocksLength(render, includeHeaders, GetHeadingLevel(heading), groups);
    GroupByPermutes(tasks, AreaKey);
    assert |Flatten(groups)| == |multiset(Flatten(groups))| == |multiset(tasks)| == |tasks|;
    GroupByIsGrouping(tasks, AreaKey);
    NamedCountDistinct(groups);
    assert NamedKeys(groups) == NamedAreas(tasks) by {
      forall a | a in NamedKeys(groups) ensures a in NamedAreas(tasks) {
        var i :| 0 <= i < |groups| && groups[i].0 != "" && groups[i].0 == a;
        var t := groups[i].1[0];
        assert t in Select(tasks, AreaKey, a);
        SelectSubset(tasks, AreaKey, a, t);
      }
      forall a | a in NamedAreas(tasks) ensures a in NamedKeys(groups) {
        var t :| t in tasks && AreaKey(t) != "" && AreaKey(t) == a;
        var k :| 0 <= k < |tasks| && tasks[k] == t;
        assert HasKey(groups, AreaKey(tasks[k]));
      }
    }
  }
}
