/**
 * `LogbookRenderer` (src/renderer.ts): renders one task as markdown checklist lines and a whole
 * day's tasks as a section body, under the rendering settings. The vault's indentation settings
 * (`useTab`, `tabSize`) are an input.
 */
module LogbookRenderer {
  import opened Wrappers
  import opened Seqs
  import opened TextUtils
  import opened Grouping
  import opened Things
  import opened Sections

  /** The vault configuration the renderer reads its indentation unit from. */
  datatype VaultConfig = VaultConfig(useTab: bool, tabSize: nat)

  function Tab(vault: VaultConfig): string {
    GetTab(vault.useTab, vault.tabSize)
  }

  /** The task's title linked to the task in Things. */
  function Link(task: Task): string {
    "[" + task.title + "](things:///show?id=" + task.uuid + ")"
  }

  /** A tag with each whitespace run turned into a hyphen, then lower-cased. */
  function NormalizeTag(tag: string): string {
    ToLower(ReplaceWhitespaceRuns(tag))
  }

  /** One `#prefix` hashtag per non-empty tag, in tag order. */
  function TagTokens(prefix: string, tags: seq<string>): (r: seq<string>)
    ensures |r| == |Filter(IsNonEmpty, tags)|
  {
    var kept := Filter(IsNonEmpty, tags);
    seq(|kept|, i requires 0 <= i < |kept| => "#" + prefix + NormalizeTag(kept[i]))
  }

  /** The space-separated hashtags, or nothing when tags are not included. */
  function Tags(s: Settings, task: Task): string {
    if s.includeTags then Join(TagTokens(s.tagPrefix, task.tags), " ") else ""
  }

  /** The link and the tags, trailing whitespace trimmed. */
  function TitleLine(s: Settings, task: Task): (r: string)
    ensures r != [] && !IsWhitespace(r[|r| - 1])
  {
    var raw := Link(task) + " " + Tags(s, task);
    assert raw[0] == '[';
    TrimEnd(raw)
  }

  /** The non-empty lines of the end-trimmed notes; none when the notes are absent. */
  function PlainNoteLines(task: Task): seq<string> {
    NonEmptyLines(TrimEnd(task.notes.GetOr("")))
  }

  /** The note lines, each indented by one tab unit, when note bodies are synced. */
  function NoteLines(s: Settings, tab: string, task: Task): (r: seq<string>)
    ensures forall i :: 0 <= i < |r| ==> r[i] != []
  {
    if s.doesSyncNoteBody then
      var plain := PlainNoteLines(task);
      seq(|plain|, i requires 0 <= i < |plain| => tab + plain[i])
    else []
  }

  /** The checkbox line of the task itself. */
  function FirstLine(s: Settings, task: Task): (r: string)
    ensures r != []
  {
    if |s.alternativeCheckboxPrefix| != 0 then
      (if task.cancelled then s.canceledMark else s.alternativeCheckboxPrefix) + " " + TitleLine(s, task)
    else
      "- [" + (if task.cancelled then s.canceledMark else "x") + "] " + TitleLine(s, task)
  }

  /** The line of one subtask; empty (and later dropped) when checklists are not rendered. */
  function SubtaskLine(s: Settings, tab: string, st: Subtask): string {
    if |s.alternativeCheckboxPrefix| != 0 then
      (if s.renderChecklists then tab + " " + (if st.completed then s.alternativeCheckboxPrefix else " ") + " " + st.title else "")
    else
      (if s.renderChecklists then tab + "- [" + (if st.completed then "x" else " ") + "] " + st.title else "")
  }

  function SubtaskLines(s: Settings, tab: string, subtasks: seq<Subtask>): (r: seq<string>)
    ensures |r| == |subtasks|
  {
    seq(|subtasks|, i requires 0 <= i < |subtasks| => SubtaskLine(s, tab, subtasks[i]))
  }

  /** The lines of a rendered task: the candidate lines with the empty ones filtered out. */
  function TaskLines(s: Settings, tab: string, task: Task): seq<string> {
    Filter(IsNonEmpty, [FirstLine(s, task)] + NoteLines(s, tab, task) + SubtaskLines(s, tab, task.subtasks))
  }

  /** `renderTask`: the task's lines joined by line breaks. */
  function RenderTask(s: Settings, vault: VaultConfig, task: Task): string {
    Join(TaskLines(s, Tab(vault), task), "\n")
  }

  /** The bound `this.renderTask` passed to `tasks.map`. */
  function TaskRenderer(s: Settings, vault: VaultConfig): Task -> string {
    task => RenderTask(s, vault, task)
  }

  // ---------------------------------------------------------------------------------------
  // Title line and tags

  /** Without tags the title line is exactly the link; with tags, the link, a space and the hashtags. */
  lemma TitleLineContents(s: Settings, task: Task)
    ensures !s.includeTags ==> TitleLine(s, task) == Link(task)
    ensures s.includeTags && TagTokens(s.tagPrefix, task.tags) == [] ==> TitleLine(s, task) == Link(task)
    ensures s.includeTags && TagTokens(s.tagPrefix, task.tags) != [] ==>
      TitleLine(s, task) == Link(task) + " " + Join(TagTokens(s.tagPrefix, task.tags), " ")
  {
    var link := Link(task);
    var tokens := TagTokens(s.tagPrefix, task.tags);
    if !s.includeTags || tokens == [] {
      assert link + " " + Tags(s, task) == link + " ";
      TrimEndTrailing(link, " ");
    } else {
      var kept := Filter(IsNonEmpty, task.tags);
      var last := |tokens| - 1;
      NormalizeTagFacts(kept[last]);
      var n := NormalizeTag(kept[last]);
      assert tokens[last] == "#" + s.tagPrefix + n;
      assert tokens[last][|tokens[last]| - 1] == n[|n| - 1];
      JoinLastChar(tokens, " ");
      var tagText := Join(tokens, " ");
      assert link + " " + tagText == (link + " " + tagText) + [];
      TrimEndTrailing(link + " " + tagText, []);
    }
  }

  /** A normalised tag is empty exactly when the tag is, has no whitespace and no upper-case letters. */
  lemma NormalizeTagFacts(tag: string)
    ensures |NormalizeTag(tag)| == 0 <==> |tag| == 0
    ensures NoWhitespace(NormalizeTag(tag))
    ensures forall i :: 0 <= i < |NormalizeTag(tag)| ==> !IsUpperAscii(NormalizeTag(tag)[i])
  {
    var r := ReplaceWhitespaceRuns(tag);
    forall i | 0 <= i < |r| ensures !IsWhitespace(ToLower(r)[i]) {
      assert !IsWhitespace(r[i]);
    }
  }

  /** Normalising a normalised tag changes nothing. */
  lemma NormalizeTagIdempotent(tag: string)
    ensures NormalizeTag(NormalizeTag(tag)) == NormalizeTag(tag)
  {
    var n := NormalizeTag(tag);
    NormalizeTagFacts(tag);
    assert ReplaceWhitespaceRuns(n) == n;
    assert ToLower(n) == n;
  }

  /** The i-th hashtag is `#`, the prefix and the normal form of the i-th non-empty tag. */
  lemma TagTokenAt(prefix: string, tags: seq<string>, i: int)
    requires 0 <= i < |TagTokens(prefix, tags)|
    ensures var kept := Filter(IsNonEmpty, tags);
      kept[i] != [] && kept[i] in tags && TagTokens(prefix, tags)[i] == "#" + prefix + NormalizeTag(kept[i])
  {
  }

  /**
   * The rule on a two-word tag, an empty tag and a one-word tag: the empty tag is dropped,
   * the space becomes a hyphen, both are lower-cased and prefixed, and they are joined by a space.
   */
  lemma TagRuleExample(prefix: string, a: string, b: string, c: string)
    requires a != [] && b != [] && c != []
    requires NoWhitespace(a) && NoWhitespace(b) && NoWhitespace(c)
    ensures Join(TagTokens(prefix, [a + " " + b, "", c]), " ")
      == ("#" + prefix + (ToLower(a) + "-" + ToLower(b))) + " " + ("#" + prefix + ToLower(c))
  {
    var ab := a + " " + b;
    var tags := [ab, "", c];
    KeptExampleTags(ab, c);
    NormalizeTwoWords(a, b);
    var n1 := ToLower(a) + "-" + ToLower(b);
    var t1, t2 := "#" + prefix + n1, "#" + prefix + ToLower(c);
    var tokens := TagTokens(prefix, tags);
    assert tokens == [t1, t2];
    JoinCons(t1, [t2], " ");
  }

  /** Only the empty tag of `[x, "", y]` is dropped. */
  lemma KeptExampleTags(x: string, y: string)
    requires x != [] && y != []
    ensures Filter(IsNonEmpty, [x, "", y]) == [x, y]
  {
    var tags := [x, "", y];
    assert IsNonEmpty(x) && IsNonEmpty(y) && !IsNonEmpty("");
    var t1, t2, t3 := tags[1..], tags[1..][1..], tags[1..][1..][1..];
    assert t1 == ["", y] && t2 == [y] && t3 == [];
    assert Filter(IsNonEmpty, t2) == [y] + Filter(IsNonEmpty, t3);
    assert Filter(IsNonEmpty, t1) == [] + Filter(IsNonEmpty, t2);
    assert Filter(IsNonEmpty, tags) == [x] + Filter(IsNonEmpty, t1);
  }

  /** Two words separated by one space normalise to their lower-cased forms joined by a dash. */
  lemma NormalizeTwoWords(a: string, b: string)
    requires a != [] && b != []
    requires NoWhitespace(a) && NoWhitespace(b)
    ensures NormalizeTag(a + " " + b) == ToLower(a) + "-" + ToLower(b)
  {
    var ab := a + " " + b;
    assert ReplaceWhitespaceRuns(ab) == a + "-" + b by {
      assert IsWhitespace(" "[0]);
      ReplaceRun(a, " ", b);
    }
    assert ToLower(a + "-" + b) == ToLower(a) + "-" + ToLower(b) by {
      ToLowerAppend(a + "-", b);
      ToLowerAppend(a, "-");
      assert ToLower("-") == "-";
    }
  }

  /** The example `["Deep Work", "", "urgent"]` under the prefix `things/`. */
  lemma TagExample(prefix: string, tags: seq<string>)
    requires prefix == "things/" && tags == ["Deep Work", "", "urgent"]
    ensures Join(TagTokens(prefix, tags), " ") == "#things/deep-work #things/urgent"
  {
    var a, b, c := "Deep", "Work", "urgent";
    ExampleWords(a, b, c);
    assert a + " " + b == "Deep Work";
    assert tags == [a + " " + b, "", c];
    TagRuleExample(prefix, a, b, c);
    ExampleText(prefix, ToLower(a), ToLower(b), ToLower(c));
  }

  lemma ExampleText(p: string, d: string, w: string, u: string)
    requires p == "things/" && d == "deep" && w == "work" && u == "urgent"
    ensures ("#" + p + (d + "-" + w)) + " " + ("#" + p + u) == "#things/deep-work #things/urgent"
  {
  }

  lemma ExampleWords(a: string, b: string, c: string)
    requires a == "Deep" && b == "Work" && c == "urgent"
    ensures NoWhitespace(a) && NoWhitespace(b) && NoWhitespace(c)
    ensures ToLower(a) == "deep" && ToLower(b) == "work" && ToLower(c) == "urgent"
  {
    var d, w := ToLower(a), ToLower(b);
    assert d[0] == 'd' && w[0] == 'w';
    assert forall i :: 0 <= i < 4 ==> d[i] == "deep"[i] && w[i] == "work"[i];
    ToLowerUnchanged(c);
  }

  // ---------------------------------------------------------------------------------------
  // Task lines

  lemma NonEmptyCandidates(s: Settings, tab: string, task: Task)
    ensures s.renderChecklists ==> forall i :: 0 <= i < |task.subtasks| ==> SubtaskLines(s, tab, task.subtasks)[i] != []
    ensures !s.renderChecklists ==> forall i :: 0 <= i < |task.subtasks| ==> SubtaskLines(s, tab, task.subtasks)[i] == []
  {
  }

  /** The filter drops exactly the empty subtask placeholders: first line, note lines, then subtask lines if on. */
  lemma TaskLinesShape(s: Settings, tab: string, task: Task)
    ensures TaskLines(s, tab, task) ==
      [FirstLine(s, task)] + NoteLines(s, tab, task) + (if s.renderChecklists then SubtaskLines(s, tab, task.subtasks) else [])
  {
    var first, notes, subs := [FirstLine(s, task)], NoteLines(s, tab, task), SubtaskLines(s, tab, task.subtasks);
    FilterAppend(IsNonEmpty, first + notes, subs);
    FilterAppend(IsNonEmpty, first, notes);
    FilterKeepsAll(IsNonEmpty, first);
    FilterKeepsAll(IsNonEmpty, notes);
    NonEmptyCandidates(s, tab, task);
    if s.renderChecklists {
      FilterKeepsAll(IsNonEmpty, subs);
    } else {
      FilterDropsAll(IsNonEmpty, subs);
    }
  }

  /** No rendered line is empty. */
  lemma TaskLinesNonEmpty(s: Settings, tab: string, task: Task)
    ensures forall i :: 0 <= i < |TaskLines(s, tab, task)| ==> TaskLines(s, tab, task)[i] != []
  {
  }

  /** The first line's marker, in the four cases of cancelled and alternative prefix. */
  lemma TaskFirstLine(s: Settings, tab: string, task: Task)
    ensures |TaskLines(s, tab, task)| >= 1
    ensures s.alternativeCheckboxPrefix == "" && !task.cancelled ==>
      TaskLines(s, tab, task)[0] == "- [x] " + TitleLine(s, task)
    ensures s.alternativeCheckboxPrefix == "" && task.cancelled ==>
      TaskLines(s, tab, task)[0] == "- [" + s.canceledMark + "] " + TitleLine(s, task)
    ensures s.alternativeCheckboxPrefix != "" && !task.cancelled ==>
      TaskLines(s, tab, task)[0] == s.alternativeCheckboxPrefix + " " + TitleLine(s, task)
    ensures s.alternativeCheckboxPrefix != "" && task.cancelled ==>
      TaskLines(s, tab, task)[0] == s.canceledMark + " " + TitleLine(s, task)
  {
    TaskLinesShape(s, tab, task);
  }

  /**
   * Note lines come right after the first line, one per non-empty line of the end-trimmed
   * notes, in order, each indented by the tab unit; none when note bodies are not synced.
   */
  lemma TaskNoteLines(s: Settings, tab: string, task: Task)
    ensures !s.doesSyncNoteBody ==> NoteLines(s, tab, task) == []
    ensures s.doesSyncNoteBody ==> |NoteLines(s, tab, task)| == |PlainNoteLines(task)|
    ensures s.doesSyncNoteBody ==>
      forall i :: 0 <= i < |PlainNoteLines(task)| ==> NoteLines(s, tab, task)[i] == tab + PlainNoteLines(task)[i]
    ensures 1 + |NoteLines(s, tab, task)| <= |TaskLines(s, tab, task)|
    ensures TaskLines(s, tab, task)[1..1 + |NoteLines(s, tab, task)|] == NoteLines(s, tab, task)
  {
    TaskLinesShape(s, tab, task);
  }

  /** The plain note lines restore notes that have no blank line, and a one-line note is one line. */
  lemma PlainNoteLinesFacts(task: Task)
    ensures task.notes.None? ==> PlainNoteLines(task) == []
    ensures NoBlankLine(TrimEnd(task.notes.GetOr(""))) ==> Join(PlainNoteLines(task), "\n") == TrimEnd(task.notes.GetOr(""))
    ensures var t := TrimEnd(task.notes.GetOr("")); t != [] && '\n' !in t ==> PlainNoteLines(task) == [t]
  {
    var t := TrimEnd(task.notes.GetOr(""));
    if task.notes.None? {
      NonEmptyLinesOfEmpty();
    }
    if NoBlankLine(t) {
      NonEmptyLinesRoundTrip(t);
    }
    if t != [] && '\n' !in t {
      NonEmptyLinesSingle(t);
    }
  }

  /**
   * Subtask lines come after the note lines: none unless checklists are rendered, otherwise
   * exactly one per subtask in order, in the style of the checkbox branch.
   */
  lemma TaskSubtaskLines(s: Settings, tab: string, task: Task)
    ensures !s.renderChecklists ==> TaskLines(s, tab, task) == [FirstLine(s, task)] + NoteLines(s, tab, task)
    ensures s.renderChecklists ==> |TaskLines(s, tab, task)| == 1 + |NoteLines(s, tab, task)| + |task.subtasks|
    ensures s.renderChecklists && s.alternativeCheckboxPrefix == "" ==>
      forall i :: 0 <= i < |task.subtasks| ==>
        TaskLines(s, tab, task)[1 + |NoteLines(s, tab, task)| + i]
          == tab + "- [" + (if task.subtasks[i].completed then "x" else " ") + "] " + task.subtasks[i].title
    ensures s.renderChecklists && s.alternativeCheckboxPrefix != "" ==>
      forall i :: 0 <= i < |task.subtasks| ==>
        TaskLines(s, tab, task)[1 + |NoteLines(s, tab, task)| + i]
          == tab + " " + (if task.subtasks[i].completed then s.alternativeCheckboxPrefix else " ") + " " + task.subtasks[i].title
  {
    TaskLinesShape(s, tab, task);
    if s.renderChecklists {
      IndexAfterPrefix(TaskLines(s, tab, task), FirstLine(s, task), NoteLines(s, tab, task), SubtaskLines(s, tab, task.subtasks));
      SubtaskLineForms(s, tab, task.subtasks);
    }
  }

  /** Each subtask line, in the style of the checkbox branch, when checklists are rendered. */
  lemma SubtaskLineForms(s: Settings, tab: string, subtasks: seq<Subtask>)
    requires s.renderChecklists
    ensures s.alternativeCheckboxPrefix == "" ==>
      forall i :: 0 <= i < |subtasks| ==>
        SubtaskLines(s, tab, subtasks)[i] == tab + "- [" + (if subtasks[i].completed then "x" else " ") + "] " + subtasks[i].title
    ensures s.alternativeCheckboxPrefix != "" ==>
      forall i :: 0 <= i < |subtasks| ==>
        SubtaskLines(s, tab, subtasks)[i] == tab + " " + (if subtasks[i].completed then s.alternativeCheckboxPrefix else " ") + " " + subtasks[i].title
  {
  }

  /** In `[f] + ns + xs`, position `1 + |ns| + i` holds `xs[i]`. */
  lemma IndexAfterPrefix(lines: seq<string>, f: string, ns: seq<string>, xs: seq<string>)
    requires lines == [f] + ns + xs
    ensures forall i :: 0 <= i < |xs| ==> lines[1 + |ns| + i] == xs[i]
  {
  }

  /** The rendered text splits back into exactly the task lines when no line holds a line break. */
  lemma RenderTaskSplits(s: Settings, vault: VaultConfig, task: Task)
    requires forall i :: 0 <= i < |TaskLines(s, Tab(vault), task)| ==> '\n' !in TaskLines(s, Tab(vault), task)[i]
    ensures Split(RenderTask(s, vault, task), '\n') == TaskLines(s, Tab(vault), task)
    ensures forall l :: l in Split(RenderTask(s, vault, task), '\n') ==> l != []
  {
    TaskFirstLine(s, Tab(vault), task);
    SplitJoin(TaskLines(s, Tab(vault), task), '\n');
  }

  // ---------------------------------------------------------------------------------------
  // Section body

  /** `render`: the section body for one day's tasks. */
  method Render(s: Settings, vault: VaultConfig, tasks: seq<Task>) returns (body: string)
    ensures body == Join(BodyLines(s.sectionHeading, TaskRenderer(s, vault), s.includeHeaders, tasks), "\n")
    ensures s.sectionHeading <= body
  {
    var areas := GroupBy(tasks, AreaKey);
    var headingLevel := GetHeadingLevel(s.sectionHeading);
    var render := TaskRenderer(s, vault);
    var output := [s.sectionHeading];
    var i := 0;
    while i < |areas|
      invariant 0 <= i <= |areas|
      invariant output == [s.sectionHeading] + Blocks(render, s.includeHeaders, headingLevel, areas[..i])
    {
      var (area, group) := areas[i];
      PushBlock(s.sectionHeading, render, s.includeHeaders, headingLevel, areas, i, output);
      if area != "" && s.includeHeaders {
        output := output + [ToHeading(area, headingLevel + 1)];
      }
      output := output + Map(render, group);
      i := i + 1;
    }
    assert areas[..i] == areas;
    body := Join(output, "\n");
    JoinStartsWithFirst(output, "\n");
  }

  /** A sub-heading sits one level below the section heading, whatever the area's name. */
  lemma SubHeadingLevel(s: Settings, area: string)
    requires area != "" && s.includeHeaders
    ensures SubHeading(area, s.includeHeaders, GetHeadingLevel(s.sectionHeading)) == [ToHeading(area, GetHeadingLevel(s.sectionHeading) + 1)]
    ensures GetHeadingLevel(ToHeading(area, GetHeadingLevel(s.sectionHeading) + 1)) == GetHeadingLevel(s.sectionHeading) + 1
  {
    HeadingLevelOfToHeading(area, GetHeadingLevel(s.sectionHeading) + 1);
  }
}
