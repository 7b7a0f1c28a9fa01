/**
 * `ThingsLogbookPlugin` (src/index.ts): the older task renderer, the day grouping of one sync
 * cycle, the reschedule arithmetic and the options merge.
 *
 * The host is abstract: the clock is a parameter `now` (seconds, as `moment().unix()` gives),
 * the fetched Things records are a parameter, the day of a timestamp is a parameter `dayOf`
 * (standing for `moment.unix(t).startOf("day").format()`), and the host's timers are a handle
 * counter plus a ghost table of live timers.
 */
module ThingsLogbook {
  import opened Wrappers
  import opened Seqs
  import opened TextUtils
  import opened Grouping
  import opened Things
  import opened Sections

  /** The heading every day's section is merged under, whatever the section heading setting says. */
  const LogbookHeading := "## Logbook"

  // ---------------------------------------------------------------------------------------
  // The older renderer: `renderTask` and `renderTasks`

  /** One `#prefix` hashtag per non-empty tag, the tag taken verbatim. */
  function TagTokens(prefix: string, tags: seq<string>): (r: seq<string>)
    ensures |r| == |Filter(IsNonEmpty, tags)|
  {
    var kept := Filter(IsNonEmpty, tags);
    seq(|kept|, i requires 0 <= i < |kept| => "#" + prefix + kept[i])
  }

  /** The first line before `trimEnd`. */
  function RawTitleLine(prefix: string, task: Task): string {
    "- [x] " + task.title + " " + Join(TagTokens(prefix, task.tags), " ")
  }

  function TitleLine(prefix: string, task: Task): string {
    TrimEnd(RawTitleLine(prefix, task))
  }

  function SubtaskLine(st: Subtask): string {
    "  - [" + (if st.completed then "x" else " ") + "] " + st.title
  }

  function TaskLines(prefix: string, task: Task): seq<string> {
    [TitleLine(prefix, task)] + seq(|task.subtasks|, i requires 0 <= i < |task.subtasks| => SubtaskLine(task.subtasks[i]))
  }

  /** `renderTask` of the plugin class. */
  function RenderTask(prefix: string, task: Task): string {
    Join(TaskLines(prefix, task), "\n")
  }

  /** The bound `this.renderTask` passed to `tasks.map`. */
  function TaskRenderer(prefix: string): Task -> string {
    (task: Task) => RenderTask(prefix, task)
  }

  /** The body `renderTasks` produces: sub-headings for every named area, unconditionally. */
  function SectionBody(heading: string, prefix: string, tasks: seq<Task>): string {
    Join(BodyLines(heading, TaskRenderer(prefix), true, tasks), "\n")
  }

  /** The first line is always checked (`- [x]`, even for a cancelled task) and never ends in whitespace. */
  lemma TitleLineChecked(prefix: string, task: Task)
    ensures "- [x]" <= TitleLine(prefix, task)
    ensures var t := TitleLine(prefix, task); !IsWhitespace(t[|t| - 1])
  {
    var raw := RawTitleLine(prefix, task);
    var rest := task.title + " " + Join(TagTokens(prefix, task.tags), " ");
    assert raw == "- [x] " + rest;
    assert raw[..5] == "- [x]";
    TrimEndKeepsPrefix(raw, "- [x]");
  }

  /** Without any non-empty tag the line is the trimmed `- [x] title`. */
  lemma TitleLineWithoutTags(prefix: string, task: Task)
    requires Filter(IsNonEmpty, task.tags) == []
    ensures TitleLine(prefix, task) == TrimEnd("- [x] " + task.title)
  {
    assert Join(TagTokens(prefix, task.tags), " ") == [];
    assert RawTitleLine(prefix, task) == ("- [x] " + task.title) + " ";
    TrimEndIgnoresTrailing("- [x] " + task.title, " ");
  }

  /** When the last non-empty tag does not end in whitespace, nothing is trimmed. */
  lemma TitleLineWithTags(prefix: string, task: Task)
    requires var kept := Filter(IsNonEmpty, task.tags);
      kept != [] && !IsWhitespace(kept[|kept| - 1][|kept[|kept| - 1]| - 1])
    ensures TitleLine(prefix, task) == "- [x] " + task.title + " " + Join(TagTokens(prefix, task.tags), " ")
  {
    TagTextEnd(prefix, task.tags);
    TrimEndOfText("- [x] " + task.title + " ", Join(TagTokens(prefix, task.tags), " "));
  }

  /** The joined hashtags end in the last non-empty tag's last character. */
  lemma TagTextEnd(prefix: string, tags: seq<string>)
    requires var kept := Filter(IsNonEmpty, tags);
      kept != [] && !IsWhitespace(kept[|kept| - 1][|kept[|kept| - 1]| - 1])
    ensures var j := Join(TagTokens(prefix, tags), " "); j != [] && !IsWhitespace(j[|j| - 1])
  {
    var kept := Filter(IsNonEmpty, tags);
    var tokens := TagTokens(prefix, tags);
    var last := |tokens| - 1;
    assert tokens[last] == "#" + prefix + kept[last];
    assert tokens[last][|tokens[last]| - 1] == kept[last][|kept[last]| - 1];
    JoinLastChar(tokens, " ");
  }

  /** Tags are emitted verbatim: the i-th hashtag is `#`, the prefix and the i-th non-empty tag, case and spaces kept. */
  lemma TagTokenAt(prefix: string, tags: seq<string>, i: int)
    requires 0 <= i < |TagTokens(prefix, tags)|
    ensures var kept := Filter(IsNonEmpty, tags);
      kept[i] != [] && kept[i] in tags && TagTokens(prefix, tags)[i] == "#" + prefix + kept[i]
  {
  }

  /** Every subtask gives one line, in order, with no setting to switch it off. */
  lemma SubtaskLinesAlways(prefix: string, task: Task)
    ensures |TaskLines(prefix, task)| == 1 + |task.subtasks|
    ensures forall i :: 0 <= i < |task.subtasks| ==>
      TaskLines(prefix, task)[1 + i] == "  - [" + (if task.subtasks[i].completed then "x" else " ") + "] " + task.subtasks[i].title
  {
  }

  /**
   * Every named area of the input gets its sub-heading, one level below the section heading,
   * followed directly by the area's tasks in input order; no setting switches it off.
   */
  lemma EveryAreaHeaded(heading: string, prefix: string, tasks: seq<Task>, t: Task) returns (p: nat)
    requires t in tasks && AreaKey(t) != ""
    ensures var lines := BodyLines(heading, TaskRenderer(prefix), true, tasks);
      var run := [ToHeading(AreaKey(t), GetHeadingLevel(heading) + 1)] + Map(TaskRenderer(prefix), Select(tasks, AreaKey, AreaKey(t)));
      1 <= p && p + |run| <= |lines| && lines[p..p + |run|] == run
  {
    p := BodyAreaBlock(heading, TaskRenderer(prefix), true, tasks, t);
  }

  // ---------------------------------------------------------------------------------------
  // One sync cycle's grouping by day

  /** `!!task.stopDate`: present and not zero. */
  predicate HasStopDate(task: Task) {
    task.stopDate.Some? && task.stopDate.value != 0
  }

  function DayKey(dayOf: int -> string): Task -> string {
    (task: Task) => dayOf(task.stopDate.GetOr(0))
  }

  /** A dated task's key is the day of its stop date. */
  lemma DayKeyOfDated(dayOf: int -> string, t: Task)
    requires HasStopDate(t)
    ensures DayKey(dayOf)(t) == dayOf(t.stopDate.value)
  {
    assert t.stopDate.GetOr(0) == t.stopDate.value;
  }

  /** `groupBy(tasks.filter((task) => task.stopDate), …)`: the tasks of each completion day. */
  function DaysToTasks(tasks: seq<Task>, dayOf: int -> string): seq<(string, seq<Task>)> {
    GroupBy(Filter(HasStopDate, tasks), DayKey(dayOf))
  }

  /** Reference: the tasks with a stop date on day `day`, in input order. */
  function TasksOnDay(tasks: seq<Task>, dayOf: int -> string, day: string): seq<Task> {
    if tasks == [] then []
    else
      var n := |tasks| - 1;
      var t := tasks[n];
      TasksOnDay(tasks[..n], dayOf, day) + (if HasStopDate(t) && dayOf(t.stopDate.value) == day then [t] else [])
  }

  lemma {:induction false} SelectDated(tasks: seq<Task>, dayOf: int -> string, day: string)
    ensures Select(Filter(HasStopDate, tasks), DayKey(dayOf), day) == TasksOnDay(tasks, dayOf, day)
  {
    if tasks != [] {
      var n := |tasks| - 1;
      var pre, t := tasks[..n], tasks[n];
      var key := DayKey(dayOf);
      assert tasks == pre + [t];
      SelectDated(pre, dayOf, day);
      FilterSnoc(HasStopDate, pre, t);
      var f := Filter(HasStopDate, pre);
      var here := if HasStopDate(t) && dayOf(t.stopDate.value) == day then [t] else [];
      assert TasksOnDay(tasks, dayOf, day) == TasksOnDay(pre, dayOf, day) + here;
      if HasStopDate(t) {
        SelectSnoc(f, key, day, t);
        DayKeyOfDated(dayOf, t);
        assert Select(f + [t], key, day) == Select(f, key, day) + here;
      } else {
        assert Filter(HasStopDate, tasks) == f;
      }
    }
  }

  /**
   * Each day group is exactly the tasks with a stop date on that day, in input order; the days
   * are distinct; and every dated task is in the group of its day.
   */
  lemma DayGroups(tasks: seq<Task>, dayOf: int -> string)
    ensures var days := DaysToTasks(tasks, dayOf);
      (forall i :: 0 <= i < |days| ==> days[i].1 == TasksOnDay(tasks, dayOf, days[i].0) && days[i].1 != [])
      && (forall i, j :: 0 <= i < j < |days| ==> days[i].0 != days[j].0)
  {
    var dated := Filter(HasStopDate, tasks);
    GroupByIsGrouping(dated, DayKey(dayOf));
    var days := DaysToTasks(tasks, dayOf);
    forall i | 0 <= i < |days| ensures days[i].1 == TasksOnDay(tasks, dayOf, days[i].0) {
      SelectDated(tasks, dayOf, days[i].0);
    }
  }

  /** Only tasks with a (non-zero) stop date are grouped: an undated task is in no day group. */
  lemma UndatedDropped(tasks: seq<Task>, dayOf: int -> string)
    ensures forall j, t :: 0 <= j < |DaysToTasks(tasks, dayOf)| && t in DaysToTasks(tasks, dayOf)[j].1 ==> HasStopDate(t) && t in tasks
  {
    var dated := Filter(HasStopDate, tasks);
    var days := DaysToTasks(tasks, dayOf);
    GroupByIsGrouping(dated, DayKey(dayOf));
    forall j, t | 0 <= j < |days| && t in days[j].1 ensures HasStopDate(t) && t in tasks {
      assert days[j].1 == Select(dated, DayKey(dayOf), days[j].0);
      SelectSubset(dated, DayKey(dayOf), days[j].0, t);
      var k :| 0 <= k < |dated| && dated[k] == t;
    }
  }

  /** A task with a stop date is in the group of its day. */
  lemma DatedKept(tasks: seq<Task>, dayOf: int -> string, t: Task) returns (i: nat)
    requires t in tasks && HasStopDate(t)
    ensures i < |DaysToTasks(tasks, dayOf)|
    ensures DaysToTasks(tasks, dayOf)[i].0 == dayOf(t.stopDate.value) && t in DaysToTasks(tasks, dayOf)[i].1
  {
    var dated := Filter(HasStopDate, tasks);
    var k :| 0 <= k < |tasks| && tasks[k] == t;
    assert t in dated;
    i := GroupOf(dated, DayKey(dayOf), t);
    DayKeyOfDated(dayOf, t);
    SelectMemberIn(dated, DayKey(dayOf), t);
  }

  // ---------------------------------------------------------------------------------------
  // Scheduling arithmetic

  /** `options.latestSyncTime || 0`: an unset or zero watermark reads as 0. */
  function Watermark(o: Options): (w: int)
    ensures w == o.latestSyncTime.GetOr(0)
  {
    if o.latestSyncTime.Some? && o.latestSyncTime.value != 0 then o.latestSyncTime.value else 0
  }

  /**
   * `Math.max(latestSyncTime + syncInterval * 1000 - now, 0)`, as written: the interval is
   * scaled to milliseconds while the watermark and the clock stay in seconds.
   */
  function NextSyncDelay(latestSyncTime: int, syncInterval: int, now: int): (delay: int)
    ensures delay >= 0
    ensures delay >= latestSyncTime + syncInterval * 1000 - now
    ensures delay == 0 || delay == latestSyncTime + syncInterval * 1000 - now
  {
    var syncIntervalMs := syncInterval * 1000;
    if latestSyncTime + syncIntervalMs - now > 0 then latestSyncTime + syncIntervalMs - now else 0
  }

  /**
   * Because of the mixed units, one minute after a sync with a one-minute interval the delay is
   * still 59940 ms, not 0, and 100 seconds after it 59900 ms: each elapsed second shortens the
   * delay by one millisecond.
   */
  lemma DelayExamples()
    ensures NextSyncDelay(1000, 60, 1000) == 60000
    ensures NextSyncDelay(1000, 60, 1060) == 59940
    ensures NextSyncDelay(1000, 60, 1100) == 59900
    ensures NextSyncDelay(1000, 60, 61000) == 0
  {
  }

  /** A later clock never gives a longer delay. */
  lemma DelayNonIncreasing(latestSyncTime: int, syncInterval: int, now1: int, now2: int)
    requires now1 <= now2
    ensures NextSyncDelay(latestSyncTime, syncInterval, now2) <= NextSyncDelay(latestSyncTime, syncInterval, now1)
  {
  }

  /** Rescheduling right after a sync waits one interval (in milliseconds). */
  lemma DelayAfterSync(syncInterval: int, now: int)
    requires syncInterval >= 0
    ensures NextSyncDelay(now, syncInterval, now) == syncInterval * 1000
  {
  }

  /** The diff the success continuation writes. */
  function LatestSyncTimeOnly(now: int): (d: Options)
    ensures d.latestSyncTime == Some(now) && d.syncInterval.None?
    ensures d.sectionHeading.None? && d.tagPrefix.None? && d.includeTags.None? && d.includeHeaders.None?
    ensures d.doesSyncNoteBody.None? && d.renderChecklists.None?
    ensures d.canceledMark.None? && d.alternativeCheckboxPrefix.None?
  {
    NoOptions.(latestSyncTime := Some(now))
  }

  /** Merging the success diff moves the watermark to `now` and leaves every other field as it was. */
  lemma MergeLatestSyncTime(o: Options, now: int)
    ensures Merge(o, LatestSyncTimeOnly(now)) == o.(latestSyncTime := Some(now))
  {
  }

  /** A day's merge request: the section heading to merge under and the rendered body. */
  datatype SectionUpdate = SectionUpdate(day: string, heading: string, body: string)

  // ---------------------------------------------------------------------------------------
  // The plugin object

  class ThingsLogbookPlugin {
    /** The stored options, as loaded (fields may be missing) and then merged into. */
    var options: Options
    /** The handle of the last timer this object armed, if any. */
    var syncTimeoutId: Option<nat>
    /** `defaultSettings`, `DEFAULT_TAG_PREFIX` and `DEFAULT_SECTION_HEADING` (defined outside this model). */
    const defaults: Settings
    const defaultTagPrefix: string
    const defaultSectionHeading: string
    /** The host: the handle its next `setTimeout` returns, and the timers still pending (handle to delay in ms). */
    var nextHandle: nat
    ghost var liveTimers: map<nat, int>
    /** The option records handed to `saveData`, oldest first. */
    ghost var saved: seq<Options>

    /** At most one timer armed here is pending, and it is the one `syncTimeoutId` holds. */
    ghost predicate Valid()
      reads this
    {
      (syncTimeoutId.None? ==> liveTimers.Keys == {})
      && (syncTimeoutId.Some? ==> liveTimers.Keys <= {syncTimeoutId.value})
      && (forall h :: h in liveTimers ==> h < nextHandle)
    }

    /** Construction followed by `loadOptions`: the loaded record, or no options at all. */
    constructor (defaults: Settings, defaultTagPrefix: string, defaultSectionHeading: string, loaded: Option<Options>)
      ensures Valid()
      ensures this.defaults == defaults && this.defaultTagPrefix == defaultTagPrefix
      ensures this.defaultSectionHeading == defaultSectionHeading
      ensures options == loaded.GetOr(NoOptions) && syncTimeoutId == None
      ensures liveTimers == map[] && saved == []
    {
      this.defaults := defaults;
      this.defaultTagPrefix := defaultTagPrefix;
      this.defaultSectionHeading := defaultSectionHeading;
      options := loaded.GetOr(NoOptions);
      syncTimeoutId := None;
      nextHandle := 0;
      liveTimers := map[];
      saved := [];
    }

    /** `this.options.tagPrefix ?? DEFAULT_TAG_PREFIX`. */
    function TagPrefix(): string
      reads this
    {
      options.tagPrefix.GetOr(defaultTagPrefix)
    }

    /** `const { sectionHeading = DEFAULT_SECTION_HEADING } = this.options`. */
    function SectionHeading(): string
      reads this
    {
      options.sectionHeading.GetOr(defaultSectionHeading)
    }

    /** `renderTasks`: the section body for one day's tasks. */
    method RenderTasks(tasks: seq<Task>) returns (body: string)
      ensures body == SectionBody(SectionHeading(), TagPrefix(), tasks)
      ensures SectionHeading() <= body
    {
      var sectionHeading := SectionHeading();
      var areas := GroupBy(tasks, AreaKey);
      var headingLevel := GetHeadingLevel(sectionHeading);
      var render := TaskRenderer(TagPrefix());
      var output := [sectionHeading];
      var i := 0;
      while i < |areas|
        invariant 0 <= i <= |areas|
        invariant output == [sectionHeading] + Blocks(render, true, headingLevel, areas[..i])
      {
        var (area, group) := areas[i];
        PushBlock(sectionHeading, render, true, headingLevel, areas, i, output);
        if area != "" {
          output := output + [ToHeading(area, headingLevel + 1)];
        }
        output := output + Map(render, group);
        i := i + 1;
      }
      assert areas[..i] == areas;
      body := Join(output, "\n");
      JoinStartsWithFirst(output, "\n");
    }

    /**
     * `scheduleNextSync`: clear the timer armed before, if any, then arm one new timer with the
     * delay computed from the options over the defaults. Nothing else changes.
     */
    method ScheduleNextSync(now: int)
      requires Valid()
      modifies this
      ensures Valid()
      ensures options == old(options) && saved == old(saved)
      ensures nextHandle == old(nextHandle) + 1 && syncTimeoutId == Some(old(nextHandle))
      ensures liveTimers == map[old(nextHandle) := NextSyncDelay(
        WithDefaults(defaults, old(options)).latestSyncTime, WithDefaults(defaults, old(options)).syncInterval, now)]
    {
      var opts := WithDefaults(defaults, options);
      var nextSync := NextSyncDelay(opts.latestSyncTime, opts.syncInterval, now);
      if syncTimeoutId.Some? {
        // clearTimeout
        liveTimers := liveTimers - {syncTimeoutId.value};
      }
      // setTimeout: the host hands out a fresh handle
      var handle := nextHandle;
      nextHandle := nextHandle + 1;
      liveTimers := liveTimers[handle := nextSync];
      syncTimeoutId := Some(handle);
    }

    /** The host runs a pending timer: it is no longer pending; the stored handle stays. */
    ghost method TimerFires(h: nat)
      requires Valid() && h in liveTimers
      modifies this`liveTimers
      ensures Valid()
      ensures liveTimers == old(liveTimers) - {h}
    {
      liveTimers := liveTimers - {h};
    }

    /**
     * `writeOptions`: compute the diff from the current options, reschedule (still under the
     * OLD options) exactly when the diff sets `syncInterval`, then merge the diff in and save.
     */
    method WriteOptions(changeOpts: Options -> Options, now: int)
      requires Valid()
      modifies this
      ensures Valid()
      ensures options == Merge(old(options), changeOpts(old(options)))
      ensures saved == old(saved) + [options]
      ensures changeOpts(old(options)).syncInterval.Some? ==>
        nextHandle == old(nextHandle) + 1 && syncTimeoutId == Some(old(nextHandle))
        && liveTimers == map[old(nextHandle) := NextSyncDelay(
          WithDefaults(defaults, old(options)).latestSyncTime, WithDefaults(defaults, old(options)).syncInterval, now)]
      ensures changeOpts(old(options)).syncInterval.None? ==>
        nextHandle == old(nextHandle) && syncTimeoutId == old(syncTimeoutId) && liveTimers == old(liveTimers)
    {
      var diff := changeOpts(options);
      if diff.syncInterval.Some? {
        ScheduleNextSync(now);
      }
      options := Merge(options, diff);
      saved := saved + [options];
    }

    /**
     * `syncLogbook` on records `fetched` since the watermark: one merge request per completion
     * day, under the literal `## Logbook` heading. When every request was fulfilled, the watermark
     * becomes `now` and one new timer is armed for a full interval later.
     */
    method SyncLogbook(fetched: seq<Task>, dayOf: int -> string, allJobsFulfilled: bool, now: int)
      returns (since: int, jobs: seq<SectionUpdate>)
      requires Valid()
      modifies this
      ensures Valid()
      ensures since == Watermark(old(options))
      ensures |jobs| == |DaysToTasks(fetched, dayOf)|
      ensures forall i :: 0 <= i < |jobs| ==>
        jobs[i] == SectionUpdate(DaysToTasks(fetched, dayOf)[i].0, LogbookHeading,
          SectionBody(old(SectionHeading()), old(TagPrefix()), DaysToTasks(fetched, dayOf)[i].1))
      ensures !allJobsFulfilled ==>
        options == old(options) && saved == old(saved) && syncTimeoutId == old(syncTimeoutId)
        && nextHandle == old(nextHandle) && liveTimers == old(liveTimers)
      ensures allJobsFulfilled ==>
        options == Merge(old(options), LatestSyncTimeOnly(now)) && saved == old(saved) + [options]
        && options == old(options).(latestSyncTime := Some(now))
        && syncTimeoutId == Some(old(nextHandle)) && nextHandle == old(nextHandle) + 1
        && liveTimers == map[old(nextHandle) := NextSyncDelay(now, WithDefaults(defaults, old(options)).syncInterval, now)]
    {
      since := Watermark(options);
      var daysToTasks := DaysToTasks(fetched, dayOf);
      var heading, prefix := SectionHeading(), TagPrefix();
      jobs := seq(|daysToTasks|, i requires 0 <= i < |daysToTasks| =>
        SectionUpdate(daysToTasks[i].0, LogbookHeading, SectionBody(heading, prefix, daysToTasks[i].1)));
      if allJobsFulfilled {
        MergeLatestSyncTime(options, now);
        WriteOptions(_ => LatestSyncTimeOnly(now), now);
        ScheduleNextSync(now);
      }
    }
  }
}
