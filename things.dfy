/**
 * The values the plugin works on: tasks read from the Things logbook, and its settings.
 * The Things database reader that builds tasks is not part of this model; tasks arrive as values.
 */
module Things {
  import opened Wrappers

  /** A checklist item of a task. */
  datatype Subtask = Subtask(title: string, completed: bool)

  /**
   * A completed or cancelled task. `area` and `notes` are optional; `stopDate` is the completion
   * time in seconds since the epoch, possibly absent.
   */
  datatype Task = Task(
    uuid: string,
    title: string,
    area: Option<string>,
    tags: seq<string>,
    notes: Option<string>,
    stopDate: Option<int>,
    cancelled: bool,
    subtasks: seq<Subtask>)

  /** `task.area || ""`: the area group a task belongs to; "" for none. */
  function AreaKey(task: Task): string {
    task.area.GetOr("")
  }

  /** The complete settings record the renderer is built with. */
  datatype Settings = Settings(
    latestSyncTime: int,
    syncInterval: int,
    sectionHeading: string,
    tagPrefix: string,
    includeTags: bool,
    includeHeaders: bool,
    doesSyncNoteBody: bool,
    renderChecklists: bool,
    canceledMark: string,
    alternativeCheckboxPrefix: string)

  /**
   * A partial settings record: the plugin's stored options (loaded data, possibly missing
   * fields) and the diffs merged into them. `None` is a field that is not present.
   */
  datatype Options = Options(
    latestSyncTime: Option<int>,
    syncInterval: Option<int>,
    sectionHeading: Option<string>,
    tagPrefix: Option<string>,
    includeTags: Option<bool>,
    includeHeaders: Option<bool>,
    doesSyncNoteBody: Option<bool>,
    renderChecklists: Option<bool>,
    canceledMark: Option<string>,
    alternativeCheckboxPrefix: Option<string>)

  const NoOptions := Options(None, None, None, None, None, None, None, None, None, None)

  function Override<T>(base: Option<T>, diff: Option<T>): Option<T> {
    if diff.Some? then diff else base
  }

  /** `{ ...base, ...diff }` on partial records: every field present in `diff` wins, every other keeps its value. */
  function Merge(base: Options, diff: Options): (r: Options)
    ensures r.latestSyncTime == (if diff.latestSyncTime.Some? then diff.latestSyncTime else base.latestSyncTime)
    ensures r.syncInterval == (if diff.syncInterval.Some? then diff.syncInterval else base.syncInterval)
    ensures r.sectionHeading == (if diff.sectionHeading.Some? then diff.sectionHeading else base.sectionHeading)
    ensures r.tagPrefix == (if diff.tagPrefix.Some? then diff.tagPrefix else base.tagPrefix)
    ensures r.includeTags == (if diff.includeTags.Some? then diff.includeTags else base.includeTags)
    ensures r.includeHeaders == (if diff.includeHeaders.Some? then diff.includeHeaders else base.includeHeaders)
    ensures r.doesSyncNoteBody == (if diff.doesSyncNoteBody.Some? then diff.doesSyncNoteBody else base.doesSyncNoteBody)
    ensures r.renderChecklists == (if diff.renderChecklists.Some? then diff.renderChecklists else base.renderChecklists)
    ensures r.canceledMark == (if diff.canceledMark.Some? then diff.canceledMark else base.canceledMark)
    ensures r.alternativeCheckboxPrefix == (if diff.alternativeCheckboxPrefix.Some? then diff.alternativeCheckboxPrefix else base.alternativeCheckboxPrefix)
  {
    Options(
      Override(base.latestSyncTime, diff.latestSyncTime),
      Override(base.syncInterval, diff.syncInterval),
      Override(base.sectionHeading, diff.sectionHeading),
      Override(base.tagPrefix, diff.tagPrefix),
      Override(base.includeTags, diff.includeTags),
      Override(base.includeHeaders, diff.includeHeaders),
      Override(base.doesSyncNoteBody, diff.doesSyncNoteBody),
      Override(base.renderChecklists, diff.renderChecklists),
      Override(base.canceledMark, diff.canceledMark),
      Override(base.alternativeCheckboxPrefix, diff.alternativeCheckboxPrefix))
  }

  /** `{ ...defaults, ...options }`: a complete record, each missing field taken from `defaults`. */
  function WithDefaults(defaults: Settings, o: Options): (s: Settings)
    ensures s.latestSyncTime == (if o.latestSyncTime.Some? then o.latestSyncTime.value else defaults.latestSyncTime)
    ensures s.syncInterval == (if o.syncInterval.Some? then o.syncInterval.value else defaults.syncInterval)
    ensures s.sectionHeading == (if o.sectionHeading.Some? then o.sectionHeading.value else defaults.sectionHeading)
    ensures s.tagPrefix == (if o.tagPrefix.Some? then o.tagPrefix.value else defaults.tagPrefix)
    ensures s.includeTags == (if o.includeTags.Some? then o.includeTags.value else defaults.includeTags)
    ensures s.includeHeaders == (if o.includeHeaders.Some? then o.includeHeaders.value else defaults.includeHeaders)
    ensures s.doesSyncNoteBody == (if o.doesSyncNoteBody.Some? then o.doesSyncNoteBody.value else defaults.doesSyncNoteBody)
    ensures s.renderChecklists == (if o.renderChecklists.Some? then o.renderChecklists.value else defaults.renderChecklists)
    ensures s.canceledMark == (if o.canceledMark.Some? then o.canceledMark.value else defaults.canceledMark)
    ensures s.alternativeCheckboxPrefix == (if o.alternativeCheckboxPrefix.Some? then o.alternativeCheckboxPrefix.value else defaults.alternativeCheckboxPrefix)
  {
    Settings(
      o.latestSyncTime.GetOr(defaults.latestSyncTime),
      o.syncInterval.GetOr(defaults.syncInterval),
      o.sectionHeading.GetOr(defaults.sectionHeading),
      o.tagPrefix.GetOr(defaults.tagPrefix),
      o.includeTags.GetOr(defaults.includeTags),
      o.includeHeaders.GetOr(defaults.includeHeaders),
      o.doesSyncNoteBody.GetOr(defaults.doesSyncNoteBody),
      o.renderChecklists.GetOr(defaults.renderChecklists),
      o.canceledMark.GetOr(defaults.canceledMark),
      o.alternativeCheckboxPrefix.GetOr(defaults.alternativeCheckboxPrefix))
  }

  /** The options a complete settings record stands for: every field present. */
  function AsOptions(s: Settings): Options {
    Options(Some(s.latestSyncTime), Some(s.syncInterval), Some(s.sectionHeading), Some(s.tagPrefix),
      Some(s.includeTags), Some(s.includeHeaders), Some(s.doesSyncNoteBody), Some(s.renderChecklists),
      Some(s.canceledMark), Some(s.alternativeCheckboxPrefix))
  }

  /** Merging an empty diff changes nothing; merging a diff twice is merging it once. */
  lemma MergeIdentityAndIdempotence(base: Options, diff: Options)
    ensures Merge(base, NoOptions) == base
    ensures Merge(Merge(base, diff), diff) == Merge(base, diff)
  {
  }

  /** Two successive merges are one merge of the combined diff. */
  lemma MergeAssociative(base: Options, d1: Options, d2: Options)
    ensures Merge(Merge(base, d1), d2) == Merge(base, Merge(d1, d2))
  {
  }

  /** Spreading defaults under merged options is spreading them under the stages in turn. */
  lemma WithDefaultsMerge(defaults: Settings, base: Options, diff: Options)
    ensures WithDefaults(defaults, Merge(base, diff)) == WithDefaults(WithDefaults(defaults, base), diff)
  {
  }

  /** With no options stored, the defaults are used as they are. */
  lemma WithDefaultsEmpty(defaults: Settings)
    ensures WithDefaults(defaults, NoOptions) == defaults
  {
  }

  /** A complete record is unaffected by defaults spread under it. */
  lemma WithDefaultsComplete(defaults: Settings, s: Settings)
    ensures WithDefaults(defaults, AsOptions(s)) == s
  {
  }
}
