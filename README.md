# Things Logbook: a Dafny model of the rendering and sync-scheduling core

The Things Logbook plugin for Obsidian copies the tasks completed in the Things app into the
matching daily notes. Each day's tasks go into a `## Logbook` section. This project models the
plugin's sequential core and proves what it does:

- **`LogbookRenderer`** (`renderer.dfy`, module `LogbookRenderer`) renders one task as markdown
  checklist lines (`RenderTask`). The lines are a checkbox marker chosen from the cancelled flag
  and the alternative checkbox prefix, the title linked into Things, normalised hashtags,
  indented note lines and optional subtask lines. `Render` is the loop that builds a section
  body: the section heading, then each area's sub-heading one level deeper, then that area's
  tasks.
- **`ThingsLogbookPlugin`** (`plugin.dfy`, module `ThingsLogbook`) is a class with the fields
  `options` and `syncTimeoutId`. It holds:
  - the older renderer (`RenderTask`, `RenderTasks`);
  - one sync cycle's grouping of completed tasks by day (`DaysToTasks`, `SyncLogbook`);
  - the reschedule delay (`NextSyncDelay`) and a single-timer discipline (`ScheduleNextSync`);
  - the options merge that decides whether to reschedule (`WriteOptions`).
- The shared pieces are in separate modules:
  - `Sections`: the section body both renderers build;
  - `Grouping`: the `groupBy` helper;
  - `TextUtils`: JavaScript string operations, and the heading and indentation helpers;
  - `Things`: tasks, settings and partial options records, and the `{...a, ...b}` merge;
  - `Seqs`: filter and map;
  - `Wrappers`: `Option`.

The host enters only as parameters:

- the clock is `now`, in seconds;
- the fetched Things records are `fetched`;
- the day key of a timestamp (moment's `startOf("day").format()`) is a function `dayOf`;
- the vault's indentation settings are `VaultConfig`;
- whether every per-day merge job was fulfilled is `allJobsFulfilled`. A job that rejects, for
  example when a daily note cannot be created, makes `Promise.all` reject, so its success
  continuation does not run.

Timers are modelled as a handle counter `nextHandle` and a ghost table `liveTimers` of pending
timers. Each pending timer maps to its delay in milliseconds.

`groupBy`, `getHeadingLevel`, `toHeading` and `getTab` are defined in files that are not part of
this model, so they are stated as assumptions:

- `groupBy` keeps keys in first-seen order and items in input order;
- `getHeadingLevel` counts the leading `#` characters;
- `toHeading(t, n)` is `n` `#` characters, a space, then `t`;
- `getTab` is a tab or `tabSize` spaces.

Nothing here claims these match their implementations.

`\s` in `replace(/\s+/g, "-")` and the whitespace removed by `trimEnd` are the ECMAScript
whitespace set, character for character (`TextUtils.IsWhitespace`).

The reschedule delay is modelled as the code computes it:

- The seconds watermark is added to a millisecond interval, and the current time in seconds is
  subtracted.
- So one minute after a sync with a one-minute interval the delay is still 59940 ms, not 0,
  and 100 seconds after it 59900 ms (`DelayExamples`). The model follows the code, not a
  unit-corrected formula.

## Model

| member | source | states |
|---|---|---|
| `LogbookRenderer.RenderTask` | src/renderer.ts:16-63 | `renderTask`: the task lines joined by line breaks; `RenderTaskSplits` gives the lines back from the text, and `TaskFirstLine`, `TaskNoteLines` and `TaskSubtaskLines` say what each line is |
| `LogbookRenderer.TaskLines` | src/renderer.ts:39-62 | the two branches' line arrays after `.filter((line) => !!line)`; `TaskLinesShape` gives their exact shape and `TaskLinesNonEmpty` that no line is empty |
| `LogbookRenderer.NormalizeTag` | src/renderer.ts:24 | `tag.replace(/\s+/g, "-").toLowerCase()`; its meaning is given by `NormalizeTagFacts`, `NormalizeTagIdempotent` and `NormalizeTwoWords` |
| `LogbookRenderer.TitleLine` | src/renderer.ts:29 | the title line is never empty and never ends in whitespace |
| `LogbookRenderer.TitleLineContents` | src/renderer.ts:22-29 | without `includeTags`, or with no non-empty tag, the title line is exactly `[title](things:///show?id=uuid)`; otherwise it is that link, a space and the hashtags joined by single spaces |
| `LogbookRenderer.TagTokens` | src/renderer.ts:22-26 | one hashtag per non-empty tag |
| `LogbookRenderer.TagTokenAt` | src/renderer.ts:22-26 | the i-th hashtag is `#`, the prefix and the normal form of the i-th non-empty tag, which is a tag of the task; tags keep input order |
| `LogbookRenderer.NormalizeTagFacts` | src/renderer.ts:24 | a normalised tag is empty exactly when the tag is, contains no whitespace and no upper-case ASCII letter |
| `LogbookRenderer.NormalizeTagIdempotent` | src/renderer.ts:24 | normalising a normalised tag changes nothing |
| `LogbookRenderer.NormalizeTwoWords` | src/renderer.ts:24 | two whitespace-free words separated by one space normalise to their lower-cased forms joined by one `-` |
| `LogbookRenderer.TagRuleExample` | src/renderer.ts:22-26 | on tags `[a b, "", c]` the empty tag is dropped, the space becomes `-`, both are lower-cased and prefixed, joined by one space |
| `LogbookRenderer.TagExample` | src/renderer.ts:22-26 | tags `["Deep Work", "", "urgent"]` under prefix `things/` give `#things/deep-work #things/urgent` |
| `LogbookRenderer.NoteLines` | src/renderer.ts:31-37 | no note line is empty |
| `LogbookRenderer.TaskNoteLines` | src/renderer.ts:31-37 | with `doesSyncNoteBody` off there are no note lines; with it on, one line per non-empty line of the end-trimmed notes, in order, each prefixed by the tab unit, directly after the first line |
| `LogbookRenderer.PlainNoteLinesFacts` | src/renderer.ts:32-35 | absent notes give no lines; notes without blank lines are restored by joining the lines; a one-line note is one line |
| `LogbookRenderer.FirstLine` | src/renderer.ts:41 | the first line is never empty |
| `LogbookRenderer.TaskFirstLine` | src/renderer.ts:39-41 | the first line's marker in the four cases: `- [x] `, `- [` + canceledMark + `] `, alternative prefix + space, canceledMark + space, each followed by the title line |
| `LogbookRenderer.SubtaskLines` | src/renderer.ts:43-47 | one candidate line per subtask |
| `LogbookRenderer.NonEmptyCandidates` | src/renderer.ts:43-47 | subtask candidates are all non-empty with `renderChecklists` on and all empty with it off |
| `LogbookRenderer.TaskSubtaskLines` | src/renderer.ts:43-62 | with `renderChecklists` off no subtask line survives; with it on, exactly one line per subtask in order, in the standard (`tab- [x] title`) or alternative (`tab x-prefix title`) form |
| `LogbookRenderer.TaskLinesShape` | src/renderer.ts:39-62 | the filtered lines are the first line, the note lines, then the subtask lines when checklists are rendered |
| `LogbookRenderer.TaskLinesNonEmpty` | src/renderer.ts:49 | no rendered line is empty |
| `LogbookRenderer.RenderTaskSplits` | src/renderer.ts:49-50 | when no task line holds a line break (no title, subtask title or note piece contains one), splitting the rendered text at line breaks gives back exactly the task lines, none of them empty |
| `LogbookRenderer.Render` | src/renderer.ts:65-78 | the loop builds the section body of `BodyLines` joined by line breaks; the body starts with the section heading |
| `LogbookRenderer.SubHeadingLevel` | src/renderer.ts:72-73 | an area sub-heading is one heading level below the section heading |
| `Sections.BodyLines` | src/renderer.ts:65-78 | the `output` array of `render` (also `renderTasks` at src/index.ts:126-139): the heading, then each area group's block; `BodyAreaBlock`, `BodyLength`, `BodySingleArea` and `BodyWithoutHeaders` say what it holds |
| `Sections.PushBlock` | src/renderer.ts:71-76 | one loop step (optional sub-heading, then the group's rendered tasks) extends the body by that group's block |
| `Sections.BodyWithoutHeaders` | src/renderer.ts:65-78 | with headers off the body is the heading then every task rendered, and the tasks rendered are a permutation of the input |
| `Sections.BodyAreaBlock` | src/renderer.ts:71-76 | every area has one contiguous run after the heading: its sub-heading when due, then its tasks rendered in input order |
| `Sections.BodySingleArea` | src/renderer.ts:65-78 | when all tasks share one area the body is the heading, the sub-heading if due, and the tasks in input order |
| `Sections.BodyLength` | src/renderer.ts:70-76 | the body has one line for the heading, one per task, and one per named area when headers are on |
| `Sections.BlocksWithoutHeaders` | src/renderer.ts:72-75 | with headers off the blocks are the rendered tasks group after group |
| `Sections.BlockInBlocks` | src/renderer.ts:71-76 | each group's block is a contiguous slice of the body |
| `Grouping.GroupBy` | src/renderer.ts:67 | the assumed `groupBy`: `GroupByIsGrouping`, `GroupByPermutes` and `GroupByFirstSeenOrder` tie it to the independent `Select` |
| `Grouping.GroupByIsGrouping` | src/renderer.ts:67 | the area groups have distinct keys, are non-empty, hold exactly their key's tasks in input order, and cover every task |
| `Grouping.GroupByPermutes` | src/renderer.ts:67 | the groups together hold the input tasks, each once |
| `Grouping.GroupByFirstSeenOrder` | src/renderer.ts:67 | groups come in the order their keys first appear |
| `Grouping.GroupBySingleKey` | src/renderer.ts:67 | one key gives one group with all tasks |
| `Grouping.GroupOf` | src/renderer.ts:67 | every task is in its key's group |
| `Grouping.Select` | src/renderer.ts:67 | a selection holds only items with the key |
| `Grouping.SelectSubset` | src/renderer.ts:67 | a selection holds only items of the input |
| `Grouping.SelectMemberIn` | src/index.ts:86-89 | every item of the input is selected under its own key |
| `TextUtils.TrimEnd` | src/renderer.ts:29 | `trimEnd` yields a prefix that does not end in whitespace, and the removed rest is all whitespace |
| `TextUtils.TrimEndUnique` | src/renderer.ts:29 | those three facts determine the result |
| `TextUtils.Split` | src/renderer.ts:34 | `split` gives at least one piece, no piece holds the separator, and joining the pieces gives the input |
| `TextUtils.SplitJoin` | src/renderer.ts:34 | splitting the join of separator-free pieces gives the pieces back |
| `TextUtils.NonEmptyLinesRoundTrip` | src/renderer.ts:34-35 | text without blank lines is restored from its non-empty lines |
| `TextUtils.ReplaceWhitespaceRuns` | src/renderer.ts:24 | `replace(/\s+/g, "-")` leaves no whitespace, is empty exactly when the input is, and leaves whitespace-free text alone |
| `TextUtils.ReplaceRun` | src/renderer.ts:24 | a whitespace run between two words becomes one `-` |
| `TextUtils.ToLower` | src/renderer.ts:24 | the result contains no upper-case ASCII letter |
| `TextUtils.GetHeadingLevel` | src/renderer.ts:68 | the level is the number of leading `#` characters |
| `TextUtils.ToHeading` | src/renderer.ts:73 | the assumed `toHeading(t, n)`: exactly `n` `#` characters, one space, then the text; `HeadingLevelOfToHeading` reads the level back |
| `TextUtils.GetTab` | src/renderer.ts:19 | the assumed `getTab`: one tab character when tabs are used, otherwise exactly `tabSize` spaces |
| `TextUtils.HeadingLevelOfToHeading` | src/renderer.ts:73 | a heading built at level n reads back as level n |
| `Things.Merge` | src/index.ts:170 | every field present in the diff takes the diff's value; every other keeps its old value |
| `Things.WithDefaults` | src/index.ts:145 | every field present in the options wins; every missing field comes from the defaults |
| `Things.MergeIdentityAndIdempotence` | src/index.ts:170 | an empty diff changes nothing; merging a diff twice is merging it once |
| `Things.MergeAssociative` | src/index.ts:163-170 | two successive merges are one merge of the combined diff |
| `Things.WithDefaultsMerge` | src/index.ts:145 | effective settings of merged options are the defaults overlaid by each stage in turn |
| `Things.WithDefaultsEmpty` | src/index.ts:145 | with no stored options the defaults are used |
| `ThingsLogbook.TagTokens` | src/index.ts:112-115 | one hashtag per non-empty tag |
| `ThingsLogbook.TagTokenAt` | src/index.ts:112-115 | the i-th hashtag is `#`, prefix and the i-th non-empty tag verbatim, not normalised |
| `ThingsLogbook.TitleLineChecked` | src/index.ts:118 | the first line always starts with `- [x]`, cancelled or not, and never ends in whitespace |
| `ThingsLogbook.TitleLineWithoutTags` | src/index.ts:118 | without non-empty tags the line is the trimmed `- [x] title` |
| `ThingsLogbook.TitleLineWithTags` | src/index.ts:112-118 | when the last tag does not end in whitespace the line is exactly `- [x] title tags` |
| `ThingsLogbook.SubtaskLinesAlways` | src/index.ts:117-123 | every subtask yields one line `  - [x] title` or `  - [ ] title`, in order, unconditionally |
| `ThingsLogbook.EveryAreaHeaded` | src/index.ts:126-139 | every named area gets its sub-heading one level below the section heading, followed by its tasks in input order, with no setting to switch it off |
| `ThingsLogbook.RenderTask` | src/index.ts:110-124 | the legacy `renderTask`: the title line, then one line per subtask, joined by line breaks; `TitleLineChecked`, `TitleLineWithoutTags`, `TitleLineWithTags` and `SubtaskLinesAlways` say what the lines are |
| `ThingsLogbook.SectionBody` | src/index.ts:126-139 | the body `renderTasks` returns: `Sections.BodyLines` with sub-headings forced on and the legacy task renderer, joined by line breaks; `EveryAreaHeaded` states what it holds |
| `ThingsLogbook.ThingsLogbookPlugin.RenderTasks` | src/index.ts:126-139 | the loop builds the section body with sub-headings always on, the stored heading or its default, and the stored tag prefix or its default; it starts with the heading |
| `ThingsLogbook.DaysToTasks` | src/index.ts:86-89 | `groupBy(tasks.filter((task) => task.stopDate), day of stopDate)`; `DayGroups`, `UndatedDropped` and `DatedKept` tie it to the independent `TasksOnDay` |
| `ThingsLogbook.DayKeyOfDated` | src/index.ts:88 | a dated task is keyed by the day of its stop date |
| `ThingsLogbook.SelectDated` | src/index.ts:86-89 | a day's group is the dated tasks of that day in input order |
| `ThingsLogbook.DayGroups` | src/index.ts:86-89 | each day group is exactly the tasks whose stop date falls on that day, non-empty, in input order; days are distinct |
| `ThingsLogbook.UndatedDropped` | src/index.ts:87 | every grouped task has a present, non-zero stop date and comes from the input |
| `ThingsLogbook.DatedKept` | src/index.ts:86-89 | every dated task is in the group of its day |
| `ThingsLogbook.Watermark` | src/index.ts:75 | an unset watermark reads as 0 |
| `ThingsLogbook.NextSyncDelay` | src/index.ts:146-148 | the delay is never negative, is at least `latest + interval*1000 - now`, and is that value or 0 |
| `ThingsLogbook.DelayExamples` | src/index.ts:147-148 | (1000, 60, 1000) gives 60000; one minute later, (1000, 60, 1060), gives 59940; (1000, 60, 1100) gives 59900; (1000, 60, 61000) gives 0 |
| `ThingsLogbook.DelayNonIncreasing` | src/index.ts:148 | a later clock never gives a longer delay |
| `ThingsLogbook.DelayAfterSync` | src/index.ts:105-106 | rescheduling at the moment of a sync waits `interval*1000` |
| `ThingsLogbook.LatestSyncTimeOnly` | src/index.ts:105 | the success diff `{ latestSyncTime: now }` sets `latestSyncTime` to `now`, and each of the other nine fields is absent |
| `ThingsLogbook.MergeLatestSyncTime` | src/index.ts:105 | merging the success diff sets the watermark to `now` and leaves every other stored field unchanged |
| `ThingsLogbook.ThingsLogbookPlugin.constructor` | src/index.ts:156-158 | the loaded options, or none when nothing was stored; no timer armed |
| `ThingsLogbook.ThingsLogbookPlugin.ScheduleNextSync` | src/index.ts:142-154 | clears the previous timer, arms exactly one new timer with the delay from the options over the defaults, and changes nothing else; at most one timer stays pending |
| `ThingsLogbook.ThingsLogbookPlugin.TimerFires` | src/index.ts:153 | a timer that runs is no longer pending; at most one stays pending |
| `ThingsLogbook.ThingsLogbookPlugin.WriteOptions` | src/index.ts:160-172 | options become the merge of the diff; the record is saved; the plugin reschedules exactly when the diff sets `syncInterval`, computed from the OLD options; otherwise the timers are untouched |
| `ThingsLogbook.ThingsLogbookPlugin.SyncLogbook` | src/index.ts:73-107 | the fetch uses the watermark or 0; one merge request per day group, in order, under the literal `## Logbook`, with the section body of that day's tasks; if every job was fulfilled, the stored options become the old ones with only `latestSyncTime` set to `now`, the record is saved, and one timer is armed for a full interval; otherwise nothing changes |

## Left out

- The Obsidian lifecycle is host plumbing and is not modelled. This covers `onload`, the
  `isMacOS` gate, `addCommand` (and its 10 ms manual trigger), `addSettingTab` and the
  layout-ready event.
- The Things SQLite extraction (`getTasksFromThingsLogbook`, `getChecklistItemsFromThingsLogbook`,
  `buildTasksFromSQLRecords`) is foreign I/O in files not part of this model. Its result is the
  parameter `fetched`.
- Daily-note lookup and creation, and the section merger `updateSection`, are not modelled. They
  are vault I/O, and `updateSection` is defined in a file that is not part of this model. A merge
  request is modelled as a `SectionUpdate` value.
- `loadData` and `saveData` are I/O. The loaded record is a constructor parameter, and the saved
  records are a ghost log `saved`.
- `Promise.all` and the concurrency of the per-day jobs are not modelled. So are the real
  `setTimeout`/`clearTimeout`; the model keeps a handle counter and a ghost table of pending
  timers. Whether every job was fulfilled is the parameter `allJobsFulfilled`.
- `Notice` and console output are not modelled.
- `moment` day formatting is the abstract function `dayOf`.
- `vault.getConfig` is the `VaultConfig` parameter.
- SyncLogbook: the success continuation and `scheduleNextSync` each read the clock. The model
  uses one `now` for both reads.
- `TextUtils.ToLower`: `toLowerCase` is modelled on ASCII letters only. Full Unicode case
  mapping is left out.
- `Object.entries` lists integer-like keys first. The model keeps first-seen key order for the
  area and day groups, so an area named like a non-negative integer may be ordered differently
  by the code.
- A diff field explicitly set to `undefined` would overwrite the stored field in the spread
  merge. The model treats it as absent.
- JavaScript number behaviour (NaN, floating point, 53-bit precision) is not modelled. The
  watermark, interval and clock are unbounded integers.
