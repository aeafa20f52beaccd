# War Thunder wiki tech-tree costs: a verified model

This project models the sequential core of the userscript
`TechTreeCost/WarthunderWiki-Techtree-Costs.user.js`. On a War Thunder wiki
tech-tree page, the script shows each vehicle's research (RP) and purchase
(SL) cost on its tile, and a running sum on every rank header. Into the
first rank's header it also writes the tree total as "Total Cost". Costs come
from a persistent cache, or else from fetching the unit's own wiki page
through a throttled FIFO queue.

The model covers:

- **Text and values** (`text.dfy`, `units.dfy`)
  - `toInt`: the digits of a text, read as a decimal number.
  - `getUnitIdFromItem`: the `data-unit-id` attribute, or else the last `/`-segment of the link.
  - The cache key `KEY_PREFIX + unitId`.
  - The fold over the unit page's info items that picks out "Research" and "Purchase".
- **The fetch queue** (`queue.dfy`): `enqueueFetch` / `runQueue` as a class.
  - Fields: the job list, the `running` flag, the job whose request is out, the cache store and a log of cache writes and `onDone` calls.
  - The loop resumes at three points: when the request settles, after the cache write, and when the delay ends.
  - The first two are one step here (`Complete`): the write, then `onDone`. An enqueue at the point between them only appends to the job list, and neither the write nor `onDone` reads that list, so merging the two points loses no behaviour.
  - The delay ending is its own step (`DelayElapsed`), so another caller can enqueue while the loop waits.
  - The invariant `Valid` ties the observable `onDone` calls of the log to the jobs in enqueue order.
- **Rank collection** (`ranks.dfy`): `collectRanks`.
  - The grouping pass over header, rank and other rows.
  - The normalised label.
  - Choosing the left container of each rank row.
  - The "first item of its group" filter.
- **Sums and texts** (`summary.dfy`, `render.dfy`)
  - The per-rank sums of `updateSums` and the two `reduce` totals.
  - The badge, rank-sum and total texts.
  - The rank-1 rewrite: whitespace is collapsed, the `—\s*Total Cost:` marker is tested case-insensitively, then either replaced case-sensitively from the marker to the end, or the total is appended.
  - Every span after one `updateSums` call.
- **`processTree`** (`session.dfy`): the tree's state as a class.
  - State: the ranks, `seen`, the pill and span texts, and the shared queue.
  - Operations: the pass over every element, `updateSums`, and the `onDone` callback, with its settling request as one step.

Number formatting (`fmt`, i.e. `toLocaleString`) is a parameter: any function from numbers to text. The lemmas about the rank-1 text assume only what they state, such as "no formatted number contains an em dash".

Two behaviours of the code are worth knowing:

- **Rank sums count per element.** The `seen` record of a unit is added once for every element that carries its id, so a unit shown by two elements counts twice (`Summary.SumRepeated`).
- **The rank-1 rewrite settles after one extra space.**
  - Applied to its own output, the rewrite keeps the space before the old `—`, and the new total begins with another space, so one more space appears once. After that the text no longer changes (`Summary.RewriteSettles`, `Summary.RankOneReapplied`).
  - The rendered page is idempotent all the same. `renderRankSum` resets every rank span just before, so the rewrite always takes its append path on a freshly reset text (`Render.RenderedTwice`, `Render.UpdateSumsTwice`, `Summary.RankOneText`).

## Model

| member | source | states |
|---|---|---|
| Text.Collapse | TechTreeCost/WarthunderWiki-Techtree-Costs.user.js:211 | the result has no whitespace but single plain spaces; it is empty exactly when the input is; it starts with whitespace exactly when the input does; with `Text.CollapseRun` and `Text.CollapseConsVisible`, every whitespace run becomes exactly one space |
| Text.CollapseRun | TechTreeCost/WarthunderWiki-Techtree-Costs.user.js:211 | a whitespace run followed by a visible character or the end becomes exactly one space, and the rest is collapsed in turn |
| Text.CollapseKeepsVisible | TechTreeCost/WarthunderWiki-Techtree-Costs.user.js:211 | collapsing whitespace keeps every non-whitespace character, in order |
| Text.CollapseFixed | TechTreeCost/WarthunderWiki-Techtree-Costs.user.js:267 | collapsing an already collapsed text leaves it unchanged |
| Text.CollapseAppend | TechTreeCost/WarthunderWiki-Techtree-Costs.user.js:267 | collapsing two collapsed texts joined merges only a space pair at the seam |
| Text.CollapseKeepsPrefix | TechTreeCost/WarthunderWiki-Techtree-Costs.user.js:267 | a collapsed prefix ending in a visible character passes through collapsing unchanged |
| Text.LabelShape | TechTreeCost/WarthunderWiki-Techtree-Costs.user.js:211 | the normalised label is collapsed, has no space at either end, and keeps every visible character of the header text; each inner whitespace run becomes one space by `Text.CollapseRun` |
| Text.KeepDigits | TechTreeCost/WarthunderWiki-Techtree-Costs.user.js:93 | the stripped text holds only decimal digits and is no longer than the input |
| Text.ToIntNoDigits | TechTreeCost/WarthunderWiki-Techtree-Costs.user.js:91-95 | a text without digits (the empty text included) reads as 0 |
| Text.ToIntIgnoresNonDigit | TechTreeCost/WarthunderWiki-Techtree-Costs.user.js:93 | removing any non-digit character does not change the value |
| Text.ToIntAppendDigit | TechTreeCost/WarthunderWiki-Techtree-Costs.user.js:93-94 | each further digit multiplies the value by ten and adds the digit, so the value is the number the digits spell in order |
| Text.ToIntDecimal | TechTreeCost/WarthunderWiki-Techtree-Costs.user.js:91-95 | `toInt` inverts the plain decimal numeral of every natural number |
| Text.LastSegmentOfPath | TechTreeCost/WarthunderWiki-Techtree-Costs.user.js:89 | the last `/`-segment of `base/id` is `id` |
| Units.KeyInjective | TechTreeCost/WarthunderWiki-Techtree-Costs.user.js:27 | two units never share a cache key |
| Units.UnitId | TechTreeCost/WarthunderWiki-Techtree-Costs.user.js:87-89 | a found id is non-empty and is the attribute or the link's last segment; a non-empty attribute always wins |
| Units.UnitIdFromLink | TechTreeCost/WarthunderWiki-Techtree-Costs.user.js:88-89 | without a usable attribute, the id is the unit name at the end of the link path |
| Units.UnitIdAbsent | TechTreeCost/WarthunderWiki-Techtree-Costs.user.js:87-89 | no attribute and a link that is absent, empty or ends in `/` give no id |
| Units.LabelValueMissing | TechTreeCost/WarthunderWiki-Techtree-Costs.user.js:116-123 | a label no item carries leaves 0 |
| Units.LabelValueLastWins | TechTreeCost/WarthunderWiki-Techtree-Costs.user.js:117-122 | of several items with the label, the last one's value is taken |
| Units.ParseCosts | TechTreeCost/WarthunderWiki-Techtree-Costs.user.js:114-125 | the parse loop yields the fold of both labels over the info items |
| Queue.JobStore | TechTreeCost/WarthunderWiki-Techtree-Costs.user.js:150-157 | a loaded page writes its record under the unit's key and then calls `onDone`; a failure writes nothing and calls `onDone` with zeros |
| Queue.TraceCallbackOrder | TechTreeCost/WarthunderWiki-Techtree-Costs.user.js:148-159 | every job's `onDone` fires exactly once, in the order the jobs ran, failures included |
| Queue.TraceCallbackCosts | TechTreeCost/WarthunderWiki-Techtree-Costs.user.js:151-156 | the k-th `onDone` carries the k-th request's record |
| Queue.ApplyWritesAppend | TechTreeCost/WarthunderWiki-Techtree-Costs.user.js:152 | the cache after two runs of writes is the second applied to the result of the first |
| Queue.FetchQueue.constructor | TechTreeCost/WarthunderWiki-Techtree-Costs.user.js:137-138 | an empty queue with the flag down over a given cache |
| Queue.FetchQueue.Enqueue | TechTreeCost/WarthunderWiki-Techtree-Costs.user.js:140-143 | while the loop runs the job is only appended; otherwise the loop starts and sends it; either way it joins the end of the pending jobs |
| Queue.FetchQueue.RunQueue | TechTreeCost/WarthunderWiki-Techtree-Costs.user.js:145-147 | a running loop is left alone; an idle one raises the flag and takes the first job |
| Queue.FetchQueue.Advance | TechTreeCost/WarthunderWiki-Techtree-Costs.user.js:148-149 | the loop shifts the head job, or lowers the flag with nothing queued |
| Queue.FetchQueue.Complete | TechTreeCost/WarthunderWiki-Techtree-Costs.user.js:150-157 | the request in flight settles: cache write on success, then `onDone`; the queue behind it is unchanged |
| Queue.FetchQueue.DelayElapsed | TechTreeCost/WarthunderWiki-Techtree-Costs.user.js:158-160 | after the delay the next job is taken, or the loop ends with the flag down |
| Queue.FetchQueue.RunJob | TechTreeCost/WarthunderWiki-Techtree-Costs.user.js:149-159 | one turn of the loop: the job is called back and the jobs behind it become the pending ones |
| Queue.FetchQueue.Drain | TechTreeCost/WarthunderWiki-Techtree-Costs.user.js:145-161 | the loop runs to its end: every pending job is called back in order, the cache is the writes of their trace, the queue is empty and the flag is down |
| Queue.EnqueueDuringRun | TechTreeCost/WarthunderWiki-Techtree-Costs.user.js:140-161 | a job enqueued during the delay only appends and is called back after the jobs before it |
| Ranks.NewRankLabel | TechTreeCost/WarthunderWiki-Techtree-Costs.user.js:211 | a group's label is trimmed and collapsed and keeps the header's visible text; each inner whitespace run of the header text becomes one space (`Text.CollapseRun`) |
| Ranks.GroupRows | TechTreeCost/WarthunderWiki-Techtree-Costs.user.js:207-217 | after the first pass every group has no items and zero sums |
| Ranks.GroupCount | TechTreeCost/WarthunderWiki-Techtree-Costs.user.js:209-213 | there is exactly one group per header row |
| Ranks.GroupRowsNoHeader | TechTreeCost/WarthunderWiki-Techtree-Costs.user.js:214 | rows before the first header open no group and are dropped |
| Ranks.GroupRowsStep | TechTreeCost/WarthunderWiki-Techtree-Costs.user.js:214-216 | a rank row joins the latest group; any other non-header row changes nothing |
| Ranks.GroupRowsSegment | TechTreeCost/WarthunderWiki-Techtree-Costs.user.js:208-217 | a header and the rows up to the next header form one group holding exactly their rank rows, after the groups before it |
| Ranks.KeepFirsts | TechTreeCost/WarthunderWiki-Techtree-Costs.user.js:226-231 | an item is kept iff it is in no group or is its group's first item |
| Ranks.KeepFirstsAppend | TechTreeCost/WarthunderWiki-Techtree-Costs.user.js:226-233 | the filter keeps document order |
| Ranks.OnePerGroup | TechTreeCost/WarthunderWiki-Techtree-Costs.user.js:227-230 | among distinct elements at most one item per group survives |
| Ranks.RankItemsFrom | TechTreeCost/WarthunderWiki-Techtree-Costs.user.js:219-235 | every collected item is a kept item of one of its group's rank rows |
| Ranks.GroupPass | TechTreeCost/WarthunderWiki-Techtree-Costs.user.js:207-217 | the first loop with its `current` variable computes the grouping |
| Ranks.GatherItems | TechTreeCost/WarthunderWiki-Techtree-Costs.user.js:220-234 | the inner loop appends the filtered items rank row by rank row |
| Ranks.CollectRanks | TechTreeCost/WarthunderWiki-Techtree-Costs.user.js:203-239 | one group per header, in order, each with its rank rows' filtered items |
| Summary.SumAppend | TechTreeCost/WarthunderWiki-Techtree-Costs.user.js:284-288 | the sums over joined element lists add up |
| Summary.SumUnresolved | TechTreeCost/WarthunderWiki-Techtree-Costs.user.js:285-287 | elements with no id or an id not in `seen` contribute 0 |
| Summary.SumRepeated | TechTreeCost/WarthunderWiki-Techtree-Costs.user.js:284-288 | a unit shown by n elements counts n times |
| Summary.RankSums | TechTreeCost/WarthunderWiki-Techtree-Costs.user.js:283-289 | the inner loop of `updateSums` yields the sums of the rank's elements |
| Summary.TotalOfAllItems | TechTreeCost/WarthunderWiki-Techtree-Costs.user.js:263-264 | with current rank sums, the total is the sum over every element of every rank |
| Summary.FindMarker | TechTreeCost/WarthunderWiki-Techtree-Costs.user.js:269-270 | the leftmost position where the marker matches, or none |
| Summary.MarkerCaseInsensitive | TechTreeCost/WarthunderWiki-Techtree-Costs.user.js:269-270 | an exact marker also passes the case-insensitive test |
| Summary.RewriteAppends | TechTreeCost/WarthunderWiki-Techtree-Costs.user.js:267-271 | with no marker in any letter case the total is appended to the collapsed text |
| Summary.RewriteReplaces | TechTreeCost/WarthunderWiki-Techtree-Costs.user.js:267-270 | with a marker, the collapsed text before the first one is kept and the rest replaced by the total |
| Summary.RewriteCaseMismatch | TechTreeCost/WarthunderWiki-Techtree-Costs.user.js:269-270 | a marker found only in another letter case leaves the collapsed text without the total |
| Summary.RankSumHasNoMarker | TechTreeCost/WarthunderWiki-Techtree-Costs.user.js:249 | a rank-sum text holds no marker when no formatted number has an em dash |
| Summary.RankOneText | TechTreeCost/WarthunderWiki-Techtree-Costs.user.js:249-271 | a freshly reset rank-1 span gets the total appended |
| Summary.FirstMarker | TechTreeCost/WarthunderWiki-Techtree-Costs.user.js:270 | in a rank-sum text followed by a total text, the first marker is the total's |
| Summary.RewriteSettles | TechTreeCost/WarthunderWiki-Techtree-Costs.user.js:267-271 | re-applying to a text that already ends in the total adds one space; applying again changes nothing |
| Summary.RankOneReapplied | TechTreeCost/WarthunderWiki-Techtree-Costs.user.js:249-271 | for the rank-1 span: the second application is not a no-op, the third is |
| Render.Summed | TechTreeCost/WarthunderWiki-Techtree-Costs.user.js:282-291 | after the loop every rank's sums are current and nothing else about the ranks changed |
| Render.SummedSame | TechTreeCost/WarthunderWiki-Techtree-Costs.user.js:283-289 | new sums do not depend on the old ones |
| Render.RankSpans | TechTreeCost/WarthunderWiki-Techtree-Costs.user.js:241-250 | `renderRankSum` gives a span to every labelled rank and touches no other span |
| Render.RankSpanOf | TechTreeCost/WarthunderWiki-Techtree-Costs.user.js:242-249 | with distinct label elements, each labelled rank's span shows its own sums |
| Render.RankOneFrom | TechTreeCost/WarthunderWiki-Techtree-Costs.user.js:265 | the rank-1 span is that of the first rank whose label is in the first grid column |
| Render.RenderedOutside | TechTreeCost/WarthunderWiki-Techtree-Costs.user.js:241-271 | rendering changes only the ranks' label spans, and creates each of them |
| Render.RenderedForget | TechTreeCost/WarthunderWiki-Techtree-Costs.user.js:249 | the result does not depend on what the rank spans held before |
| Render.RenderedTwice | TechTreeCost/WarthunderWiki-Techtree-Costs.user.js:290-292 | rendering twice with the same ranks equals rendering once |
| Render.UpdateSumsTwice | TechTreeCost/WarthunderWiki-Techtree-Costs.user.js:281-293 | two `updateSums` calls with unchanged `seen` leave the same sums and texts as one |
| Render.RenderedWithoutHeader | TechTreeCost/WarthunderWiki-Techtree-Costs.user.js:254-255 | without a header row no total is written; each rank span shows its sums |
| Render.RenderedRankOne | TechTreeCost/WarthunderWiki-Techtree-Costs.user.js:249-271 | the rank-1 span shows its collapsed sums followed by the total over all elements; every other rank span shows its own sums |
| Session.SeenAfterCached | TechTreeCost/WarthunderWiki-Techtree-Costs.user.js:300-302 | every cached unit of the pass is in `seen` with its cached record; nothing else enters |
| Session.MissesExact | TechTreeCost/WarthunderWiki-Techtree-Costs.user.js:297-309 | every job is for a non-empty uncached unit, and every element with an uncached unit has its job |
| Session.BadgesAfterShown | TechTreeCost/WarthunderWiki-Techtree-Costs.user.js:303-308 | each element with an id shows its cached record, or zeros while its fetch is pending |
| Session.TreeSession.constructor | TechTreeCost/WarthunderWiki-Techtree-Costs.user.js:277-279 | the tree's ranks are `collectRanks`' groups and `seen` starts empty |
| Session.TreeSession.UpdateSums | TechTreeCost/WarthunderWiki-Techtree-Costs.user.js:281-293 | every rank's sums recomputed from `seen`, every span rendered, `seen` and pills untouched |
| Session.TreeSession.SumRanks | TechTreeCost/WarthunderWiki-Techtree-Costs.user.js:282-291 | the loop over ranks sets each rank's sums and span text |
| Session.TreeSession.RenderTotalSum | TechTreeCost/WarthunderWiki-Techtree-Costs.user.js:252-271 | the totals are written into the rank-1 span when there is a header row and that span |
| Session.TreeSession.Visit | TechTreeCost/WarthunderWiki-Techtree-Costs.user.js:296-313 | one element: skipped without an id; a hit is recorded and shown, and the sums and all spans are then exactly those `updateSums` renders; a miss shows zeros, is enqueued, and leaves the ranks and spans as they were |
| Session.TreeSession.ProcessTree | TechTreeCost/WarthunderWiki-Techtree-Costs.user.js:295-317 | after the pass: `seen` holds the cached units, every element with an id has a pill, each miss is enqueued once in document order, the sums and spans are current |
| Session.TreeSession.Pass | TechTreeCost/WarthunderWiki-Techtree-Costs.user.js:295-315 | the two loops, without the final `updateSums`: `seen`, the pills and the queued jobs are the per-element steps over all elements, rank by rank, in document order; only label spans may change |
| Session.TreeSession.VisitAll | TechTreeCost/WarthunderWiki-Techtree-Costs.user.js:296-314 | the loop over one rank's elements applies the per-element step to each in order |
| Session.SeenAfterAppend | TechTreeCost/WarthunderWiki-Techtree-Costs.user.js:295-315 | the pass over two runs of elements equals the pass over the first, then over the second |
| Session.BadgesAfterAppend | TechTreeCost/WarthunderWiki-Techtree-Costs.user.js:295-315 | the pills after two runs of elements are those after the first, then the second |
| Session.MissesAppend | TechTreeCost/WarthunderWiki-Techtree-Costs.user.js:295-315 | the jobs queued for two runs of elements are the first run's jobs followed by the second's |
| Session.TreeSession.OnDone | TechTreeCost/WarthunderWiki-Techtree-Costs.user.js:309-313 | the fetched record enters `seen` and the pill, and the sums and spans are redone |
| Session.TreeSession.RequestSettled | TechTreeCost/WarthunderWiki-Techtree-Costs.user.js:150-157 | the settling request writes the cache on success and then runs the tree's `onDone` with the record or with zeros |

## Left out

- Browser and extension calls are not modelled: `GM.getValue`, `GM.setValue`, `GM.xmlHttpRequest` and `DOMParser`.
  - A request's result is a `FetchOutcome`: the page's info items, or a failure.
  - The cache is a map owned by the queue.
- The 500 ms delay and the clock are not modelled. A clock reading is part of each outcome.
- Interleaving during awaits is not modelled.
  - `processTree` awaits each cache read, so a fetch completing during the pass would run its `onDone` in the middle of the pass. The model runs the pass without interruption, with completions as separate later steps.
  - If the cache write fails, the script skips the fetched record: its `catch` calls `onDone` once, with zeros. The model does not cover this failure.
  - If `onDone` throws, the `catch` calls it a second time, with zeros. The model does not cover this either.
- One queue serves one tree here. The script's single queue is shared by every tree and the list view.
- `fmt` is a parameter. Locale formatting is not modelled.
- Styling is left out: `ensurePill`, the pill's CSS, and the `.wt-total-sum` host element (created but never written).
- `processList` and its observer are left out, as are `boot`, `getVisibleTree` and the polling and animation-frame plumbing.
- `toInt` works on unbounded integers. The script's `parseInt` loses precision above 2^53. Above about 1.8e308 it returns Infinity, which `Number.isFinite` turns into 0.
- `Summary.Rewrite` inserts the total text literally. The script's `String.prototype.replace` would expand `$&`, `` $` ``, `$'` and `$$` in it. Formatted numbers contain no `$`, so this differs only for a `fmt` that produces one.
- Stored values are always well-formed records. The script's `typeof cached === 'object'` test and its `|| 0` guards would skip or zero malformed values.
- The fallback chain of `collectRanks` always yields a container, so its `if (!left) continue` never fires. The model has no such branch.
- A rank's label text is read once, when the ranks are collected. Later text in the label element is not observed.
- Element identities are plain numbers, and the "first item of its group" relation is a given map.
- The rank-1 span is the first rank whose label sits in the first grid column. A `.wt-rank-sum` span inside such a label but outside the collected ranks is not modelled.
- `Summary.RankOneText`, `Render.RenderedRankOne`: these assume that no formatted number contains an em dash. `Summary.RankOneReapplied` also assumes that formatted numbers are non-empty and contain no whitespace.
  - Locales that group digits with a comma, a period or an apostrophe (en, de, it, de-CH) meet both assumptions.
  - Locales that group with U+00A0 (ru, pl, cs, sv) or U+202F (fr) do not: `RankOneReapplied` says nothing for them.
- `Session.BadgesAfterShown`, `Render.RankSpanOf`: these state the value of a pill or span only when no later element or rank uses the same element. Otherwise the later one's text wins.
