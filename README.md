# Daily screen-time tracker: a Dafny model

This project models the state machine of a child's daily screen-time tracker
(`src/App.jsx`). It has four parts:

- three partial minute counters for today: `sabah` (morning), `ogle` (midday)
  and `aksam` (evening);
- a classifier that puts the day's total into one of four ordered tiers. The
  tiers are `efsane` (legendary), `iyi` (good), `sinirda` (borderline) and
  `asti` (exceeded), and each cut-off is a ratio of the daily limit;
- a newest-first history of frozen day records, with delete and a single-slot undo;
- a star/crown reward pair. Each legendary day earns a star, and reaching the
  weekly target turns the stars into one crown.

The source keeps the reward pair incrementally. Completing a day and undoing a
delete apply a forward step. Deleting applies a hand-written inverse that
borrows a crown when there are no stars.

The model proves that this incremental bookkeeping agrees with the closed form
(star, crown) = (L mod T, L div T). Here L is the number of legendary records in
the history and T is the weekly star target. The proof covers every undo,
undo-expiry and counter change, every complete whose id is fresh (not in the
history and not the id of the record held for undo), and every delete of a
record that is in the history, starting from an empty history. `Date.now()`
does not by itself make an id fresh: two completions in the same millisecond,
or a clock set back, repeat one.

A second invariant, `CountersInRange()`, says that the step is not negative and
that no partial counter is below zero. Every handler keeps it, and under it a
completed record's total is never negative.

Files:

- `levels.dfy` (module `Levels`): tiers, settings, the default settings and the classifier `GetLevel`.
- `counter.dfy` (module `Counter`): the +/- step of a counter.
- `rewards.dfy` (module `Rewards`): the `Forward` and `Backward` reward steps and the closed form `Derived`.
- `history.dfy` (module `History`): records, the count of legendary records (`Efsanes`) and filtering by id (`Without`).
- `tracker.dfy` (module `Tracker`): class `DayTracker`. It holds the state fields
  and one method per handler. `Valid()` is the reward invariant and
  `CountersInRange()` the counter invariant.

Modelling decisions:

- Ratios are integer hundredths: 0.65 is 65, 0.85 is 85, 1.0 is 100 and 999 is
  99900. The test `total <= limit * ratio` becomes the exact test
  `total * 100 <= limit * pct`. For the default limit of 120, the double-precision
  products 120 × 0.65 and 120 × 0.85 round to exactly 78 and 102. So the model's
  cut-offs 78, 102 and 120 are the ones the source uses.
- The ratio of the catch-all tier `asti` is never read by the classifier, and the model does not read it either.
- The clock value `Date.now()` is the `id` parameter of `CompleteDay`. The
  formatted date is its `date` parameter. The invariant is kept when the id is
  fresh: not in the history and not the id of the record held for undo.
- Each handler is one atomic sequential step over the current state. This
  includes the `crown` read inside the star updater of `deleteRecord`.
- `settings` is a constant field. The tracker loads the settings at start-up
  and nothing in it changes them afterwards.
- The storage reads at start-up become `Option` parameters of the constructor.
  An absent value falls back to its default. The code never restores the saved
  "today" counters: that key is written on every change (src/App.jsx:55) but
  the load effect never reads it, so the counters start at zero.
- `deleteRecord` receives a record, and in the source that record always comes
  from the history. The model accepts any record, as the code does. The reward
  step is applied even if no record carries that id, so the invariant is
  promised only for a record of the history. `History.DuplicateIdsRemoveTwo`
  shows why ids must be unique: filtering one id can remove two legendary days,
  while only one star is taken back.
- A stored step is not checked at load. The default step is 5, and a stored
  step that is not negative gives `CountersInRange()` from the start; a
  negative one would let plus drive a counter below zero.
- A weekly target of zero or less is not rejected. With such a target the
  forward step always wraps. `Valid()` requires a positive target.

## Model

| member | source | states |
|---|---|---|
| `Levels.GetLevel` | src/App.jsx:59-70 | The tier is the first one whose resolved cut-off is at least the total, with inclusive comparisons; asti if none is. The verdict carries the tier's name and its scheme entry. |
| `Levels.FirstAtLeast` | src/App.jsx:63-69 | The index of the first cut-off at least x, or the number of cut-offs. Every earlier cut-off is below x. |
| `Levels.TierBracket` | src/App.jsx:63-69 | With ascending cut-offs, a total is in tier i exactly when it is above cut-off i-1 and at most cut-off i. A total equal to a cut-off stays in the lower tier, and no total falls between tiers. |
| `Levels.Monotone` | src/App.jsx:63-69 | If a <= b, the tier of a is no worse than the tier of b, for every scheme. |
| `Levels.ZeroIsEfsane` | src/App.jsx:63-64 | A total of 0 is efsane when the limit and the efsane ratio are not negative. |
| `Levels.NamesDistinct` | src/App.jsx:64-69 | The tier names that `NameOf` attaches (Efsane, İyi, Sınırda, Aştı) are pairwise different, so a record's frozen name identifies its tier. |
| `Levels.DefaultsWellFormed` | src/App.jsx:10-21 | `DefaultSettings` has a positive limit, step and weekly target. Its cut-offs are 78, 102 and 120 minutes and ascend, so `TierBracket` applies to it. |
| `Levels.DefaultTiers` | src/App.jsx:10-19 | With the default settings, 78 is efsane, 79 and 102 are iyi, 103 and 120 are sinirda, and 121 is asti. |
| `Counter.Minus` | src/App.jsx:197 | Minus is never negative. It is at least v - step, and it is either 0 or v - step, which makes it max(0, v - step). |
| `Counter.Plus` | src/App.jsx:199 | Plus adds exactly one step and has no cap. |
| `Counter.MinusAtZero` | src/App.jsx:197 | Minus at 0 stays 0 for a step that is not negative. |
| `Counter.PlusThenMinus` | src/App.jsx:197-199 | Plus, then minus, gives back any counter value that is not negative. |
| `Counter.MinusThenPlus` | src/App.jsx:197-199 | Minus, then plus, gives back a value of at least one step. |
| `Rewards.Forward` | src/App.jsx:89-97 | Crown grows by 0 or 1. With stars not negative, crown grows by exactly 1 precisely when star wraps to 0. With a positive target, star stays in [0, target). |
| `Rewards.Backward` | src/App.jsx:109-118 | Crown drops by 1 exactly when there are no stars and at least one crown; otherwise crown is unchanged. Crown never becomes negative, and a star in [0, target) stays in range. |
| `Rewards.ForwardDerived` | src/App.jsx:89-97 | One more legendary day moves (L mod T, L div T) one Forward step, to (L+1 mod T, L+1 div T). |
| `Rewards.BackwardDerived` | src/App.jsx:109-118 | One legendary day fewer moves (L+1 mod T, L+1 div T) one Backward step, back to (L mod T, L div T). |
| `Rewards.BackwardForward` | src/App.jsx:89-117 | With star in [0, target) and crown not negative, Backward exactly undoes Forward. |
| `Rewards.ForwardBackward` | src/App.jsx:109-135 | With star in [0, target), crown not negative and the pair not (0, 0), Forward exactly undoes Backward. So delete then undo of a legendary record restores the pair. |
| `Rewards.BackwardAtZero` | src/App.jsx:116 | From (0, 0), Backward leaves both counters at 0. |
| `Rewards.WeekOfSeven` | src/App.jsx:89-117 | With target 7, seven legendary days give (0, 1). Deleting one gives (6, 0), the closed form for six. |
| `History.Without` | src/App.jsx:106 | The filter never lengthens the history and leaves no record carrying the filtered id. |
| `History.WithoutKeepsOrder` | src/App.jsx:106 | The filtered history is a subsequence of the original: records are only dropped, and the rest keep their order. |
| `History.WithoutIds` | src/App.jsx:106 | After filtering, the ids of the history are the old ids minus the filtered one: no record with that id is left and no other id is lost. |
| `History.WithoutMembers` | src/App.jsx:106 | A record survives filtering if and only if it was in the history and its id differs. |
| `History.WithoutAbsent` | src/App.jsx:106 | Filtering an id that is not present leaves the history unchanged. |
| `History.WithoutAt` | src/App.jsx:106 | With unique ids, filtering the id at position k removes exactly that record. The others keep their order. |
| `History.WithoutUnique` | src/App.jsx:106 | Filtering keeps ids unique. |
| `History.EfsanesWithout` | src/App.jsx:106-109 | With unique ids, filtering out the record at position k lowers the legendary count by 1 exactly when that record is legendary. |
| `History.RestoreIsPermutation` | src/App.jsx:126 | Putting a removed record back at the head gives the same records as the original history. |
| `History.DuplicateIdsRemoveTwo` | src/App.jsx:106 | Two legendary records with one id are both removed by a single filter. |
| `Tracker.DayTracker.Total` | src/App.jsx:39 | Today's total is the sum of the three counters: zero counters give a zero total, and with counters not negative the total is at least each counter. |
| `Tracker.DayTracker.CurrentLevel` | src/App.jsx:59-72 | The level shown for today, `GetLevel` of the total, is efsane exactly when the total is within the efsane cut-off, so an emptied day shows efsane. |
| `Tracker.DayTracker.Load` | src/App.jsx:42-48 | Each stored value is used when present and its default when absent. The counters start at 0 and the undo buffer starts empty. Nothing stored and a positive target give a valid state. The default settings, or stored ones with a step that is not negative, give `CountersInRange()`. |
| `Tracker.DayTracker.Decrease` | src/App.jsx:197 | Only the chosen slot changes, and it becomes `Counter.Minus` of its value. Both invariants are kept. |
| `Tracker.DayTracker.Increase` | src/App.jsx:199 | Only the chosen slot changes, and it becomes `Counter.Plus` of its value. Both invariants are kept. |
| `Tracker.DayTracker.CompleteDay` | src/App.jsx:75-102 | The history gains one head record, whose tier is the level shown before completion. It has the given id and date, the total, and the level name, key and emoji from `GetLevel`; the old history is its tail. A legendary day applies `Forward`, other days leave the pair unchanged. All three counters become 0. A fresh id keeps the reward invariant. Under `CountersInRange()` the new record's total is not negative, and the counter invariant is kept. |
| `Tracker.DayTracker.DeleteRecord` | src/App.jsx:105-122 | The history becomes `Without` of its id. The undo buffer holds the item, discarding the previous one. A legendary item applies `Backward`. Deleting a record of the history keeps the reward invariant; the counter invariant is always kept. |
| `Tracker.DayTracker.UndoDelete` | src/App.jsx:124-140 | With an empty buffer, nothing changes. Otherwise the record returns to the head of the history, a legendary one applies `Forward`, and the buffer is emptied. Both invariants are kept. |
| `Tracker.DayTracker.ExpireUndo` | src/App.jsx:121 | When the undo window ends, the buffer is emptied and nothing else changes. Both invariants are kept. |
| `Tracker.DayTracker.DeleteThenUndo` | src/App.jsx:105-140 | Deleting a record of a valid state and undoing at once restores star and crown exactly. The history holds the same records, with the restored one at the head. |

## Left out

- Rendering, tabs and colour classes (src/App.jsx:143-190): presentation, with no logic.
- Saving to localStorage (src/App.jsx:50-56): persistence I/O. Loading is modelled only as absent-or-present inputs to the constructor.
- The 10-second undo timer (src/App.jsx:120-121, 139): timer plumbing. Its expiry is modelled as the explicit `ExpireUndo` method.
- `Date.now()` and `toLocaleDateString`: they read the clock, so they are parameters of `CompleteDay`.
- Floating-point ratios: modelled as exact integer hundredths. Ratios that are not whole hundredths, and double-precision rounding at limits other than the default, are not captured.
- React updater batching and the stale `crown` closure read: each handler is one atomic step.
- Weekly and monthly analytics, level distribution, settings editing and absolute-minute thresholds: src/App.jsx has no code for any of these.
- tailwind.config.js: build configuration with no behaviour.
