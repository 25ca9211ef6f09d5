# College Planner: the planner document and its callbacks

The College Planner is a single Streamlit page (`app.py`) for tracking
finance plans and study tasks. Beneath the widgets it keeps one in-memory
**planner document**: an ordered list of finance plans (SIP, Monthly Budget,
Savings Goal, Stock Experiment) and an ordered mapping from subject name to
that subject's task list. Beside it sits a session-only list of daily
goals. Every button or form callback applies one small mutation to this
state; the page then saves the document and redraws.

This Dafny project models that state and those mutations:

- `options.dfy` — `Option`, for absent dictionary keys and unset session entries.
- `sequences.dfy` — the list operations the callbacks use: `pop(i)`, the
  neighbour swap behind the move buttons, removing a key from a key order.
- `text.dfy` — `strip`, line splitting and the comprehension that turns the
  bulk-add text area into task titles.
- `finance.dfy` — plans, the entry a form builds, the save rule, budget
  categories (an insertion-ordered dictionary), the SIP projection loop.
- `learning.dfy` — statuses, tasks, goals, the checkbox rule, the counters
  behind the progress bars and the status chart, the subject key order.
- `planner.dfy` — class `Planner` (the document: `finance`, `subjects`,
  `learning`) and class `DailyGoals`, one method per callback, each ensuring
  the new state in terms of the old one. `Planner`'s methods also preserve
  its `Valid()` (subjects are exactly the mapping's keys, each once;
  category names are distinct); `DailyGoals`, a plain list, has no invariant.

Behaviour worth knowing, as the code has it:

- Saving a plan form replaces a plan only if the session's edit type equals
  the form's type AND the edit index is the last index of the list
  (`app.py:212-216`). Editing any other plan appends a new plan and leaves
  the old one in place (`Finance.EditNotLastAppends`). The saved entry is
  built from the form alone, so editing a Monthly Budget drops its
  categories (`Finance.EditBudgetDropsCategories`).
- The task checkbox writes a status only when the box is flipped
  (`app.py:422`). Because an In Progress task is drawn unchecked, the
  unchecked branch never applies to it: leaving its box alone keeps it In
  Progress, it can only become Done, and unchecking then gives ToDo
  (`Learning.AfterCheckbox`, `Learning.InProgressLeavesOnlyToDone`).
- The Delete Category selectbox offers the placeholder "-" before the
  category names, and the delete button is drawn only while something other
  than "-" is selected (`app.py:287-288`). A category named "-", which the
  add form accepts, can therefore never be deleted
  (`PlannerStore.Planner.DeleteCategory`).
- The bulk form's guard `bulk_tasks.strip()` is redundant: the line filter
  yields nothing exactly when the text strips to nothing (`Text.TaskLinesEmpty`).

## Model

| member | source | states |
|---|---|---|
| Sequences.RemoveAt | app.py:306 | `pop(i)`: one element shorter, elements before `i` unchanged, later ones shifted down by one, the multiset loses exactly `s[i]` |
| Sequences.Swap | app.py:312 | the two positions exchange their elements, all others unchanged, same multiset |
| Sequences.MoveUp | app.py:311-312 | move-up is a no-op at index 0; otherwise entries `idx-1` and `idx` exchange and nothing else moves; length and multiset are preserved |
| Sequences.MoveDown | app.py:316-317 | move-down is a no-op at the last index; otherwise entries `idx` and `idx+1` exchange and nothing else moves; length and multiset are preserved |
| Sequences.MoveUpThenDown | app.py:311-317 | moving an entry up and then down from its new place restores the list |
| Sequences.MoveDownThenUp | app.py:311-317 | moving an entry down and then up from its new place restores the list |
| Sequences.SwapKeepsKeys | app.py:441 | swapping two subjects keeps the same set of names and keeps distinct names distinct |
| Sequences.DistinctCons | app.py:281 | a key put in front of a distinct key order that lacks it gives a distinct key order |
| Sequences.DistinctTail | app.py:375 | the tail of a distinct key order is distinct and does not contain its head |
| Sequences.Without | app.py:435 | the key order after `pop(name)` is no longer than before and is unchanged if `name` was absent |
| Sequences.WithoutKeys | app.py:435 | after `pop(name)` the keys are exactly the old keys other than `name`, and distinct keys stay distinct |
| Sequences.WithoutIsRemoveAt | app.py:435 | for distinct keys, removing the key at position `i` equals `s[..i] + s[i+1..]`, i.e. `pop(i)` on the key order, so the other keys keep their relative order |
| Text.TrimLeft | app.py:411 | `lstrip`: no longer than the input, does not start with whitespace, empty iff the input is all whitespace |
| Text.TrimLeftSlice | app.py:411 | `lstrip` keeps a suffix of the input and cuts off whitespace only |
| Text.TrimRight | app.py:411 | `rstrip`: no longer than the input, does not end with whitespace, empty iff the input is all whitespace |
| Text.TrimRightSlice | app.py:411 | `rstrip` keeps a prefix of the input and cuts off whitespace only |
| Text.Strip | app.py:410-411 | `strip`: no longer than the input, no whitespace left at either end, empty iff the input is all whitespace |
| Text.StripPiece | app.py:411 | the result of `strip` is the contiguous piece of the input starting after its leading whitespace |
| Text.StripCuts | app.py:411 | everything `strip` cuts off, before and after the kept piece, is whitespace |
| Text.StripCutsAfter | app.py:411 | everything after the piece `strip` keeps is whitespace |
| Text.StripIdempotent | app.py:411 | stripping a stripped line changes nothing |
| Text.StrippedIsFixed | app.py:411 | a non-empty text with no whitespace at either end is its own strip, so the kept titles are already stripped |
| Text.StripKeepsNoBreak | app.py:411 | stripping a line never introduces a line boundary |
| Text.Lines | app.py:411 | splitting at the `splitlines` boundaries gives at least one line and no line holds a boundary |
| Text.UnifyBreaks | app.py:411 | the text with every line boundary replaced by a line feed and every other character kept, same length |
| Text.UnifyBreaksNoBreak | app.py:411 | a text without boundaries is unchanged by unifying them |
| Text.AllSpaceUnify | app.py:410-411 | unifying the boundaries does not change whether a text is all whitespace |
| Text.JoinLines | app.py:411 | joining the split lines with line feeds gives the text back, each boundary written as a line feed |
| Text.LinesCons | app.py:411 | a line without a boundary, a line feed and more text split into that line followed by the lines of the rest |
| Text.LinesJoin | app.py:411 | splitting the join of boundary-free lines gives those lines back |
| Text.LinesOfLine | app.py:411 | a text without a line boundary is a single line |
| Text.AllSpaceConcat | app.py:410 | a concatenation is all whitespace iff both parts are |
| Text.AllSpaceJoin | app.py:410-411 | joined lines are all whitespace iff every line is |
| Text.KeepStripped | app.py:411 | the line filter keeps at most one title per line, each non-empty with no whitespace at either end |
| Text.KeepStrippedEmpty | app.py:411 | the line filter keeps nothing iff every line is blank |
| Text.TaskLinesEmpty | app.py:410-411 | the filter yields no title iff the whole text strips to nothing, so the `strip()` guard agrees with the filter |
| Text.TaskLines | app.py:411 | every title the bulk form adds is non-empty with no whitespace at either end |
| Text.KeepStrippedOneLine | app.py:411 | no kept title of boundary-free lines holds a line boundary |
| Text.TaskLinesOneLine | app.py:411 | no title added from the text area holds a line boundary |
| Finance.Entry | app.py:203-211 | the entry built from a form has the form's type and name and exactly that type's fields; a Monthly Budget entry has no categories |
| Finance.SavedPlans | app.py:212-222 | after a save the entry is the last plan; the length is unchanged iff the edit type matches and the edit index is the last index, else it grows by one; every other plan is unchanged |
| Finance.EditNotLastAppends | app.py:212-222 | editing a plan that is not the last and saving appends the entry and leaves the edited plan in place |
| Finance.EditBudgetDropsCategories | app.py:207-216 | replacing the last plan from a Monthly Budget form leaves it without categories |
| Finance.Names | app.py:287 | the category names in dictionary order, one per entry |
| Finance.ReplacesLast | app.py:212-215 | a save replaces only when the list is non-empty and the edit index is its last index; an earlier edit index or a different edit type never replaces |
| Finance.CategoriesOf | app.py:260 | `plan.get('categories', {})`: a budget's dictionary when it has one, otherwise empty; a non-empty result is the plan's own dictionary |
| Finance.Lookup | app.py:280-289 | the meaning of the category dictionary that the upsert and the delete change: a name has an amount iff it is among the names, and that amount is the one stored under it |
| Finance.Upsert | app.py:281 | `categories[name] = amount`: an existing name keeps its position, a new one is appended, names stay distinct |
| Finance.UpsertLookup | app.py:281 | after `categories[name] = amount`, `name` maps to `amount` and every other name keeps its amount |
| Finance.Remove | app.py:289 | `del categories[name]`: `name` is gone, the other names keep their order and amounts, names stay distinct |
| Finance.WithCategory | app.py:280-281 | the category form on a Monthly Budget changes only its categories, creating the dictionary if absent, by the upsert |
| Finance.WithoutCategory | app.py:286-289 | the delete-category button changes only the plan's categories, by the removal |
| Finance.UpsertThenRemove | app.py:280-289 | adding a new category and deleting it again restores the categories exactly |
| Finance.SipGrowth | app.py:245-253 | the loop produces `12 * years` values (none for `years <= 0`), the value of month `m` being the projection after `m` steps from 0 |
| Finance.SipNonDecreasing | app.py:250-252 | with non-negative amount and rate the projection is non-negative and never decreases from one month to the next |
| Learning.NewTasks | app.py:412 | one task per title, in order, each with that title and status ToDo |
| Learning.AfterCheckbox | app.py:418-423 | after the checkbox callback the task is Done iff the box is checked; the status changes only when the box was flipped, and then to Done or ToDo |
| Learning.InProgressLeavesOnlyToDone | app.py:418-423 | an In Progress task stays In Progress unless checked, when it becomes Done; unchecking it then gives ToDo |
| Learning.DoneTasks | app.py:381 | `done_tasks`: at most the number of tasks, all of them iff every task is Done, none iff none is |
| Learning.CountStatus | app.py:388-389 | a status count never exceeds the number of tasks |
| Learning.StatusCountsSum | app.py:387-389 | the ToDo, In Progress and Done counts add up to the number of tasks |
| Learning.CountStatusExtremes | app.py:381 | a status counts every task iff all tasks have it, and none iff no task has it |
| Learning.CountStatusSnoc | app.py:388-389 | one more task adds one to its own status's count and nothing to the others |
| Learning.CountStatusAppend | app.py:381 | the count over two lists joined is the sum of the counts |
| Learning.NewTasksCounts | app.py:410-414 | bulk-adding tasks leaves the Done and In Progress counts unchanged and raises the ToDo count by the number of titles |
| Learning.CompletionRatio | app.py:359 | `done / total` guarded against zero: in [0, 1], 0 without items, 1 iff all are done, 0 iff none is |
| Learning.ProgressPercent | app.py:380-382 | the subject's progress is in [0, 100], 0 without tasks, 100 iff there are tasks and all are Done, 0 iff none is Done |
| Learning.StatusDistribution | app.py:386-389 | the status counts have all three statuses, zero-filled, each equal to the number of tasks with that status, summing to the number of tasks |
| Learning.GoalsDone | app.py:343-357 | the number of done goals never exceeds the number of goals |
| Learning.CountGoals | app.py:343-358 | the loop's `done_count` is the number of done goals, `total_goals` the number of goals, and `done_count <= total_goals` |
| Learning.Rebuild | app.py:442 | the rebuilt mapping has exactly the keys of the order, each with its old task list |
| Learning.RebuildAfterSwap | app.py:440-448 | after swapping two subjects the rebuilt mapping equals the old one, and the new order is a valid key order for it |
| Learning.KeyOrderUpdate | app.py:412-414 | replacing the tasks of an existing subject keeps the key order valid |
| Learning.KeyOrderWithout | app.py:435 | removing a subject from the order and the mapping leaves a valid key order |
| PlannerStore.Planner.constructor | app.py:8-12 | the default document: no plans, no subjects |
| PlannerStore.Planner.SavePlan | app.py:202-226 | the plan list becomes the saved list of the save rule; `updated` is true iff the last plan was replaced; the invariant is kept |
| PlannerStore.Planner.DeletePlan | app.py:305-306 | the plan list loses exactly entry `idx` |
| PlannerStore.Planner.MovePlanUp | app.py:311-312 | the plan list becomes its move-up at `idx` |
| PlannerStore.Planner.MovePlanDown | app.py:316-317 | the plan list becomes its move-down at `idx` |
| PlannerStore.Planner.SetCategory | app.py:280-281 | an empty name changes nothing (a whitespace-only name is accepted); otherwise only plan `idx` changes, by the category upsert |
| PlannerStore.Planner.DeleteCategory | app.py:286-289 | `changed` iff the selection is not the placeholder "-"; then only plan `idx` changes, losing exactly that category, else nothing changes |
| PlannerStore.Planner.AddSubject | app.py:366-373 | empty name: nothing (a whitespace-only name is accepted); existing name: reported as a duplicate, nothing changes; new name: appended to the key order with an empty task list |
| PlannerStore.Planner.DeleteSubject | app.py:434-435 | the subject's key and tasks are gone, every other subject keeps its tasks and its place in the order |
| PlannerStore.Planner.MoveSubjectUp | app.py:440-442 | the key order becomes its move-up at `idx`, the mapping is unchanged |
| PlannerStore.Planner.MoveSubjectDown | app.py:446-448 | the key order becomes its move-down at `idx`, the mapping is unchanged |
| PlannerStore.Planner.AddTasks | app.py:410-414 | a text that strips to nothing adds nothing; otherwise the filtered titles are appended as ToDo tasks after the existing ones; the reported count is the number appended |
| PlannerStore.Planner.SetTaskChecked | app.py:417-423 | only task `tidx` of `subject` changes, and only its status, by the checkbox rule |
| PlannerStore.Planner.DeleteTask | app.py:427-428 | the subject's task list loses exactly entry `tidx`, nothing else changes |
| PlannerStore.DailyGoals.constructor | app.py:332-333 | the goal list starts empty |
| PlannerStore.DailyGoals.AddGoal | app.py:337-338 | a non-empty text, whitespace-only included, is appended as a goal not done; an empty one changes nothing |
| PlannerStore.DailyGoals.SetGoalChecked | app.py:346-349 | only goal `idx` changes, and it is done iff checked |
| PlannerStore.DailyGoals.DeleteGoal | app.py:352-353 | the goal list loses exactly entry `idx` |

## Left out

- Loading and saving (`app.py:8-16`): the file check, JSON parsing and the
  rewrite after every mutation are I/O. The constructor models only the
  default document returned when no file exists; malformed files are not modelled.
- All rendering: CSS, forms, widgets, charts, messages, `st.rerun`,
  `st.stop`, the intro page and the footer.
- The session flags `finance_type` and `edit_finance_idx`, set by the
  edit button (`app.py:300-303`) and cleared by `reset_forms`
  (`app.py:22-26`) and by Cancel: they are parameters of `SavePlan`.
- The savings-goal percentage (`app.py:240-242`): a zero-guarded
  floating-point division shown as text; it is left out as a
  floating-point computation.
- Learning.CompletionRatio, Learning.ProgressPercent: computed over exact
  reals, where the source divides Python floats; rounding is not modelled.
- Finance.SipGrowth: computed over exact reals, so it says nothing about
  floating-point rounding of the projected values; the chart and caption
  are left out.
- pandas DataFrames and the plotly, line and bar charts (`app.py:255-256`,
  `264-274`, `295-297`, `390-405`).
- Whitespace (`Text.IsSpace`) is the set of characters for which Python's `str.isspace()`
  holds; a later change to Python's Unicode data is not followed.
- Text.Lines: ends a line at each boundary character on its own, so a
  carriage return followed by a line feed gives an extra blank line between
  them, a final boundary gives a trailing blank line, and `""` gives `[""]`
  where `"".splitlines()` is `[]`. Only blank lines differ, and the filter
  drops them, so the titles are those the source computes.
- The order of budget categories is modelled as that of a Python dict
  (insertion order); the pie chart and the delete list that show it are
  left out.
- Daily goals: `save_data` is called after each goal change
  (`app.py:339`, `350`, `354`), but the goals are not part of the document
  and are never written; they are modelled as an ephemeral list.
- No numeric validation: the form widgets bound amounts, rate and years;
  the model, like the callbacks, accepts any value.
