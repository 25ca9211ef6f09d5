/**
 The learning side of the planner: tasks and their three statuses, daily
 goals, the checkbox rule that sets a status, the subject mapping with its
 explicit key order, and the counters behind the progress bars and the
 status chart.
 */
module Learning {
  import opened Sequences

  datatype Status = ToDo | InProgress | Done

  /** A task dictionary `{"task": title, "status": status}`. */
  datatype Task = Task(title: string, status: Status)

  /** A daily goal `{"goal": text, "done": done}`. */
  datatype Goal = Goal(text: string, done: bool)

  /** The tasks the bulk form appends: one per title, in order, each ToDo. */
  function NewTasks(titles: seq<string>): (r: seq<Task>)
    ensures |r| == |titles|
    ensures forall i :: 0 <= i < |titles| ==> r[i].title == titles[i] && r[i].status == ToDo
  {
    seq(|titles|, i requires 0 <= i < |titles| => Task(titles[i], ToDo))
  }

  /**
   The status a task has after its checkbox is drawn in state `checked`.
   The box shows `status == Done`; only when the user flips it is the
   status written, as Done if checked and ToDo if not.
   */
  function AfterCheckbox(s: Status, checked: bool): (r: Status)
    ensures r == Done <==> checked
    ensures r == s || r == (if checked then Done else ToDo)
    ensures checked == (s == Done) ==> r == s
  {
    if checked == (s == Done) then s
    else if checked then Done else ToDo
  }

  /**
   An In Progress task is drawn unchecked, so leaving its box alone keeps it
   In Progress; it can only turn Done, never ToDo, from its checkbox. Once
   it is Done, unchecking gives ToDo: In Progress is never restored.
   */
  lemma InProgressLeavesOnlyToDone(checked: bool)
    ensures AfterCheckbox(InProgress, checked) == (if checked then Done else InProgress)
    ensures AfterCheckbox(AfterCheckbox(InProgress, true), false) == ToDo
  {
  }

  // ----- Counts -----

  /** How many of `tasks` have status `s`. */
  function CountStatus(tasks: seq<Task>, s: Status): (n: nat)
    ensures n <= |tasks|
  {
    if tasks == [] then 0
    else CountStatus(tasks[..|tasks| - 1], s) + (if tasks[|tasks| - 1].status == s then 1 else 0)
  }

  /** `done_tasks = sum(1 for t in tasks if t["status"] == "Done")`. */
  function DoneTasks(tasks: seq<Task>): (n: nat)
    ensures n <= |tasks|
    ensures n == |tasks| <==> forall i :: 0 <= i < |tasks| ==> tasks[i].status == Done
    ensures n == 0 <==> forall i :: 0 <= i < |tasks| ==> tasks[i].status != Done
  {
    CountStatusExtremes(tasks, Done);
    CountStatus(tasks, Done)
  }

  /** The three status counts add up to the number of tasks. */
  lemma {:induction false} StatusCountsSum(tasks: seq<Task>)
    ensures CountStatus(tasks, ToDo) + CountStatus(tasks, InProgress) + CountStatus(tasks, Done) == |tasks|
  {
    if tasks != [] {
      StatusCountsSum(tasks[..|tasks| - 1]);
    }
  }

  /** A status counts every task exactly when every task has it, and none exactly when none has it. */
  lemma {:induction false} CountStatusExtremes(tasks: seq<Task>, s: Status)
    ensures CountStatus(tasks, s) == |tasks| <==> forall i :: 0 <= i < |tasks| ==> tasks[i].status == s
    ensures CountStatus(tasks, s) == 0 <==> forall i :: 0 <= i < |tasks| ==> tasks[i].status != s
  {
    if tasks != [] {
      var init := tasks[..|tasks| - 1];
      CountStatusExtremes(init, s);
      assert forall i :: 0 <= i < |init| ==> init[i] == tasks[i];
    }
  }

  /** Counting over a list extended by one task. */
  lemma CountStatusSnoc(tasks: seq<Task>, t: Task, s: Status)
    ensures CountStatus(tasks + [t], s) == CountStatus(tasks, s) + (if t.status == s then 1 else 0)
  {
    assert (tasks + [t])[..|tasks|] == tasks;
  }

  /** Counting over a concatenation adds the counts. */
  lemma {:induction false} CountStatusAppend(a: seq<Task>, b: seq<Task>, s: Status)
    ensures CountStatus(a + b, s) == CountStatus(a, s) + CountStatus(b, s)
  {
    if b != [] {
      var init := b[..|b| - 1];
      CountStatusAppend(a, init, s);
      assert a + b == (a + init) + [b[|b| - 1]];
      CountStatusSnoc(a + init, b[|b| - 1], s);
      assert b == init + [b[|b| - 1]];
      CountStatusSnoc(init, b[|b| - 1], s);
    } else {
      assert a + b == a;
    }
  }

  /**
   Appending new ToDo tasks adds to the ToDo count only: the Done and In
   Progress counts stay, so a subject's done count is unchanged and its
   total grows by the number of titles.
   */
  lemma NewTasksCounts(tasks: seq<Task>, titles: seq<string>)
    ensures CountStatus(tasks + NewTasks(titles), Done) == CountStatus(tasks, Done)
    ensures CountStatus(tasks + NewTasks(titles), InProgress) == CountStatus(tasks, InProgress)
    ensures CountStatus(tasks + NewTasks(titles), ToDo) == CountStatus(tasks, ToDo) + |titles|
  {
    var added := NewTasks(titles);
    CountStatusAppend(tasks, added, Done);
    CountStatusAppend(tasks, added, InProgress);
    CountStatusAppend(tasks, added, ToDo);
    CountStatusExtremes(added, Done);
    CountStatusExtremes(added, InProgress);
    CountStatusExtremes(added, ToDo);
  }

  /**
   `done / total` when `total > 0` and 0 otherwise: a fraction in [0, 1]
   that is 1 exactly when everything is done.
   */
  function CompletionRatio(done: nat, total: nat): (r: real)
    requires done <= total
    ensures 0.0 <= r <= 1.0
    ensures total == 0 ==> r == 0.0
    ensures total > 0 ==> (r == 1.0 <==> done == total) && (r == 0.0 <==> done == 0)
  {
    if total > 0 then (done as real) / (total as real) else 0.0
  }

  /**
   `progress_pct`: the percentage of a subject's tasks that are Done, 0 for
   a subject without tasks, 100 exactly when there are tasks and all are
   Done.
   */
  function ProgressPercent(tasks: seq<Task>): (p: real)
    ensures 0.0 <= p <= 100.0
    ensures |tasks| == 0 ==> p == 0.0
    ensures |tasks| > 0 ==> (p == 100.0 <==> forall i :: 0 <= i < |tasks| ==> tasks[i].status == Done)
    ensures p == 0.0 <==> forall i :: 0 <= i < |tasks| ==> tasks[i].status != Done
  {
    CountStatusExtremes(tasks, Done);
    CompletionRatio(DoneTasks(tasks), |tasks|) * 100.0
  }

  /**
   `status_counts`: all three statuses present, zero-filled, each counted by
   a pass over the tasks; the counts add up to the number of tasks.
   */
  method StatusDistribution(tasks: seq<Task>) returns (counts: map<Status, nat>)
    ensures forall s: Status :: s in counts && counts[s] == CountStatus(tasks, s)
    ensures counts[ToDo] + counts[InProgress] + counts[Done] == |tasks|
  {
    counts := map[ToDo := 0, InProgress := 0, Done := 0];
    var i := 0;
    assert tasks[..0] == [];
    forall s: Status ensures s in counts && counts[s] == CountStatus(tasks[..0], s) {
      match s
      case ToDo =>
      case InProgress =>
      case Done =>
    }
    while i < |tasks|
      invariant 0 <= i <= |tasks|
      invariant forall s: Status :: s in counts && counts[s] == CountStatus(tasks[..i], s)
    {
      var st := tasks[i].status;
      assert tasks[..i + 1][..i] == tasks[..i];
      counts := counts[st := counts[st] + 1];
      i := i + 1;
    }
    assert tasks[..|tasks|] == tasks;
    StatusCountsSum(tasks);
  }

  /** How many daily goals are done. */
  function GoalsDone(goals: seq<Goal>): (n: nat)
    ensures n <= |goals|
  {
    if goals == [] then 0
    else GoalsDone(goals[..|goals| - 1]) + (if goals[|goals| - 1].done then 1 else 0)
  }

  /**
   The daily-goal checklist's counter: `done_count` over the goals, and
   `total_goals`; the count never exceeds the total.
   */
  method CountGoals(goals: seq<Goal>) returns (doneCount: nat, total: nat)
    ensures doneCount == GoalsDone(goals) && total == |goals|
    ensures doneCount <= total
  {
    doneCount := 0;
    var idx := 0;
    while idx < |goals|
      invariant 0 <= idx <= |goals|
      invariant doneCount == GoalsDone(goals[..idx])
    {
      assert goals[..idx + 1][..idx] == goals[..idx];
      if goals[idx].done {
        doneCount := doneCount + 1;
      }
      idx := idx + 1;
    }
    assert goals[..|goals|] == goals;
    total := |goals|;
  }

  // ----- The subject mapping -----

  /**
   The learning mapping as the planner keeps it: `order` lists the keys of
   `tasks` in dictionary order, each once.
   */
  ghost predicate KeyOrder(order: seq<string>, tasks: map<string, seq<Task>>)
  {
    Distinct(order) && forall k :: k in tasks <==> k in order
  }

  /** `{k: learning[k] for k in order}`: the mapping rebuilt in the key order `order`. */
  function Rebuild(order: seq<string>, tasks: map<string, seq<Task>>): (r: map<string, seq<Task>>)
    requires forall k :: k in order ==> k in tasks
    ensures forall k :: k in r <==> k in order
    ensures forall k :: k in r ==> r[k] == tasks[k]
  {
    map k | k in order :: tasks[k]
  }

  /**
   Moving a subject up or down and rebuilding the mapping in the new order
   keeps every subject and each subject's own task list; the new order is a
   valid key order of the same mapping.
   */
  lemma RebuildAfterSwap(order: seq<string>, tasks: map<string, seq<Task>>, i: nat, j: nat)
    requires KeyOrder(order, tasks) && i < |order| && j < |order|
    ensures forall k :: k in Swap(order, i, j) ==> k in tasks
    ensures Rebuild(Swap(order, i, j), tasks) == tasks
    ensures KeyOrder(Swap(order, i, j), tasks)
  {
    SwapKeepsKeys(order, i, j);
  }

  /** Replacing the tasks of a subject that is already a key keeps the key order. */
  lemma KeyOrderUpdate(order: seq<string>, tasks: map<string, seq<Task>>, name: string, v: seq<Task>)
    requires KeyOrder(order, tasks) && name in tasks
    ensures KeyOrder(order, tasks[name := v])
  {
  }

  /** Removing a subject from the key order and the mapping leaves a valid key order. */
  lemma KeyOrderWithout(order: seq<string>, tasks: map<string, seq<Task>>, name: string)
    requires KeyOrder(order, tasks)
    ensures KeyOrder(Without(order, name), tasks - {name})
  {
    WithoutKeys(order, name);
  }
}
