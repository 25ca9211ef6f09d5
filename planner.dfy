/**
 The planner document as the page holds it in its session, and the
 callbacks that change it in place. `Planner` is the document: the finance
 list and the learning mapping (its key order kept explicitly). `DailyGoals`
 is the separate, session-only goal list. Each method is one button or form
 callback; the edit state of a plan form arrives as parameters.
 */
module PlannerStore {
  import opened Options
  import opened Sequences
  import opened Text
  import opened Finance
  import opened Learning

  /** What the Add Subject form reports. */
  datatype AddSubjectOutcome = Added | AlreadyExists | NothingToAdd

  class Planner {
    /** `data["finance"]`, in display order. */
    var finance: seq<Plan>
    /** `list(data["learning"].keys())`: the subjects in dictionary order. */
    var subjects: seq<string>
    /** `data["learning"]`: each subject's tasks, in order. */
    var learning: map<string, seq<Task>>

    /** Subjects are the mapping's keys, each once; every budget's category names are distinct. */
    ghost predicate Valid()
      reads this
    {
      && KeyOrder(subjects, learning)
      && AllCategoriesDistinct(finance)
    }

    /** The document `load_data` returns when there is no file: no plans, no subjects. */
    constructor ()
      ensures Valid()
      ensures finance == [] && subjects == [] && learning == map[]
    {
      finance := [];
      subjects := [];
      learning := map[];
    }

    // ----- Finance list -----

    /**
     Submitting a plan form. Replaces the last plan when `editKind` and
     `editIdx` asked to edit exactly that plan with a form of its kind;
     otherwise appends. `updated` tells which ("Plan updated!" or "Plan saved!").
     */
    method SavePlan(form: PlanForm, editKind: Option<PlanKind>, editIdx: Option<nat>) returns (updated: bool)
      requires Valid()
      modifies this`finance
      ensures Valid()
      ensures updated <==> ReplacesLast(old(finance), FormKind(form), editKind, editIdx)
      ensures finance == SavedPlans(old(finance), Entry(form), editKind, editIdx)
    {
      var entry := Entry(form);
      updated := editKind == Some(FormKind(form)) && editIdx.Some? && editIdx.value == |finance| - 1;
      if updated {
        finance := finance[editIdx.value := entry];
      } else {
        finance := finance + [entry];
      }
    }

    /** The delete button of plan `idx`: `finance_list.pop(idx)`. */
    method DeletePlan(idx: nat)
      requires Valid() && idx < |finance|
      modifies this`finance
      ensures Valid()
      ensures finance == RemoveAt(old(finance), idx)
    {
      finance := finance[..idx] + finance[idx + 1..];
    }

    /** The move-up button of plan `idx`: swaps it with its predecessor when `idx > 0`. */
    method MovePlanUp(idx: nat)
      requires Valid() && idx < |finance|
      modifies this`finance
      ensures Valid()
      ensures finance == MoveUp(old(finance), idx)
    {
      if idx > 0 {
        finance := finance[idx - 1 := finance[idx]][idx := finance[idx - 1]];
      }
    }

    /** The move-down button of plan `idx`: swaps it with its successor unless it is last. */
    method MovePlanDown(idx: nat)
      requires Valid() && idx < |finance|
      modifies this`finance
      ensures Valid()
      ensures finance == MoveDown(old(finance), idx)
    {
      if idx < |finance| - 1 {
        finance := finance[idx + 1 := finance[idx]][idx := finance[idx + 1]];
      }
    }

    /**
     The Add/Update Category form of Monthly Budget plan `idx`. An empty name
     does nothing, though one of spaces only is accepted; otherwise the
     category is set and nothing else changes.
     */
    method SetCategory(idx: nat, name: string, amount: real) returns (changed: bool)
      requires Valid() && idx < |finance| && finance[idx].BudgetPlan?
      modifies this`finance
      ensures Valid()
      ensures changed <==> name != ""
      ensures finance == if changed then old(finance)[idx := WithCategory(old(finance)[idx], name, amount)]
                         else old(finance)
    {
      changed := name != "";
      if changed {
        finance := finance[idx := WithCategory(finance[idx], name, amount)];
      }
    }

    /**
     The Delete Category selectbox and button of Monthly Budget plan `idx`.
     `selected` is the option chosen: the placeholder "-" or a category name.
     While "-" is selected there is no button, so nothing changes; in
     particular a category named "-" can never be deleted. Otherwise exactly
     that category goes.
     */
    method DeleteCategory(idx: nat, selected: string) returns (changed: bool)
      requires Valid() && idx < |finance| && finance[idx].BudgetPlan?
      requires selected == "-" || selected in Names(CategoriesOf(finance[idx]))
      modifies this`finance
      ensures Valid()
      ensures changed <==> selected != "-"
      ensures finance == if changed then old(finance)[idx := WithoutCategory(old(finance)[idx], selected)]
                         else old(finance)
    {
      changed := selected != "-";
      if changed {
        finance := finance[idx := WithoutCategory(finance[idx], selected)];
      }
    }

    // ----- Learning mapping -----

    /**
     The Add Subject form. An empty name does nothing, though one of spaces
     only is accepted; a name already in the mapping is reported and changes
     nothing; a new name is appended to the key order with no tasks.
     */
    method AddSubject(name: string) returns (outcome: AddSubjectOutcome)
      requires Valid()
      modifies this`subjects, this`learning
      ensures Valid()
      ensures outcome == NothingToAdd <==> name == ""
      ensures outcome == AlreadyExists <==> name != "" && name in old(learning)
      ensures outcome == Added ==> subjects == old(subjects) + [name] && learning == old(learning)[name := []]
      ensures outcome != Added ==> subjects == old(subjects) && learning == old(learning)
    {
      if name == "" {
        outcome := NothingToAdd;
      } else if name !in learning {
        learning := learning[name := []];
        subjects := subjects + [name];
        outcome := Added;
      } else {
        outcome := AlreadyExists;
      }
    }

    /** The delete button of a subject: its key and all its tasks go; the other subjects keep theirs. */
    method DeleteSubject(name: string)
      requires Valid() && name in learning
      modifies this`subjects, this`learning
      ensures Valid()
      ensures subjects == Without(old(subjects), name)
      ensures learning == old(learning) - {name}
    {
      KeyOrderWithout(subjects, learning, name);
      learning := learning - {name};
      subjects := Without(subjects, name);
    }

    /**
     The move-up button of subject `idx`: the key order swaps `idx` with its
     predecessor when `idx > 0` and the mapping is rebuilt in that order; each
     subject keeps its own tasks.
     */
    method MoveSubjectUp(idx: nat)
      requires Valid() && idx < |subjects|
      modifies this`subjects, this`learning
      ensures Valid()
      ensures subjects == MoveUp(old(subjects), idx)
      ensures learning == old(learning)
    {
      if idx > 0 {
        var order := subjects[idx - 1 := subjects[idx]][idx := subjects[idx - 1]];
        RebuildAfterSwap(subjects, learning, idx - 1, idx);
        learning := Rebuild(order, learning);
        subjects := order;
      }
    }

    /** The move-down button of subject `idx`: as MoveSubjectUp, with the successor, unless it is last. */
    method MoveSubjectDown(idx: nat)
      requires Valid() && idx < |subjects|
      modifies this`subjects, this`learning
      ensures Valid()
      ensures subjects == MoveDown(old(subjects), idx)
      ensures learning == old(learning)
    {
      if idx < |subjects| - 1 {
        var order := subjects[idx + 1 := subjects[idx]][idx := subjects[idx + 1]];
        RebuildAfterSwap(subjects, learning, idx, idx + 1);
        learning := Rebuild(order, learning);
        subjects := order;
      }
    }

    /**
     The bulk Add Tasks form of `subject`. A text that strips to nothing adds
     nothing; otherwise one ToDo task per non-blank line, stripped, is
     appended after the existing tasks. `added` is the number appended.
     */
    method AddTasks(subject: string, text: string) returns (added: nat)
      requires Valid() && subject in learning
      modifies this`learning
      ensures Valid()
      ensures added == |TaskLines(text)|
      ensures added == 0 <==> Strip(text) == ""
      ensures learning == old(learning)[subject := old(learning)[subject] + NewTasks(TaskLines(text))]
    {
      TaskLinesEmpty(text);
      var titles := TaskLines(text);
      added := |titles|;
      if Strip(text) != "" {
        KeyOrderUpdate(subjects, learning, subject, learning[subject] + NewTasks(titles));
        learning := learning[subject := learning[subject] + NewTasks(titles)];
      } else {
        assert titles == [];
        assert learning[subject] + NewTasks(titles) == learning[subject];
        assert learning[subject := learning[subject]] == learning;
      }
    }

    /** The checkbox of task `tidx` of `subject`, drawn in state `checked`; no other task changes. */
    method SetTaskChecked(subject: string, tidx: nat, checked: bool)
      requires Valid() && subject in learning && tidx < |learning[subject]|
      modifies this`learning
      ensures Valid()
      ensures learning == old(learning)[subject := old(learning)[subject][tidx :=
                Task(old(learning)[subject][tidx].title, AfterCheckbox(old(learning)[subject][tidx].status, checked))]]
    {
      var t := learning[subject][tidx];
      var wasChecked := t.status == Done;
      if checked != wasChecked {
        var status := if checked then Done else ToDo;
        KeyOrderUpdate(subjects, learning, subject, learning[subject][tidx := Task(t.title, status)]);
        learning := learning[subject := learning[subject][tidx := Task(t.title, status)]];
      } else {
        assert learning[subject][tidx := t] == learning[subject];
        assert learning == learning[subject := learning[subject]];
      }
    }

    /** The delete button of task `tidx` of `subject`: `pop(tidx)`. */
    method DeleteTask(subject: string, tidx: nat)
      requires Valid() && subject in learning && tidx < |learning[subject]|
      modifies this`learning
      ensures Valid()
      ensures learning == old(learning)[subject := RemoveAt(old(learning)[subject], tidx)]
    {
      var tasks := learning[subject];
      KeyOrderUpdate(subjects, learning, subject, tasks[..tidx] + tasks[tidx + 1..]);
      learning := learning[subject := tasks[..tidx] + tasks[tidx + 1..]];
    }
  }

  /** `st.session_state["daily_goals"]`: the checklist of the current session, never saved. */
  class DailyGoals {
    var goals: seq<Goal>

    /** The list starts empty in every session. */
    constructor ()
      ensures goals == []
    {
      goals := [];
    }

    /** The Add Goal form: a non-empty text, even one of spaces only, is appended as a goal not yet done. */
    method AddGoal(text: string) returns (added: bool)
      modifies this
      ensures added <==> text != ""
      ensures goals == if added then old(goals) + [Goal(text, false)] else old(goals)
    {
      added := text != "";
      if added {
        goals := goals + [Goal(text, false)];
      }
    }

    /** The checkbox of goal `idx`, drawn in state `checked`: the goal is done exactly when checked. */
    method SetGoalChecked(idx: nat, checked: bool)
      requires idx < |goals|
      modifies this
      ensures goals == old(goals)[idx := Goal(old(goals)[idx].text, checked)]
    {
      if checked != goals[idx].done {
        goals := goals[idx := Goal(goals[idx].text, checked)];
      }
    }

    /** The delete button of goal `idx`: `pop(idx)`. */
    method DeleteGoal(idx: nat)
      requires idx < |goals|
      modifies this
      ensures goals == RemoveAt(old(goals), idx)
    {
      goals := goals[..idx] + goals[idx + 1..];
    }
  }
}
