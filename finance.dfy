/**
 The finance side of the planner document: the four kinds of plan, the
 entry a plan form produces, the rule that decides whether saving a form
 replaces the last plan or appends a new one, the budget categories of a
 Monthly Budget plan, and the SIP growth projection.
 */
module Finance {
  import opened Options
  import opened Sequences

  /** The `type` tag of a plan. */
  datatype PlanKind = Sip | MonthlyBudget | SavingsGoal | StockExperiment

  /** One allocation of a Monthly Budget: a category name and its amount. */
  datatype Category = Category(name: string, amount: real)

  /**
   A finance plan as stored in the document. Only a Monthly Budget carries
   a `categories` dictionary, and only once a category has been added:
   `None` is the absent key. The dictionary is kept as its entries in
   insertion order.
   */
  datatype Plan =
    | SipPlan(name: string, amount: real, rate: real, years: int)
    | BudgetPlan(name: string, income: real, expenses: real, categories: Option<seq<Category>>)
    | SavingsPlan(name: string, target: real, saved: real)
    | StockPlan(name: string, stock: string, invested: real, result: real)

  /** What a submitted plan form holds: the fields of its kind, never categories. */
  datatype PlanForm =
    | SipForm(name: string, amount: real, rate: real, years: int)
    | BudgetForm(name: string, income: real, expenses: real)
    | SavingsForm(name: string, target: real, saved: real)
    | StockForm(name: string, stock: string, invested: real, result: real)

  function Kind(p: Plan): PlanKind
  {
    match p
    case SipPlan(_, _, _, _) => Sip
    case BudgetPlan(_, _, _, _) => MonthlyBudget
    case SavingsPlan(_, _, _) => SavingsGoal
    case StockPlan(_, _, _, _) => StockExperiment
  }

  function FormKind(f: PlanForm): PlanKind
  {
    match f
    case SipForm(_, _, _, _) => Sip
    case BudgetForm(_, _, _) => MonthlyBudget
    case SavingsForm(_, _, _) => SavingsGoal
    case StockForm(_, _, _, _) => StockExperiment
  }

  /**
   The entry dictionary built from a submitted form: the form's type and
   name plus exactly the fields of that type. A Monthly Budget entry has no
   categories yet.
   */
  function Entry(f: PlanForm): (p: Plan)
    ensures Kind(p) == FormKind(f) && p.name == f.name
    ensures p.BudgetPlan? ==> p.categories == None
    ensures p.SipPlan? ==> p.amount == f.amount && p.rate == f.rate && p.years == f.years
    ensures p.BudgetPlan? ==> p.income == f.income && p.expenses == f.expenses
    ensures p.SavingsPlan? ==> p.target == f.target && p.saved == f.saved
    ensures p.StockPlan? ==> p.stock == f.stock && p.invested == f.invested && p.result == f.result
  {
    match f
    case SipForm(n, a, r, y) => SipPlan(n, a, r, y)
    case BudgetForm(n, i, e) => BudgetPlan(n, i, e, None)
    case SavingsForm(n, t, s) => SavingsPlan(n, t, s)
    case StockForm(n, s, i, r) => StockPlan(n, s, i, r)
  }

  /**
   Saving a form replaces a plan only when the session's edit type equals
   the form's type and the edit index is the LAST index of the list; every
   other save appends.
   */
  predicate ReplacesLast(finance: seq<Plan>, kind: PlanKind, editKind: Option<PlanKind>, editIdx: Option<nat>)
    ensures ReplacesLast(finance, kind, editKind, editIdx) ==> |finance| > 0 && editIdx == Some(|finance| - 1)
    ensures editIdx.Some? && editIdx.value + 1 < |finance| ==> !ReplacesLast(finance, kind, editKind, editIdx)
    ensures editKind != Some(kind) ==> !ReplacesLast(finance, kind, editKind, editIdx)
  {
    editKind == Some(kind) && editIdx.Some? && editIdx.value + 1 == |finance|
  }

  /**
   The plan list after saving `entry`. The new entry is always the last
   plan; the list keeps its length exactly when the edit replaced the last
   plan and grows by one otherwise; every other plan stays as it was.
   */
  function SavedPlans(finance: seq<Plan>, entry: Plan, editKind: Option<PlanKind>, editIdx: Option<nat>): (r: seq<Plan>)
    ensures |r| > 0 && r[|r| - 1] == entry
    ensures |r| == |finance| <==> ReplacesLast(finance, Kind(entry), editKind, editIdx)
    ensures |r| == |finance| || |r| == |finance| + 1
    ensures r[..|r| - 1] == finance[..|r| - 1]
  {
    if ReplacesLast(finance, Kind(entry), editKind, editIdx) then finance[editIdx.value := entry]
    else finance + [entry]
  }

  /** Editing any plan but the last one and saving leaves the edited plan in place and appends a copy. */
  lemma EditNotLastAppends(finance: seq<Plan>, f: PlanForm, idx: nat)
    requires idx + 1 < |finance|
    ensures SavedPlans(finance, Entry(f), Some(FormKind(f)), Some(idx)) == finance + [Entry(f)]
  {
  }

  /** Saving a Monthly Budget form over the last plan drops that plan's categories. */
  lemma EditBudgetDropsCategories(finance: seq<Plan>, f: PlanForm)
    requires f.BudgetForm? && |finance| > 0
    ensures var r := SavedPlans(finance, Entry(f), Some(MonthlyBudget), Some(|finance| - 1));
      |r| == |finance| && r[|r| - 1].categories == None
  {
  }

  // ----- Budget categories: a dictionary kept as its entries in insertion order -----

  /** The category names, in order (`list(categories.keys())`). */
  function Names(cats: seq<Category>): (r: seq<string>)
    ensures |r| == |cats| && forall i :: 0 <= i < |cats| ==> r[i] == cats[i].name
  {
    if cats == [] then [] else [cats[0].name] + Names(cats[1..])
  }

  /**
   The amount a category dictionary holds under `name`, if any: what
   `categories[name] = amount` and `del categories[name]` change and keep.
   */
  function Lookup(cats: seq<Category>, name: string): (r: Option<real>)
    ensures r == None <==> name !in Names(cats)
    ensures r.Some? ==> Category(name, r.value) in cats
  {
    if cats == [] then None
    else if cats[0].name == name then Some(cats[0].amount)
    else Lookup(cats[1..], name)
  }

  /**
   `categories[name] = amount`: an existing name keeps its position, a new
   name is appended, and the names stay distinct.
   */
  function Upsert(cats: seq<Category>, name: string, amount: real): (r: seq<Category>)
    ensures name in Names(cats) ==> Names(r) == Names(cats)
    ensures name !in Names(cats) ==> Names(r) == Names(cats) + [name]
    ensures Distinct(Names(cats)) ==> Distinct(Names(r))
  {
    if cats == [] then [Category(name, amount)]
    else
      assert Names(cats) == [cats[0].name] + Names(cats[1..]);
      if cats[0].name == name then
        var r := [Category(name, amount)] + cats[1..];
        assert r[1..] == cats[1..];
        r
      else
        var rest := Upsert(cats[1..], name, amount);
        var r := [cats[0]] + rest;
        assert r[1..] == rest;
        assert Names(r) == [cats[0].name] + Names(rest);
        if Distinct(Names(cats)) then
          DistinctTail(Names(cats));
          DistinctCons(cats[0].name, Names(rest));
          r
        else r
  }

  /** After `categories[name] = amount`, `name` maps to `amount` and every other name to what it mapped to before. */
  lemma {:induction false} UpsertLookup(cats: seq<Category>, name: string, amount: real)
    ensures Lookup(Upsert(cats, name, amount), name) == Some(amount)
    ensures forall n :: n != name ==> Lookup(Upsert(cats, name, amount), n) == Lookup(cats, n)
  {
    if cats != [] && cats[0].name != name {
      var rest := Upsert(cats[1..], name, amount);
      UpsertLookup(cats[1..], name, amount);
      assert Upsert(cats, name, amount) == [cats[0]] + rest;
      assert ([cats[0]] + rest)[1..] == rest;
    } else if cats != [] {
      assert Upsert(cats, name, amount)[1..] == cats[1..];
    }
  }

  /**
   `del categories[name]` for a name that is present: exactly that entry
   goes, the other names keep their order and their amounts.
   */
  function Remove(cats: seq<Category>, name: string): (r: seq<Category>)
    requires name in Names(cats) && Distinct(Names(cats))
    ensures Names(r) == Without(Names(cats), name)
    ensures Lookup(r, name) == None
    ensures forall n :: n != name ==> Lookup(r, n) == Lookup(cats, n)
    ensures Distinct(Names(r))
  {
    assert Names(cats) == [cats[0].name] + Names(cats[1..]);
    DistinctTail(Names(cats));
    WithoutKeys(Names(cats), name);
    if cats[0].name == name then cats[1..]
    else
      var rest := Remove(cats[1..], name);
      assert Names([cats[0]] + rest) == [cats[0].name] + Names(rest);
      [cats[0]] + rest
  }

  /** The categories shown for a plan: `plan.get('categories', {})`. */
  function CategoriesOf(p: Plan): (r: seq<Category>)
    ensures p.BudgetPlan? && p.categories.Some? ==> r == p.categories.value
    ensures r != [] ==> p.BudgetPlan? && p.categories == Some(r)
  {
    if p.BudgetPlan? && p.categories.Some? then p.categories.value else []
  }

  /** A plan whose category names are distinct, as a dictionary's keys are. */
  predicate CategoriesDistinct(p: Plan)
  {
    Distinct(Names(CategoriesOf(p)))
  }

  /** Every plan of the finance list has distinct category names. */
  predicate AllCategoriesDistinct(plans: seq<Plan>)
  {
    forall i :: 0 <= i < |plans| ==> CategoriesDistinct(plans[i])
  }

  /**
   The Add/Update Category form on a Monthly Budget plan:
   `plan.setdefault('categories', {})[name] = amount`. Only the categories
   change, and the dictionary now exists.
   */
  function WithCategory(p: Plan, name: string, amount: real): (r: Plan)
    requires p.BudgetPlan?
    ensures r.BudgetPlan? && r.categories.Some?
    ensures r == p.(categories := r.categories)
    ensures CategoriesOf(r) == Upsert(CategoriesOf(p), name, amount)
  {
    p.(categories := Some(Upsert(CategoriesOf(p), name, amount)))
  }

  /** The Delete Category button: `del plan['categories'][name]`; only the categories change. */
  function WithoutCategory(p: Plan, name: string): (r: Plan)
    requires p.BudgetPlan? && name in Names(CategoriesOf(p)) && CategoriesDistinct(p)
    ensures r.BudgetPlan? && r == p.(categories := r.categories)
    ensures CategoriesOf(r) == Remove(CategoriesOf(p), name)
    ensures CategoriesDistinct(r)
  {
    p.(categories := Some(Remove(CategoriesOf(p), name)))
  }

  /** Adding a category and deleting it again restores the amounts of every other category. */
  lemma {:induction false} UpsertThenRemove(cats: seq<Category>, name: string, amount: real)
    requires name !in Names(cats) && Distinct(Names(cats))
    ensures Remove(Upsert(cats, name, amount), name) == cats
  {
    if cats != [] {
      assert Names(cats) == [cats[0].name] + Names(cats[1..]);
      DistinctTail(Names(cats));
      UpsertThenRemove(cats[1..], name, amount);
    }
  }

  // ----- SIP growth projection -----

  /** The number of months projected: `int(years * 12)`. */
  function Months(years: int): nat
  {
    if years > 0 then 12 * years else 0
  }

  /** One month of the projection: the running total grows by the monthly rate, then the amount is added. */
  function Grow(total: real, monthlyRate: real, amount: real): real
  {
    total * (1.0 + monthlyRate) + amount
  }

  /** The projected value after `m` months, starting from 0. */
  function SipValue(amount: real, monthlyRate: real, m: nat): real
  {
    if m == 0 then 0.0 else Grow(SipValue(amount, monthlyRate, m - 1), monthlyRate, amount)
  }

  /**
   `sip_growth(amount, rate, years)`: one value per month, `int(years * 12)`
   of them, the value of month `m` (counting from 1) after `m` steps, over
   exact reals.
   */
  method SipGrowth(amount: real, rate: real, years: int) returns (values: seq<real>)
    ensures |values| == Months(years)
    ensures forall i :: 0 <= i < |values| ==> values[i] == SipValue(amount, rate / 12.0 / 100.0, i + 1)
  {
    var months := Months(years);
    var monthlyRate := rate / 12.0 / 100.0;
    values := [];
    var total := 0.0;
    var m := 1;
    while m <= months
      invariant 1 <= m <= months + 1
      invariant |values| == m - 1
      invariant forall i :: 0 <= i < m - 1 ==> values[i] == SipValue(amount, monthlyRate, i + 1)
      invariant total == SipValue(amount, monthlyRate, m - 1)
    {
      total := Grow(total, monthlyRate, amount);
      values := values + [total];
      m := m + 1;
    }
  }

  /**
   With a non-negative amount and rate the projection never goes below
   zero, and no month is worth less than the month before.
   */
  lemma {:induction false} SipNonDecreasing(amount: real, monthlyRate: real, m: nat)
    requires amount >= 0.0 && monthlyRate >= 0.0
    ensures 0.0 <= SipValue(amount, monthlyRate, m) <= SipValue(amount, monthlyRate, m + 1)
  {
    var v := SipValue(amount, monthlyRate, m);
    if m > 0 {
      SipNonDecreasing(amount, monthlyRate, m - 1);
    }
    assert v * monthlyRate >= 0.0;
    assert Grow(v, monthlyRate, amount) == v + v * monthlyRate + amount;
  }
}
