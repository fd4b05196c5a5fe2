/** The reduction at the heart of the dynamic stacked bar chart
    (`chartsByGoal`): applications grouped by goal name, each goal's
    applications bucketed by UTC day, and each bucket's numeric input values
    summed per input name, with "Observações" and "IND" left out.

    `Group` is the reduction as a fold over the applications; the closed
    forms below (`GoalDays`, `GoalFields`, `DayFields`, `FieldSum`) say what
    it computes without the fold, and `GroupClosedForm` connects the two. */
module ChartGrouping {
  import opened JsValues
  import opened JsArrays
  import opened JsObjects
  import opened Calendar

  /** An application (one filled-in record of a program goal) as the chart
      reads it: its goal name, the instant `created_at` denotes, and the
      entries of its `inputs` object in the order `Object.entries` lists them. */
  datatype Application = Application(goalName: string, createdAt: DateTime, inputs: seq<(string, Value)>)

  /** Input names the chart never plots. */
  predicate IsExcluded(name: string)
  {
    name == "Observações" || name == "IND"
  }

  /** `typeof valor === "number" ? valor : 0`. */
  function NumericOrZero(v: Value): real
  {
    if v.Num? then v.n else 0.0
  }

  /** One bar of the chart: the day it stands for and the sum per input name. */
  datatype Row = Row(data: string, values: map<string, real>)

  /** What `agrupado` holds for one goal: the rows by day key, and the input
      names seen, in first-seen order (the `Set` `tiposEntrada`). */
  datatype GoalGroup = GoalGroup(dadosPorData: Obj<Row>, tiposEntrada: seq<string>)

  /** `agrupado`: the goal groups by goal name. */
  type Grouping = Obj<GoalGroup>

  /** `row[name] || 0` for a row whose fields are all numbers. */
  function Get(values: map<string, real>, name: string): real
  {
    if name in values then values[name] else 0.0
  }

  // ---------------------------------------------------------------------------
  // The reduction, one step at a time

  /** `row[name] = (row[name] || 0) + (typeof v === "number" ? v : 0)`. */
  function AddValue(row: Row, name: string, v: Value): Row
  {
    Row(row.data, row.values[name := Get(row.values, name) + NumericOrZero(v)])
  }

  /** One entry of `Object.entries(item.inputs)`: an excluded name is
      skipped; any other name is added to `tiposEntrada` and its value to
      the day's row. */
  function AddInput(g: GoalGroup, day: string, entry: (string, Value)): GoalGroup
    requires day in g.dadosPorData.props
  {
    if IsExcluded(entry.0) then g
    else
      var row := AddValue(g.dadosPorData.props[day], entry.0, entry.1);
      GoalGroup(Put(g.dadosPorData, day, row), SetAdd(g.tiposEntrada, entry.0))
  }

  /** The inner `forEach` over all entries of one application. */
  function AddInputs(g: GoalGroup, day: string, entries: seq<(string, Value)>): (r: GoalGroup)
    requires day in g.dadosPorData.props
    ensures day in r.dadosPorData.props
  {
    if entries == [] then g
    else AddInput(AddInputs(g, day, entries[..|entries| - 1]), day, entries[|entries| - 1])
  }

  /** `if (!dadosPorData[data]) dadosPorData[data] = { data }`. */
  function EnsureDay(g: GoalGroup, day: string): (r: GoalGroup)
    ensures day in r.dadosPorData.props
  {
    if day in g.dadosPorData.props then g
    else GoalGroup(Put(g.dadosPorData, day, Row(day, map[])), g.tiposEntrada)
  }

  /** `{ dadosPorData: {}, tiposEntrada: new Set() }`. */
  function NewGroup(): GoalGroup
  {
    GoalGroup(EmptyObj(), [])
  }

  /** One iteration of `rawData.forEach`. */
  function AddApplication(agrupado: Grouping, a: Application): Grouping
  {
    var g := if a.goalName in agrupado.props then agrupado.props[a.goalName] else NewGroup();
    var day := DayKey(a.createdAt);
    Put(agrupado, a.goalName, AddInputs(EnsureDay(g, day), day, a.inputs))
  }

  /** `agrupado` after every application has been added. */
  function Group(apps: seq<Application>): Grouping
  {
    if apps == [] then EmptyObj() else AddApplication(Group(apps[..|apps| - 1]), apps[|apps| - 1])
  }

  // ---------------------------------------------------------------------------
  // What the reduction computes, without the fold

  /** The goal name of each application, in order. */
  function GoalNames(apps: seq<Application>): seq<string>
  {
    if apps == [] then [] else GoalNames(apps[..|apps| - 1]) + [apps[|apps| - 1].goalName]
  }

  /** The input names of the entries that are not excluded, in order. */
  function KeptNames(entries: seq<(string, Value)>): seq<string>
  {
    if entries == [] then []
    else
      var e := entries[|entries| - 1];
      KeptNames(entries[..|entries| - 1]) + (if IsExcluded(e.0) then [] else [e.0])
  }

  /** The sum of the values stored under `name`, a text value counting 0. */
  function EntriesTotal(entries: seq<(string, Value)>, name: string): real
  {
    if entries == [] then 0.0
    else
      var e := entries[|entries| - 1];
      EntriesTotal(entries[..|entries| - 1], name) + (if e.0 == name then NumericOrZero(e.1) else 0.0)
  }

  /** The day key of each application of goal `meta`, in order. */
  function GoalDays(apps: seq<Application>, meta: string): seq<string>
  {
    if apps == [] then []
    else
      var a := apps[|apps| - 1];
      GoalDays(apps[..|apps| - 1], meta) + (if a.goalName == meta then [DayKey(a.createdAt)] else [])
  }

  /** The kept input names of goal `meta`'s applications, in order. */
  function GoalFields(apps: seq<Application>, meta: string): seq<string>
  {
    if apps == [] then []
    else
      var a := apps[|apps| - 1];
      GoalFields(apps[..|apps| - 1], meta) + (if a.goalName == meta then KeptNames(a.inputs) else [])
  }

  /** The kept input names of goal `meta`'s applications on `day`, in order. */
  function DayFields(apps: seq<Application>, meta: string, day: string): seq<string>
  {
    if apps == [] then []
    else
      var a := apps[|apps| - 1];
      DayFields(apps[..|apps| - 1], meta, day)
        + (if a.goalName == meta && DayKey(a.createdAt) == day then KeptNames(a.inputs) else [])
  }

  /** The sum of the numeric values under `name` over goal `meta`'s
      applications on `day`. */
  function FieldSum(apps: seq<Application>, meta: string, day: string, name: string): real
  {
    if apps == [] then 0.0
    else
      var a := apps[|apps| - 1];
      FieldSum(apps[..|apps| - 1], meta, day, name)
        + (if a.goalName == meta && DayKey(a.createdAt) == day then EntriesTotal(a.inputs, name) else 0.0)
  }

  /** A row holds exactly the names observed on its day, each with its sum. */
  ghost predicate RowDescribes(row: Row, apps: seq<Application>, meta: string, day: string)
  {
    && row.data == day
    && (forall f :: f in row.values <==> f in DayFields(apps, meta, day))
    && (forall f {:trigger Get(row.values, f)} {:trigger FieldSum(apps, meta, day, f)} :: !IsExcluded(f) ==> Get(row.values, f) == FieldSum(apps, meta, day, f))
  }

  /** A goal group holds one row per day of the goal, in first-seen order,
      and the goal's kept input names in first-seen order. */
  ghost predicate GroupDescribes(g: GoalGroup, apps: seq<Application>, meta: string)
  {
    && ObjValid(g.dadosPorData)
    && g.dadosPorData.keys == Dedup(GoalDays(apps, meta))
    && g.tiposEntrada == Dedup(GoalFields(apps, meta))
    && forall d :: d in g.dadosPorData.props ==> RowDescribes(g.dadosPorData.props[d], apps, meta, d)
  }

  /** `agrupado` holds one group per goal name, in first-seen order. */
  ghost predicate GroupingDescribes(agrupado: Grouping, apps: seq<Application>)
  {
    && ObjValid(agrupado)
    && agrupado.keys == Dedup(GoalNames(apps))
    && forall m :: m in agrupado.props ==> GroupDescribes(agrupado.props[m], apps, m)
  }

  // ---------------------------------------------------------------------------
  // The fold meets the closed forms

  /** The reduction computes the closed forms. */
  lemma {:induction false} GroupClosedForm(apps: seq<Application>)
    ensures GroupingDescribes(Group(apps), apps)
  {
    if apps != [] {
      GroupClosedForm(apps[..|apps| - 1]);
      GroupStep(apps);
    }
  }

  /** Adding the last application extends what the grouping of the others describes. */
  lemma GroupStep(apps: seq<Application>)
    requires apps != []
    requires GroupingDescribes(Group(apps[..|apps| - 1]), apps[..|apps| - 1])
    ensures GroupingDescribes(Group(apps), apps)
  {
    var init, last := apps[..|apps| - 1], apps[|apps| - 1];
    FrontAndLast(apps);
    assert Group(apps) == AddApplication(Group(init), last);
    AddApplicationStep(Group(init), init, last);
  }

  lemma AddApplicationStep(agrupado: Grouping, apps: seq<Application>, a: Application)
    requires GroupingDescribes(agrupado, apps)
    ensures GroupingDescribes(AddApplication(agrupado, a), apps + [a])
  {
    var meta := a.goalName;
    var g := if meta in agrupado.props then agrupado.props[meta] else NewGroup();
    assert GroupDescribes(g, apps, meta) by {
      if meta !in agrupado.props {
        assert meta !in GoalNames(apps);
        NoGoal(apps, meta);
      }
    }
    GoalStep(g, apps, a);
    var day := DayKey(a.createdAt);
    PutGoalStep(agrupado, apps, a, AddInputs(EnsureDay(g, day), day, a.inputs));
  }

  /** Storing the new group of the application's goal keeps the other groups
      and adds the goal name, if new, last. */
  lemma PutGoalStep(agrupado: Grouping, apps: seq<Application>, a: Application, ng: GoalGroup)
    requires GroupingDescribes(agrupado, apps)
    requires GroupDescribes(ng, apps + [a], a.goalName)
    ensures GroupingDescribes(Put(agrupado, a.goalName, ng), apps + [a])
  {
    var apps' := apps + [a];
    var r := Put(agrupado, a.goalName, ng);
    assert GoalNames(apps') == GoalNames(apps) + [a.goalName] by {
      assert apps'[..|apps'| - 1] == apps;
    }
    assert Dedup(GoalNames(apps')) == SetAdd(Dedup(GoalNames(apps)), a.goalName) by {
      assert (GoalNames(apps) + [a.goalName])[..|GoalNames(apps)|] == GoalNames(apps);
    }
    forall m | m in r.props
      ensures GroupDescribes(r.props[m], apps', m)
    {
      if m != a.goalName {
        OtherGoalStep(r.props[m], apps, a, m);
      }
    }
  }

  /** An application of another goal leaves a goal's group as it is. */
  lemma OtherGoalStep(g: GoalGroup, apps: seq<Application>, a: Application, meta: string)
    requires a.goalName != meta && GroupDescribes(g, apps, meta)
    ensures GroupDescribes(g, apps + [a], meta)
  {
    var apps' := apps + [a];
    assert apps'[..|apps'| - 1] == apps;
    assert GoalDays(apps', meta) == GoalDays(apps, meta);
    assert GoalFields(apps', meta) == GoalFields(apps, meta);
    forall d | d in g.dadosPorData.props
      ensures RowDescribes(g.dadosPorData.props[d], apps', meta, d)
    {
      assert DayFields(apps', meta, d) == DayFields(apps, meta, d);
      forall f
        ensures FieldSum(apps', meta, d, f) == FieldSum(apps, meta, d, f)
      {
      }
    }
  }

  /** An application of the goal adds its day and its inputs to the group. */
  lemma GoalStep(g: GoalGroup, apps: seq<Application>, a: Application)
    requires GroupDescribes(g, apps, a.goalName)
    ensures GroupDescribes(AddInputs(EnsureDay(g, DayKey(a.createdAt)), DayKey(a.createdAt), a.inputs), apps + [a], a.goalName)
  {
    var meta, day := a.goalName, DayKey(a.createdAt);
    var apps' := apps + [a];
    var g1 := EnsureDay(g, day);
    EnsureDayStep(g, apps, a);
    var r := AddInputs(g1, day, a.inputs);
    AddInputsEffect(g1, day, a.inputs);
    assert r.tiposEntrada == Dedup(GoalFields(apps', meta)) by {
      assert apps'[..|apps'| - 1] == apps;
      assert GoalFields(apps', meta) == GoalFields(apps, meta) + KeptNames(a.inputs);
      DedupConcat(GoalFields(apps, meta), KeptNames(a.inputs));
    }
    forall d | d in r.dadosPorData.props
      ensures RowDescribes(r.dadosPorData.props[d], apps', meta, d)
    {
      RowStep(g1, r, apps, a, d);
    }
  }

  /** Opening the application's day, if new, puts it last among the days
      and gives it an empty row. */
  lemma EnsureDayStep(g: GoalGroup, apps: seq<Application>, a: Application)
    requires GroupDescribes(g, apps, a.goalName)
    ensures var g1 := EnsureDay(g, DayKey(a.createdAt));
      && ObjValid(g1.dadosPorData)
      && g1.dadosPorData.keys == Dedup(GoalDays(apps + [a], a.goalName))
      && g1.tiposEntrada == g.tiposEntrada
      && forall d :: d in g1.dadosPorData.props ==> RowDescribes(g1.dadosPorData.props[d], apps, a.goalName, d)
  {
    DaysSnoc(apps, a);
    var day := DayKey(a.createdAt);
    if day !in g.dadosPorData.props {
      assert day !in GoalDays(apps, a.goalName);
      assert EnsureDay(g, day).dadosPorData == Put(g.dadosPorData, day, Row(day, map[]));
      NewDayRows(g.dadosPorData, apps, a.goalName, day);
    } else {
      assert day in g.dadosPorData.keys;
    }
  }

  /** A day the goal had not seen gets an empty row, and the rows still
      describe their days. */
  lemma NewDayRows(rows: Obj<Row>, apps: seq<Application>, meta: string, day: string)
    requires forall d :: d in rows.props ==> RowDescribes(rows.props[d], apps, meta, d)
    requires day !in GoalDays(apps, meta)
    ensures var rows1 := Put(rows, day, Row(day, map[]));
      forall d :: d in rows1.props ==> RowDescribes(rows1.props[d], apps, meta, d)
  {
    var rows1 := Put(rows, day, Row(day, map[]));
    EmptyRowDescribes(apps, meta, day);
    forall d | d in rows1.props
      ensures RowDescribes(rows1.props[d], apps, meta, d)
    {
      if d == day {
        assert rows1.props[d] == Row(day, map[]);
      } else {
        assert rows1.props[d] == rows.props[d];
      }
    }
  }

  /** The empty row describes a day without applications. */
  lemma EmptyRowDescribes(apps: seq<Application>, meta: string, day: string)
    requires day !in GoalDays(apps, meta)
    ensures RowDescribes(Row(day, map[]), apps, meta, day)
  {
    NoBucket(apps, meta, day);
  }

  /** The application's day joins its goal's distinct days. */
  lemma DaysSnoc(apps: seq<Application>, a: Application)
    ensures Dedup(GoalDays(apps + [a], a.goalName)) == SetAdd(Dedup(GoalDays(apps, a.goalName)), DayKey(a.createdAt))
  {
    var apps' := apps + [a];
    var days := GoalDays(apps, a.goalName);
    assert apps'[..|apps'| - 1] == apps;
    assert GoalDays(apps', a.goalName) == days + [DayKey(a.createdAt)];
    assert (days + [DayKey(a.createdAt)])[..|days|] == days;
  }

  /** Each row of the goal after the application's inputs were added. */
  lemma RowStep(g1: GoalGroup, r: GoalGroup, apps: seq<Application>, a: Application, d: string)
    requires ObjValid(g1.dadosPorData) && DayKey(a.createdAt) in g1.dadosPorData.props
    requires forall d :: d in g1.dadosPorData.props ==> RowDescribes(g1.dadosPorData.props[d], apps, a.goalName, d)
    requires r == AddInputs(g1, DayKey(a.createdAt), a.inputs)
    requires d in r.dadosPorData.props
    ensures RowDescribes(r.dadosPorData.props[d], apps + [a], a.goalName, d)
  {
    var meta, day := a.goalName, DayKey(a.createdAt);
    var apps' := apps + [a];
    AddInputsEffect(g1, day, a.inputs);
    assert apps'[..|apps'| - 1] == apps;
    assert DayFields(apps', meta, d) == DayFields(apps, meta, d) + (if d == day then KeptNames(a.inputs) else []);
    forall f
      ensures FieldSum(apps', meta, d, f) == FieldSum(apps, meta, d, f) + (if d == day then EntriesTotal(a.inputs, f) else 0.0)
    {
    }
  }

  /** Adding one application's entries to a day's row. */
  lemma {:induction false} AddInputsEffect(g: GoalGroup, day: string, entries: seq<(string, Value)>)
    requires ObjValid(g.dadosPorData) && day in g.dadosPorData.props
    ensures var r := AddInputs(g, day, entries);
      && r.dadosPorData.keys == g.dadosPorData.keys
      && (forall d :: d in r.dadosPorData.props <==> d in g.dadosPorData.props)
      && (forall d :: d in g.dadosPorData.props && d != day ==> r.dadosPorData.props[d] == g.dadosPorData.props[d])
      && r.dadosPorData.props[day].data == g.dadosPorData.props[day].data
      && r.tiposEntrada == SetAddAll(g.tiposEntrada, KeptNames(entries))
      && (forall f :: f in r.dadosPorData.props[day].values <==> f in g.dadosPorData.props[day].values || f in KeptNames(entries))
      && (forall f :: !IsExcluded(f) ==> Get(r.dadosPorData.props[day].values, f) == Get(g.dadosPorData.props[day].values, f) + EntriesTotal(entries, f))
  {
    if entries != [] {
      var init, e := entries[..|entries| - 1], entries[|entries| - 1];
      AddInputsEffect(g, day, init);
      var r0 := AddInputs(g, day, init);
      var kept := KeptNames(entries);
      assert kept == KeptNames(init) + (if IsExcluded(e.0) then [] else [e.0]);
      if !IsExcluded(e.0) {
        assert kept[..|kept| - 1] == KeptNames(init);
        var row0 := r0.dadosPorData.props[day];
        var row := AddValue(row0, e.0, e.1);
        assert day in r0.dadosPorData.keys;
        assert AddInputs(g, day, entries) == GoalGroup(Put(r0.dadosPorData, day, row), SetAdd(r0.tiposEntrada, e.0));
        assert SetAdd(r0.dadosPorData.keys, day) == r0.dadosPorData.keys;
        forall f | !IsExcluded(f)
          ensures Get(row.values, f) == Get(row0.values, f) + (if e.0 == f then NumericOrZero(e.1) else 0.0)
        {
        }
      } else {
        assert AddInputs(g, day, entries) == r0;
        assert kept == KeptNames(init);
        forall f | !IsExcluded(f)
          ensures EntriesTotal(entries, f) == EntriesTotal(init, f)
        {
        }
      }
    }
  }

  /** A goal that no application names has no days and no fields. */
  lemma {:induction false} NoGoal(apps: seq<Application>, meta: string)
    requires meta !in GoalNames(apps)
    ensures GoalDays(apps, meta) == [] && GoalFields(apps, meta) == []
  {
    if apps != [] {
      NoGoal(apps[..|apps| - 1], meta);
    }
  }

  /** A day on which the goal has no application has no fields and sums to 0. */
  lemma {:induction false} NoBucket(apps: seq<Application>, meta: string, day: string)
    requires day !in GoalDays(apps, meta)
    ensures DayFields(apps, meta, day) == []
    ensures forall f :: FieldSum(apps, meta, day, f) == 0.0
  {
    if apps != [] {
      NoBucket(apps[..|apps| - 1], meta, day);
    }
  }
}
