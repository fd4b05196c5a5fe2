/** The chart reduction as the component writes it, where it differs from
    `ChartGrouping`: a day's row is one plain object that holds the day key
    under the property "data" next to the input sums, and both that row and
    `agrupado` are indexed with names taken from the data. A name that is
    "data", or that names a member of `Object.prototype`, then reads
    something other than `undefined` or a number:

    - an input named "data" appends a number to the row's day key;
    - an input named like an inherited method stores text instead of a sum,
      and one named "__proto__" is never stored;
    - a goal named like an inherited member makes the lookup of its group
      return that member, and the next property access throws a `TypeError`.

    `ChartGrouping` keeps the day apart from the sums and treats every name
    alike. `GroupAsWritten` runs the whole reduction on row objects;
    `GroupAsWrittenThrows` says when it throws, and `GroupAsWrittenMirrors`
    shows it coincides with `ChartGrouping.Group` when no goal or input
    bears one of those names. */
module ChartAsWritten {
  import opened JsValues
  import opened JsObjects
  import opened Calendar
  import opened JsStrings
  import opened JsArrays
  import opened ChartGrouping

  /** The names `Object.prototype` supplies to every plain object. */
  const PROTOTYPE_MEMBERS: set<string> :=
    {"constructor", "hasOwnProperty", "isPrototypeOf", "propertyIsEnumerable",
     "toLocaleString", "toString", "valueOf", "__defineGetter__", "__defineSetter__",
     "__lookupGetter__", "__lookupSetter__", "__proto__"}

  predicate IsPrototypeMember(name: string)
  {
    name in PROTOTYPE_MEMBERS
  }

  /** What `o[k]` reads on a plain object: nothing, the object's own value, or
      a member inherited from `Object.prototype` (a function, or the prototype
      object itself for "__proto__"), which is truthy. */
  datatype Property<V> = Absent | OwnValue(value: V) | FromPrototype

  function Read<V>(o: Obj<V>, k: string): (p: Property<V>)
    ensures p.OwnValue? <==> k in o.props
    ensures p.FromPrototype? <==> k !in o.props && IsPrototypeMember(k)
  {
    if k in o.props then OwnValue(o.props[k])
    else if IsPrototypeMember(k) then FromPrototype
    else Absent
  }

  /** `o[k] = v` on a plain object: assigning a non-object to "__proto__"
      goes to the inherited setter, which ignores it. */
  function Assign<V>(o: Obj<V>, k: string, v: V): (r: Obj<V>)
    ensures k == "__proto__" ==> r == o
    ensures k != "__proto__" ==> r == Put(o, k, v)
  {
    if k == "__proto__" then o else Put(o, k, v)
  }

  // ---------------------------------------------------------------------------
  // A day's row as one object

  /** A property value of a row: a number, or text. */
  datatype Cell = NumCell(n: real) | TextCell(s: string)

  /** `{ data }`: the row created for a new day. */
  function NewRowAsWritten(day: string): (o: Obj<Cell>)
    ensures ObjValid(o) && o.props == map["data" := TextCell(day)]
  {
    Obj(["data"], map["data" := TextCell(day)])
  }

  /** `row[name] = (row[name] || 0) + (typeof v === "number" ? v : 0)`.
      `show` is `Number.prototype.toString`, and `inherited` is the text an
      inherited member converts to; `+` with a text operand concatenates. */
  function AddValueAsWritten(row: Obj<Cell>, name: string, v: Value,
                             show: real -> string, inherited: string -> string): Obj<Cell>
  {
    var addend := NumericOrZero(v);
    var sum: Cell := match Read<Cell>(row, name)
      case Absent => NumCell(addend)
      case OwnValue(NumCell(n)) => NumCell(n + addend)
      case OwnValue(TextCell(s)) => if s == "" then NumCell(addend) else TextCell(s + show(addend))
      case FromPrototype => TextCell(inherited(name) + show(addend));
    Assign(row, name, sum)
  }

  /** The row object holds the day under "data" and, under every other own
      name, the number the corrected row holds for it. */
  predicate Mirrors(o: Obj<Cell>, row: Row)
  {
    && "data" in o.props && o.props["data"] == TextCell(row.data)
    && (forall k :: k in o.props && k != "data" ==> k in row.values && o.props[k] == NumCell(row.values[k]))
    && (forall k :: k in row.values ==> k != "data" && !IsPrototypeMember(k) && k in o.props)
  }

  lemma NewRowMirrors(day: string)
    ensures Mirrors(NewRowAsWritten(day), Row(day, map[]))
  {
  }

  /** For an input name that is neither "data" nor an inherited member, the
      row object and the corrected row take the same step. */
  lemma AsWrittenAgrees(o: Obj<Cell>, row: Row, name: string, v: Value,
                        show: real -> string, inherited: string -> string)
    requires Mirrors(o, row)
    requires name != "data" && !IsPrototypeMember(name)
    ensures Mirrors(AddValueAsWritten(o, name, v, show, inherited), AddValue(row, name, v))
  {
    var r := AddValueAsWritten(o, name, v, show, inherited);
    var row' := AddValue(row, name, v);
    if name in o.props {
      assert o.props[name] == NumCell(row.values[name]);
    } else {
      assert name !in row.values;
    }
    assert r.props[name] == NumCell(row'.values[name]);
  }

  /** An input named "data" on a fresh day: the row's day key becomes the day
      followed by the value's numeral (`"2024-03-05" + 2` is `"2024-03-052"`),
      so the bar is labelled with a date that does not exist. */
  lemma DataInputRewritesDay(day: string, v: Value, show: real -> string, inherited: string -> string)
    requires day != ""
    requires show(NumericOrZero(v)) != ""
    ensures var r := AddValueAsWritten(NewRowAsWritten(day), "data", v, show, inherited);
      && r.props["data"] == TextCell(day + show(NumericOrZero(v)))
      && r.props["data"] != TextCell(day)
  {
    var numeral := show(NumericOrZero(v));
    assert |day + numeral| > |day|;
  }

  /** An input named like an inherited method, on a row that does not hold
      it yet: the row stores the member's text followed by the numeral, not
      a number. */
  lemma InheritedInputStoresText(o: Obj<Cell>, name: string, v: Value,
                                 show: real -> string, inherited: string -> string)
    requires IsPrototypeMember(name) && name != "__proto__" && name !in o.props
    ensures var r := AddValueAsWritten(o, name, v, show, inherited);
      name in r.props && r.props[name] == TextCell(inherited(name) + show(NumericOrZero(v)))
  {
  }

  /** An input named "__proto__" is never stored: the row is unchanged, so
      the series it registers has no value on any day. */
  lemma ProtoInputIsLost(o: Obj<Cell>, v: Value, show: real -> string, inherited: string -> string)
    ensures AddValueAsWritten(o, "__proto__", v, show, inherited) == o
    ensures "__proto__" !in o.props ==> "__proto__" !in AddValueAsWritten(o, "__proto__", v, show, inherited).props
  {
  }

  // ---------------------------------------------------------------------------
  // The reduction as written, row objects included

  /** What `agrupado` holds for one goal as written: the row objects by day
      key, and the `Set` `tiposEntrada` in insertion order. */
  datatype GroupObj = GroupObj(dadosPorData: Obj<Obj<Cell>>, tiposEntrada: seq<string>)

  /** `{ dadosPorData: {}, tiposEntrada: new Set() }`. */
  function NewGroupObj(): GroupObj
  {
    GroupObj(EmptyObj(), [])
  }

  /** A day key holds a dash and no member of `Object.prototype` does, so
      `dadosPorData[data]` reads the day's own row or nothing. */
  lemma DayKeyIsNotInherited(t: DateTime)
    ensures !IsPrototypeMember(DayKey(t))
  {
    DayKeyIsDateText(t);
    var d := t.date;
    var y := YearText(d.year);
    assert DateText(d) == y + "-" + PadDigits(d.month, 2) + "-" + PadDigits(d.day, 2);
    assert DateText(d)[|y|] == '-';
    NoDashInPrototypeMembers();
  }

  lemma NoDashInPrototypeMembers()
    ensures forall m :: m in PROTOTYPE_MEMBERS ==> '-' !in m
  {
  }

  /** `if (!dadosPorData[data]) dadosPorData[data] = { data }`. The day is
      always a day key, which `DayKeyIsNotInherited` shows is never an
      inherited name, so the truthiness test asks for an own row. */
  function EnsureDayAsWritten(g: GroupObj, day: string): (r: GroupObj)
    ensures day in r.dadosPorData.props
    ensures day in g.dadosPorData.props ==> r == g
  {
    if Read(g.dadosPorData, day).OwnValue? then g
    else GroupObj(Put(g.dadosPorData, day, NewRowAsWritten(day)), g.tiposEntrada)
  }

  /** One entry of `Object.entries(item.inputs)`, adding to the row object. */
  function AddInputAsWritten(g: GroupObj, day: string, entry: (string, Value),
                             show: real -> string, inherited: string -> string): (r: GroupObj)
    requires day in g.dadosPorData.props
    ensures day in r.dadosPorData.props
  {
    if IsExcluded(entry.0) then g
    else
      var row := AddValueAsWritten(g.dadosPorData.props[day], entry.0, entry.1, show, inherited);
      GroupObj(Put(g.dadosPorData, day, row), SetAdd(g.tiposEntrada, entry.0))
  }

  /** The inner `forEach` as written. */
  function AddInputsAsWritten(g: GroupObj, day: string, entries: seq<(string, Value)>,
                              show: real -> string, inherited: string -> string): (r: GroupObj)
    requires day in g.dadosPorData.props
    ensures day in r.dadosPorData.props
  {
    if entries == [] then g
    else AddInputAsWritten(AddInputsAsWritten(g, day, entries[..|entries| - 1], show, inherited),
                           day, entries[|entries| - 1], show, inherited)
  }

  /** One iteration of `rawData.forEach` as written. The group is looked up
      by `agrupado[meta]`: a name inherited from `Object.prototype` is
      truthy, so no group is created, and reading `.dadosPorData[data]` from
      the inherited member throws. */
  function AddApplicationAsWritten(agrupado: Obj<GroupObj>, a: Application,
                                   show: real -> string, inherited: string -> string): (r: Result<Obj<GroupObj>>)
    ensures r.Failure? <==> Read(agrupado, a.goalName).FromPrototype?
  {
    var day := DayKey(a.createdAt);
    match Read(agrupado, a.goalName)
      case FromPrototype => Failure("TypeError: Cannot read properties of undefined")
      case Absent =>
        Success(Put(agrupado, a.goalName, AddInputsAsWritten(EnsureDayAsWritten(NewGroupObj(), day), day, a.inputs, show, inherited)))
      case OwnValue(g) =>
        Success(Put(agrupado, a.goalName, AddInputsAsWritten(EnsureDayAsWritten(g, day), day, a.inputs, show, inherited)))
  }

  /** The whole reduction as written: the first throw ends it. */
  function GroupAsWritten(apps: seq<Application>, show: real -> string, inherited: string -> string): Result<Obj<GroupObj>>
  {
    if apps == [] then Success(EmptyObj())
    else match GroupAsWritten(apps[..|apps| - 1], show, inherited)
      case Failure(e) => Failure(e)
      case Success(agrupado) => AddApplicationAsWritten(agrupado, apps[|apps| - 1], show, inherited)
  }

  // ---------------------------------------------------------------------------
  // Comparing the two reductions

  /** The goals of the corrected grouping are the goal names of the
      applications. */
  lemma {:induction false} GroupGoalsAreNames(apps: seq<Application>)
    ensures forall k :: k in Group(apps).props ==> exists i :: 0 <= i < |apps| && apps[i].goalName == k
  {
    if apps != [] {
      var init := apps[..|apps| - 1];
      GroupGoalsAreNames(init);
      forall k | k in Group(apps).props
        ensures exists i :: 0 <= i < |apps| && apps[i].goalName == k
      {
        if k != apps[|apps| - 1].goalName {
          assert k in Group(init).props;
          var i :| 0 <= i < |init| && init[i].goalName == k;
          assert apps[i] == init[i];
        }
      }
    }
  }

  /** No application's goal is named like a member of `Object.prototype`. */
  predicate OrdinaryGoals(apps: seq<Application>)
  {
    forall i :: 0 <= i < |apps| ==> !IsPrototypeMember(apps[i].goalName)
  }

  lemma OrdinaryGoalsSplit(apps: seq<Application>)
    requires apps != []
    ensures OrdinaryGoals(apps) <==> OrdinaryGoals(apps[..|apps| - 1]) && !IsPrototypeMember(apps[|apps| - 1].goalName)
  {
    var init := apps[..|apps| - 1];
    assert forall i :: 0 <= i < |init| ==> apps[i] == init[i];
  }

  /** Both groupings have the same goals, listed in the same order. */
  predicate SameGoals(o: Obj<GroupObj>, agrupado: Grouping)
  {
    o.keys == agrupado.keys && o.props.Keys == agrupado.props.Keys
  }

  /** The reduction as written succeeds exactly when no goal name is a member
      of `Object.prototype`, and then it has the corrected grouping's goals
      in the corrected grouping's order. */
  lemma {:induction false} GroupAsWrittenThrows(apps: seq<Application>, show: real -> string, inherited: string -> string)
    ensures GroupAsWritten(apps, show, inherited).Success? <==> OrdinaryGoals(apps)
    ensures GroupAsWritten(apps, show, inherited).Success? ==> SameGoals(GroupAsWritten(apps, show, inherited).value, Group(apps))
  {
    if apps != [] {
      var init, a := apps[..|apps| - 1], apps[|apps| - 1];
      GroupAsWrittenThrows(init, show, inherited);
      OrdinaryGoalsSplit(apps);
      var before := GroupAsWritten(init, show, inherited);
      if before.Success? {
        assert GroupAsWritten(apps, show, inherited) == AddApplicationAsWritten(before.value, a, show, inherited);
        assert Group(apps) == AddApplication(Group(init), a);
        GroupGoalsAreNames(init);
        assert a.goalName in Group(init).props ==> !IsPrototypeMember(a.goalName);
        ApplicationSameGoals(before.value, Group(init), a, show, inherited);
      } else {
        assert GroupAsWritten(apps, show, inherited).Failure?;
        var i :| 0 <= i < |init| && IsPrototypeMember(init[i].goalName);
        assert apps[i] == init[i];
      }
    }
  }

  /** One iteration as written throws exactly for a new goal named like an
      inherited member, and otherwise stores the goal where the corrected
      iteration does. */
  lemma ApplicationSameGoals(o: Obj<GroupObj>, agrupado: Grouping, a: Application,
                             show: real -> string, inherited: string -> string)
    requires SameGoals(o, agrupado)
    ensures AddApplicationAsWritten(o, a, show, inherited).Success? <==> a.goalName in agrupado.props || !IsPrototypeMember(a.goalName)
    ensures AddApplicationAsWritten(o, a, show, inherited).Success? ==>
      SameGoals(AddApplicationAsWritten(o, a, show, inherited).value, AddApplication(agrupado, a))
  {
  }

  /** A single application of a goal named "constructor" makes the chart
      throw. */
  lemma ConstructorGoalThrows(a: Application, show: real -> string, inherited: string -> string)
    requires a.goalName == "constructor"
    ensures GroupAsWritten([a], show, inherited).Failure?
  {
    GroupAsWrittenThrows([a], show, inherited);
  }

  /** An input name the row object stores like the corrected row does. */
  predicate OrdinaryName(name: string)
  {
    name != "data" && !IsPrototypeMember(name)
  }

  predicate OrdinaryInputs(entries: seq<(string, Value)>)
  {
    forall j :: 0 <= j < |entries| ==> OrdinaryName(entries[j].0)
  }

  /** A goal's group as written matches the corrected one: the same field
      list, the same days in the same order, and a mirroring row object for
      every day. */
  predicate GroupMirrors(o: GroupObj, g: GoalGroup)
  {
    && o.tiposEntrada == g.tiposEntrada
    && o.dadosPorData.keys == g.dadosPorData.keys
    && o.dadosPorData.props.Keys == g.dadosPorData.props.Keys
    && (forall d :: d in g.dadosPorData.props ==> Mirrors(o.dadosPorData.props[d], g.dadosPorData.props[d]))
  }

  /** The whole grouping as written matches the corrected one. */
  predicate GroupingMirrors(o: Obj<GroupObj>, agrupado: Grouping)
  {
    && SameGoals(o, agrupado)
    && (forall m :: m in agrupado.props ==> GroupMirrors(o.props[m], agrupado.props[m]))
  }

  /** Storing matching rows under one day keeps the groups matched. */
  lemma PutRowMirrors(o: GroupObj, g: GoalGroup, day: string, orow: Obj<Cell>, row: Row, tipos: seq<string>)
    requires GroupMirrors(o, g) && Mirrors(orow, row)
    ensures GroupMirrors(GroupObj(Put(o.dadosPorData, day, orow), tipos), GoalGroup(Put(g.dadosPorData, day, row), tipos))
  {
    var o1, g1 := Put(o.dadosPorData, day, orow), Put(g.dadosPorData, day, row);
    forall d | d in g1.props
      ensures Mirrors(o1.props[d], g1.props[d])
    {
      if d != day {
        assert o1.props[d] == o.dadosPorData.props[d];
        assert g1.props[d] == g.dadosPorData.props[d];
      }
    }
  }

  lemma EnsureDayMirrors(o: GroupObj, g: GoalGroup, day: string)
    requires GroupMirrors(o, g)
    ensures GroupMirrors(EnsureDayAsWritten(o, day), EnsureDay(g, day))
  {
    if day !in g.dadosPorData.props {
      NewRowMirrors(day);
      PutRowMirrors(o, g, day, NewRowAsWritten(day), Row(day, map[]), g.tiposEntrada);
    }
  }

  lemma InputMirrors(o: GroupObj, g: GoalGroup, day: string, entry: (string, Value),
                     show: real -> string, inherited: string -> string)
    requires GroupMirrors(o, g) && day in g.dadosPorData.props
    requires OrdinaryName(entry.0)
    ensures GroupMirrors(AddInputAsWritten(o, day, entry, show, inherited), AddInput(g, day, entry))
  {
    if !IsExcluded(entry.0) {
      var row, orow := g.dadosPorData.props[day], o.dadosPorData.props[day];
      AsWrittenAgrees(orow, row, entry.0, entry.1, show, inherited);
      PutRowMirrors(o, g, day, AddValueAsWritten(orow, entry.0, entry.1, show, inherited),
                    AddValue(row, entry.0, entry.1), SetAdd(g.tiposEntrada, entry.0));
    }
  }

  lemma {:induction false} InputsMirror(o: GroupObj, g: GoalGroup, day: string, entries: seq<(string, Value)>,
                                        show: real -> string, inherited: string -> string)
    requires GroupMirrors(o, g) && day in g.dadosPorData.props
    requires OrdinaryInputs(entries)
    ensures GroupMirrors(AddInputsAsWritten(o, day, entries, show, inherited), AddInputs(g, day, entries))
  {
    if entries != [] {
      var init := entries[..|entries| - 1];
      assert OrdinaryInputs(init) by {
        assert forall j :: 0 <= j < |init| ==> init[j] == entries[j];
      }
      InputsMirror(o, g, day, init, show, inherited);
      InputMirrors(AddInputsAsWritten(o, day, init, show, inherited), AddInputs(g, day, init),
                   day, entries[|entries| - 1], show, inherited);
    }
  }

  /** With an ordinary goal name and ordinary input names, one iteration as
      written succeeds and keeps the groupings matched. */
  lemma ApplicationMirrors(o: Obj<GroupObj>, agrupado: Grouping, a: Application,
                           show: real -> string, inherited: string -> string)
    requires GroupingMirrors(o, agrupado)
    requires !IsPrototypeMember(a.goalName) && OrdinaryInputs(a.inputs)
    ensures AddApplicationAsWritten(o, a, show, inherited).Success?
    ensures GroupingMirrors(AddApplicationAsWritten(o, a, show, inherited).value, AddApplication(agrupado, a))
  {
    var meta, day := a.goalName, DayKey(a.createdAt);
    var og := if meta in o.props then o.props[meta] else NewGroupObj();
    var g := if meta in agrupado.props then agrupado.props[meta] else NewGroup();
    assert GroupMirrors(og, g);
    var oa := AddInputsAsWritten(EnsureDayAsWritten(og, day), day, a.inputs, show, inherited);
    var ga := AddInputs(EnsureDay(g, day), day, a.inputs);
    EnsureDayMirrors(og, g, day);
    InputsMirror(EnsureDayAsWritten(og, day), EnsureDay(g, day), day, a.inputs, show, inherited);
    assert AddApplicationAsWritten(o, a, show, inherited) == Success(Put(o, meta, oa));
    assert AddApplication(agrupado, a) == Put(agrupado, meta, ga);
    PutGroupMirrors(o, agrupado, meta, oa, ga);
  }

  /** Storing matching groups under one goal keeps the groupings matched. */
  lemma PutGroupMirrors(o: Obj<GroupObj>, agrupado: Grouping, meta: string, og: GroupObj, g: GoalGroup)
    requires GroupingMirrors(o, agrupado) && GroupMirrors(og, g)
    ensures GroupingMirrors(Put(o, meta, og), Put(agrupado, meta, g))
  {
    var o1, g1 := Put(o, meta, og), Put(agrupado, meta, g);
    forall m | m in g1.props
      ensures GroupMirrors(o1.props[m], g1.props[m])
    {
      if m != meta {
        assert o1.props[m] == o.props[m];
        assert g1.props[m] == agrupado.props[m];
      }
    }
  }

  /** When no goal and no input is named "data" or like a member of
      `Object.prototype`, the reduction as written succeeds and every row
      object holds its day under "data" and, under every other name,
      exactly the sum the corrected row holds. */
  lemma {:induction false} GroupAsWrittenMirrors(apps: seq<Application>, show: real -> string, inherited: string -> string)
    requires OrdinaryGoals(apps)
    requires forall i :: 0 <= i < |apps| ==> OrdinaryInputs(apps[i].inputs)
    ensures GroupAsWritten(apps, show, inherited).Success?
    ensures GroupingMirrors(GroupAsWritten(apps, show, inherited).value, Group(apps))
  {
    if apps != [] {
      var init, a := apps[..|apps| - 1], apps[|apps| - 1];
      OrdinaryGoalsSplit(apps);
      assert forall i :: 0 <= i < |init| ==> init[i] == apps[i];
      GroupAsWrittenMirrors(init, show, inherited);
      ApplicationMirrors(GroupAsWritten(init, show, inherited).value, Group(init), a, show, inherited);
    }
  }

  /** The as-written half of the "data" finding, on a whole reduction: one
      record with an input named "data" gives its day's row a date that is
      the day key followed by the numeral, while the corrected row keeps the
      day key. */
  lemma GroupDataInputRewritesDay(a: Application, x: real, show: real -> string, inherited: string -> string)
    requires !IsPrototypeMember(a.goalName)
    requires a.inputs == [("data", Num(x))]
    requires show(x) != ""
    ensures var r, day := GroupAsWritten([a], show, inherited), DayKey(a.createdAt);
      && r.Success? && a.goalName in r.value.props
      && day in r.value.props[a.goalName].dadosPorData.props
      && r.value.props[a.goalName].dadosPorData.props[day].props["data"] == TextCell(day + show(x))
      && r.value.props[a.goalName].dadosPorData.props[day].props["data"] != TextCell(day)
      && Group([a]).props[a.goalName].dadosPorData.props[day].data == day
  {
    var day := DayKey(a.createdAt);
    DayKeyIsNotInherited(a.createdAt);
    assert day != "" by {
      DayKeyIsDateText(a.createdAt);
      assert DateText(a.createdAt.date)[|YearText(a.createdAt.date.year)|] == '-';
    }
    var g0 := EnsureDayAsWritten(NewGroupObj(), day);
    assert g0.dadosPorData.props[day] == NewRowAsWritten(day);
    var g1 := AddInputsAsWritten(g0, day, a.inputs, show, inherited);
    assert g1 == AddInputAsWritten(g0, day, ("data", Num(x)), show, inherited) by {
      assert a.inputs[..0] == [];
      assert AddInputsAsWritten(g0, day, a.inputs[..0], show, inherited) == g0;
      assert a.inputs[|a.inputs| - 1] == ("data", Num(x));
    }
    DataInputRewritesDay(day, Num(x), show, inherited);
    assert g1.dadosPorData.props[day].props["data"] == TextCell(day + show(x));
    assert GroupAsWritten([a], show, inherited) == Success(Put(EmptyObj(), a.goalName, g1)) by {
      assert [a][..0] == [];
    }
    GroupOneDay(a);
  }

  /** The corrected grouping of one record keeps the day key as its row's
      date. */
  lemma GroupOneDay(a: Application)
    ensures var day := DayKey(a.createdAt);
      && a.goalName in Group([a]).props
      && day in Group([a]).props[a.goalName].dadosPorData.props
      && Group([a]).props[a.goalName].dadosPorData.props[day].data == day
  {
    var day := DayKey(a.createdAt);
    assert [a][..0] == [];
    var g0 := EnsureDay(NewGroup(), day);
    assert g0.dadosPorData.props[day].data == day;
    AddInputsEffect(g0, day, a.inputs);
  }
}
