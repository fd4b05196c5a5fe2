/** What the charts of `chartsByGoal` show, stated against the applications
    they were computed from. */
module ChartProperties {
  import opened JsValues
  import opened JsArrays
  import opened JsStrings
  import opened JsObjects
  import opened Calendar
  import opened ChartGrouping
  import opened ChartOutput

  /** The goal of each chart, in order. */
  function Metas(charts: seq<GoalChart>): (ms: seq<string>)
    ensures |ms| == |charts|
    ensures forall i :: 0 <= i < |charts| ==> ms[i] == charts[i].meta
  {
    seq(|charts|, i requires 0 <= i < |charts| => charts[i].meta)
  }

  /** The day of each row, in order. */
  function RowDays(rows: seq<Row>): (ds: seq<string>)
    ensures |ds| == |rows|
    ensures forall i :: 0 <= i < |rows| ==> ds[i] == rows[i].data
  {
    seq(|rows|, i requires 0 <= i < |rows| => rows[i].data)
  }

  lemma {:induction false} GoalNamesAt(apps: seq<Application>)
    ensures |GoalNames(apps)| == |apps|
    ensures forall i :: 0 <= i < |apps| ==> GoalNames(apps)[i] == apps[i].goalName
  {
    if apps != [] {
      GoalNamesAt(apps[..|apps| - 1]);
    }
  }

  /** Without applications (none fetched, or the fetch gave `null`) there is no chart. */
  lemma ChartsOfNothing(rawData: Option<seq<Application>>)
    requires rawData == None || rawData == Some([])
    ensures Charts(rawData) == []
  {
    if rawData.Some? {
      assert Keys(Group([])) == [];
    }
  }

  /** The keys of `agrupado` are the goal names, once each, in first-seen order. */
  lemma GroupKeys(apps: seq<Application>)
    ensures ObjValid(Group(apps)) && Group(apps).keys == Dedup(GoalNames(apps))
  {
    GroupClosedForm(apps);
  }

  /** The group of a goal describes that goal's applications. */
  lemma GroupOfGoal(apps: seq<Application>, meta: string)
    requires meta in Group(apps).props
    ensures GroupDescribes(Group(apps).props[meta], apps, meta)
  {
    GroupClosedForm(apps);
  }

  /** The `k`-th chart is the chart of the `k`-th entry of `agrupado`. */
  lemma ChartAt(apps: seq<Application>, k: nat)
    requires k < |Charts(Some(apps))|
    ensures WellFormed(Group(apps))
    ensures var es := Entries(Group(apps));
      && k < |es| && es[k].0 in Group(apps).props
      && Charts(Some(apps))[k] == ChartOf(es[k].0, Group(apps).props[es[k].0])
  {
    GroupWellFormed(apps);
  }

  lemma ChartsMetas(apps: seq<Application>)
    ensures Metas(Charts(Some(apps))) == Keys(Group(apps))
  {
    GroupWellFormed(apps);
    var cs := Charts(Some(apps));
    forall k | 0 <= k < |cs|
      ensures cs[k].meta == Keys(Group(apps))[k]
    {
      ChartAt(apps, k);
    }
  }

  /** `ms` names each goal of the applications exactly once, and nothing
      else; when no goal name is an array index, in first-seen order. */
  ghost predicate ListsGoals(ms: seq<string>, apps: seq<Application>)
  {
    && Distinct(ms)
    && (forall i :: 0 <= i < |apps| ==> apps[i].goalName in ms)
    && (forall m :: m in ms ==> exists i :: 0 <= i < |apps| && apps[i].goalName == m)
    && ((forall i :: 0 <= i < |apps| ==> IsNamedKey(apps[i].goalName)) ==> ms == Dedup(GoalNames(apps)))
  }

  /** One chart per goal name, none for anything else, listed in the order
      `Object.entries` lists the goal names: array-index names first, in
      ascending numeric order, then the others in first-seen order. */
  lemma ChartGoals(apps: seq<Application>)
    ensures Metas(Charts(Some(apps))) == OwnKeys(Dedup(GoalNames(apps)))
    ensures ListsGoals(Metas(Charts(Some(apps))), apps)
  {
    assert Metas(Charts(Some(apps))) == OwnKeys(Dedup(GoalNames(apps))) by {
      GroupKeys(apps);
      ChartsMetas(apps);
    }
    ListsGoalsOfKeys(apps, Metas(Charts(Some(apps))));
  }

  lemma ListsGoalsOfKeys(apps: seq<Application>, ms: seq<string>)
    requires ms == OwnKeys(Dedup(GoalNames(apps)))
    ensures ListsGoals(ms, apps)
  {
    var names := GoalNames(apps);
    GoalNamesAt(apps);
    KeysOfWritten(names);
    forall i | 0 <= i < |apps|
      ensures apps[i].goalName in ms
    {
      assert names[i] == apps[i].goalName;
    }
    forall m | m in ms
      ensures exists i :: 0 <= i < |apps| && apps[i].goalName == m
    {
      var i :| 0 <= i < |names| && names[i] == m;
      assert apps[i].goalName == m;
    }
    if forall i :: 0 <= i < |apps| ==> IsNamedKey(apps[i].goalName) {
      assert forall i :: 0 <= i < |names| ==> IsNamedKey(names[i]);
    }
  }

  lemma RowBeforeIsTotalPreorder()
    ensures TotalPreorder(RowBefore)
  {
    forall a: Row, b: Row
      ensures RowBefore(a, b) || RowBefore(b, a)
    {
      LexLeTotal(a.data, b.data);
    }
    forall a: Row, b: Row, c: Row | RowBefore(a, b) && RowBefore(b, c)
      ensures RowBefore(a, c)
    {
      LexLeTransitive(a.data, b.data, c.data);
    }
  }

  /** The sorted rows of a day-keyed row object: one per day, each the row
      stored under its own day, in strictly ascending day order. */
  lemma SortedRows(o: Obj<Row>)
    requires ObjValid(o)
    requires forall d :: d in o.props ==> o.props[d].data == d
    ensures var rows := SortBy(Values(o), RowBefore);
      && |rows| == |o.keys|
      && (forall j :: 0 <= j < |rows| ==> rows[j].data in o.props && rows[j] == o.props[rows[j].data])
      && (forall d :: d in o.props ==> d in RowDays(rows))
      && (forall j, l :: 0 <= j < l < |rows| ==> LexLt(rows[j].data, rows[l].data))
  {
    var vs := Values(o);
    var rows := SortBy(vs, RowBefore);
    ValuesOfRows(o);
    assert |rows| == |vs| by {
      assert |rows| == |multiset(rows)| == |multiset(vs)| == |vs|;
    }
    forall j | 0 <= j < |rows|
      ensures rows[j].data in o.props && rows[j] == o.props[rows[j].data]
    {
      assert rows[j] in multiset(vs);
      var idx :| 0 <= idx < |vs| && vs[idx] == rows[j];
    }
    forall d | d in o.props
      ensures d in RowDays(rows)
    {
      var idx :| 0 <= idx < |vs| && vs[idx].data == d;
      assert vs[idx] in multiset(rows);
      assert vs[idx] in rows;
      var j :| 0 <= j < |rows| && rows[j] == vs[idx];
      assert RowDays(rows)[j] == d;
    }
    DistinctPermutation(vs, rows);
    RowBeforeIsTotalPreorder();
    SortBySorted(vs, RowBefore);
    SortedDistinctRows(rows);
  }

  /** `Object.values` of a day-keyed row object: one row per key, no row twice. */
  lemma ValuesOfRows(o: Obj<Row>)
    requires ObjValid(o)
    requires forall d :: d in o.props ==> o.props[d].data == d
    ensures var vs := Values(o);
      && |vs| == |o.keys|
      && Distinct(vs)
      && (forall j :: 0 <= j < |vs| ==> vs[j].data in o.props && vs[j] == o.props[vs[j].data])
      && (forall d :: d in o.props ==> exists j :: 0 <= j < |vs| && vs[j].data == d)
  {
    var vs := Values(o);
    var ks := Keys(o);
    ValuesCount(o);
    RowDaysAreKeys(o);
    KeysOfValid(o);
    assert Distinct(vs) by {
      forall j, l | 0 <= j < l < |vs|
        ensures vs[j] != vs[l]
      {
        assert vs[j].data == ks[j] && vs[l].data == ks[l];
      }
    }
    forall d | d in o.props
      ensures exists j :: 0 <= j < |vs| && vs[j].data == d
    {
      var idx :| 0 <= idx < |ks| && ks[idx] == d;
      assert vs[idx].data == ks[idx];
    }
  }

  /** Each row of a day-keyed object sits at its own day's key. */
  lemma RowDaysAreKeys(o: Obj<Row>)
    requires ObjValid(o)
    requires forall d :: d in o.props ==> o.props[d].data == d
    ensures forall j :: 0 <= j < |Values(o)| ==> Values(o)[j].data == Keys(o)[j]
  {
  }

  /** Rows sorted by day, no two of them for the same day, are in strictly
      ascending day order. */
  lemma SortedDistinctRows(rows: seq<Row>)
    requires SortedBy(rows, RowBefore)
    requires forall j, l :: 0 <= j < l < |rows| ==> rows[j].data != rows[l].data
    ensures forall j, l :: 0 <= j < l < |rows| ==> LexLt(rows[j].data, rows[l].data)
  {
    forall j, l | 0 <= j < l < |rows|
      ensures LexLt(rows[j].data, rows[l].data)
    {
      assert RowBefore(rows[j], rows[l]);
    }
  }

  /** A chart lists its goal's input names once each in first-seen order,
      and holds one row per day on which the goal has an application, in
      strictly ascending day order; a row holds exactly the input names
      observed that day, each with the sum of its numeric values. */
  ghost predicate ChartDescribes(c: GoalChart, apps: seq<Application>)
  {
    && c.tiposEntrada == Dedup(GoalFields(apps, c.meta))
    && |c.chartData| == |Dedup(GoalDays(apps, c.meta))|
    && (forall d :: d in RowDays(c.chartData) <==> d in GoalDays(apps, c.meta))
    && (forall j, l :: 0 <= j < l < |c.chartData| ==> LexLt(c.chartData[j].data, c.chartData[l].data))
    && (forall j :: 0 <= j < |c.chartData| ==> RowDescribes(c.chartData[j], apps, c.meta, c.chartData[j].data))
  }

  /** Each chart lists its goal's input names once each in first-seen order,
      and holds one row per day on which the goal has an application, in
      strictly ascending day order; a row holds exactly the input names
      observed that day, each with the sum of its numeric values. */
  lemma ChartContents(apps: seq<Application>, k: nat)
    requires k < |Charts(Some(apps))|
    ensures ChartDescribes(Charts(Some(apps))[k], apps)
  {
    ChartAt(apps, k);
    var m := Entries(Group(apps))[k].0;
    GroupOfGoal(apps, m);
    ChartOfGroup(Group(apps).props[m], apps, m);
  }

  /** The chart of a goal group that describes the goal's applications. */
  lemma ChartOfGroup(g: GoalGroup, apps: seq<Application>, meta: string)
    requires GroupDescribes(g, apps, meta)
    ensures var c := ChartOf(meta, g);
      && c.tiposEntrada == Dedup(GoalFields(apps, meta))
      && |c.chartData| == |Dedup(GoalDays(apps, meta))|
      && (forall d :: d in RowDays(c.chartData) <==> d in GoalDays(apps, meta))
      && (forall j, l :: 0 <= j < l < |c.chartData| ==> LexLt(c.chartData[j].data, c.chartData[l].data))
      && (forall j :: 0 <= j < |c.chartData| ==> RowDescribes(c.chartData[j], apps, meta, c.chartData[j].data))
  {
    var o := g.dadosPorData;
    forall d | d in o.props
      ensures o.props[d].data == d
    {
      assert RowDescribes(o.props[d], apps, meta, d);
    }
    SortedRows(o);
    var rows := ChartOf(meta, g).chartData;
    var days := GoalDays(apps, meta);
    forall d
      ensures d in RowDays(rows) <==> d in days
    {
      if d in RowDays(rows) {
        var j :| 0 <= j < |rows| && RowDays(rows)[j] == d;
        assert d in Dedup(days);
      }
      if d in days {
        var i :| 0 <= i < |days| && days[i] == d;
        assert d in Dedup(days);
      }
    }
    forall j | 0 <= j < |rows|
      ensures RowDescribes(rows[j], apps, meta, rows[j].data)
    {
      assert RowDescribes(o.props[rows[j].data], apps, meta, rows[j].data);
    }
  }

  lemma {:induction false} KeptNamesNotExcluded(entries: seq<(string, Value)>)
    ensures forall f :: f in KeptNames(entries) ==> !IsExcluded(f)
  {
    if entries != [] {
      KeptNamesNotExcluded(entries[..|entries| - 1]);
    }
  }

  /** Every name observed on a day is among the goal's names. */
  lemma {:induction false} DayFieldsInGoalFields(apps: seq<Application>, meta: string, day: string)
    ensures forall f :: f in DayFields(apps, meta, day) ==> f in GoalFields(apps, meta) && !IsExcluded(f)
  {
    if apps != [] {
      DayFieldsInGoalFields(apps[..|apps| - 1], meta, day);
      KeptNamesNotExcluded(apps[|apps| - 1].inputs);
    }
  }

  /** "Observações" and "IND" never name a series or a row field of the
      chart, and the rows are sparse: their fields are among its series. */
  predicate PlotsNoExcludedName(c: GoalChart)
  {
    NoExcludedSeries(c.tiposEntrada) && FieldsAreSeries(c.chartData, c.tiposEntrada)
  }

  predicate NoExcludedSeries(series: seq<string>)
  {
    forall f :: f in series ==> !IsExcluded(f)
  }

  predicate FieldsAreSeries(rows: seq<Row>, series: seq<string>)
  {
    forall j :: 0 <= j < |rows| ==> RowFieldsIn(rows[j], series)
  }

  predicate RowFieldsIn(row: Row, series: seq<string>)
  {
    forall f :: f in row.values ==> f in series && !IsExcluded(f)
  }

  /** No chart plots "Observações" or "IND", and every row field is a series. */
  lemma ExcludedNamesNeverPlotted(apps: seq<Application>, k: nat)
    requires k < |Charts(Some(apps))|
    ensures PlotsNoExcludedName(Charts(Some(apps))[k])
  {
    ChartContents(apps, k);
    ChartNamesNotExcluded(apps, Charts(Some(apps))[k]);
  }

  lemma ChartNamesNotExcluded(apps: seq<Application>, c: GoalChart)
    requires c.tiposEntrada == Dedup(GoalFields(apps, c.meta))
    requires forall j :: 0 <= j < |c.chartData| ==> RowDescribes(c.chartData[j], apps, c.meta, c.chartData[j].data)
    ensures PlotsNoExcludedName(c)
  {
    SeriesNotExcluded(apps, c.meta, c.tiposEntrada);
    RowFieldsAreSeries(apps, c.meta, c.chartData, c.tiposEntrada);
  }

  /** The rows of a goal hold only fields that are among its series. */
  lemma RowFieldsAreSeries(apps: seq<Application>, meta: string, rows: seq<Row>, series: seq<string>)
    requires series == Dedup(GoalFields(apps, meta))
    requires forall j :: 0 <= j < |rows| ==> RowDescribes(rows[j], apps, meta, rows[j].data)
    ensures FieldsAreSeries(rows, series)
  {
    forall j | 0 <= j < |rows|
      ensures RowFieldsIn(rows[j], series)
    {
      RowFieldIsSeries(apps, meta, rows[j], series);
    }
  }

  /** No series of a goal is "Observações" or "IND". */
  lemma SeriesNotExcluded(apps: seq<Application>, meta: string, series: seq<string>)
    requires series == Dedup(GoalFields(apps, meta))
    ensures NoExcludedSeries(series)
  {
    GoalFieldsNotExcluded(apps, meta);
  }

  /** A field of a row of the goal is one of the goal's series. */
  lemma RowFieldIsSeries(apps: seq<Application>, meta: string, row: Row, series: seq<string>)
    requires series == Dedup(GoalFields(apps, meta))
    requires RowDescribes(row, apps, meta, row.data)
    ensures RowFieldsIn(row, series)
  {
    var fields := GoalFields(apps, meta);
    DayFieldsInGoalFields(apps, meta, row.data);
    forall f | f in row.values
      ensures f in series && !IsExcluded(f)
    {
      assert f in DayFields(apps, meta, row.data);
      var i :| 0 <= i < |fields| && fields[i] == f;
      assert fields[i] in Dedup(fields);
    }
  }

  lemma {:induction false} GoalFieldsNotExcluded(apps: seq<Application>, meta: string)
    ensures forall f :: f in GoalFields(apps, meta) ==> !IsExcluded(f)
  {
    if apps != [] {
      GoalFieldsNotExcluded(apps[..|apps| - 1], meta);
      KeptNamesNotExcluded(apps[|apps| - 1].inputs);
    }
  }

  // ---------------------------------------------------------------------------
  // Excluded inputs change nothing

  /** The entries without the excluded names. */
  function StripEntries(entries: seq<(string, Value)>): seq<(string, Value)>
  {
    if entries == [] then []
    else
      var e := entries[|entries| - 1];
      StripEntries(entries[..|entries| - 1]) + (if IsExcluded(e.0) then [] else [e])
  }

  /** The applications with every "Observações" and "IND" input removed. */
  function StripApplications(apps: seq<Application>): (r: seq<Application>)
    ensures |r| == |apps|
  {
    seq(|apps|, i requires 0 <= i < |apps| => apps[i].(inputs := StripEntries(apps[i].inputs)))
  }

  lemma {:induction false} AddInputsStripped(g: GoalGroup, day: string, entries: seq<(string, Value)>)
    requires day in g.dadosPorData.props
    ensures AddInputs(g, day, StripEntries(entries)) == AddInputs(g, day, entries)
  {
    if entries != [] {
      var init, e := entries[..|entries| - 1], entries[|entries| - 1];
      AddInputsStripped(g, day, init);
      var s := StripEntries(init);
      if IsExcluded(e.0) {
        assert StripEntries(entries) == s;
      } else {
        assert StripEntries(entries) == s + [e];
        assert (s + [e])[..|s|] == s;
        assert AddInputs(g, day, s + [e]) == AddInput(AddInputs(g, day, s), day, e);
      }
    }
  }

  lemma {:induction false} GroupStripped(apps: seq<Application>)
    ensures Group(StripApplications(apps)) == Group(apps)
  {
    if apps != [] {
      var init := apps[..|apps| - 1];
      GroupStripped(init);
      var s := StripApplications(apps);
      var a := apps[|apps| - 1];
      assert s[..|s| - 1] == StripApplications(init);
      assert s[|s| - 1] == a.(inputs := StripEntries(a.inputs));
      assert Group(s) == AddApplication(Group(init), a.(inputs := StripEntries(a.inputs)));
      var g := Group(init);
      var gs := if a.goalName in g.props then g.props[a.goalName] else NewGroup();
      var day := DayKey(a.createdAt);
      AddInputsStripped(EnsureDay(gs, day), day, a.inputs);
    }
  }

  /** Removing every "Observações" and "IND" input from the applications
      leaves the charts exactly as they were. */
  lemma ExcludedInputsChangeNothing(apps: seq<Application>)
    ensures Charts(Some(StripApplications(apps))) == Charts(Some(apps))
  {
    GroupStripped(apps);
  }

  // ---------------------------------------------------------------------------
  // Text values

  /** Every value stored under `name` in any application is text. */
  predicate OnlyTextUnder(apps: seq<Application>, name: string)
  {
    forall i, e :: 0 <= i < |apps| && 0 <= e < |apps[i].inputs| && apps[i].inputs[e].0 == name ==> apps[i].inputs[e].1.Text?
  }

  lemma {:induction false} EntriesTotalOfText(entries: seq<(string, Value)>, name: string)
    requires forall e :: 0 <= e < |entries| && entries[e].0 == name ==> entries[e].1.Text?
    ensures EntriesTotal(entries, name) == 0.0
  {
    if entries != [] {
      EntriesTotalOfText(entries[..|entries| - 1], name);
    }
  }

  lemma {:induction false} FieldSumOfText(apps: seq<Application>, meta: string, day: string, name: string)
    requires OnlyTextUnder(apps, name)
    ensures FieldSum(apps, meta, day, name) == 0.0
  {
    if apps != [] {
      var init := apps[..|apps| - 1];
      assert OnlyTextUnder(init, name) by {
        forall i, e | 0 <= i < |init| && 0 <= e < |init[i].inputs| && init[i].inputs[e].0 == name
          ensures init[i].inputs[e].1.Text?
        {
          assert init[i] == apps[i];
        }
      }
      FieldSumOfText(init, meta, day, name);
      EntriesTotalOfText(apps[|apps| - 1].inputs, name);
    }
  }

  /** An input name that only ever holds text is still a series of its
      goal's chart, and every row that records it holds 0 for it. */
  lemma TextOnlyFieldPlotsZero(apps: seq<Application>, k: nat, name: string)
    requires k < |Charts(Some(apps))|
    requires OnlyTextUnder(apps, name)
    ensures var c := Charts(Some(apps))[k];
      && (name in GoalFields(apps, c.meta) ==> name in c.tiposEntrada)
      && (forall j :: 0 <= j < |c.chartData| && name in c.chartData[j].values ==> c.chartData[j].values[name] == 0.0)
  {
    ChartContents(apps, k);
    var c := Charts(Some(apps))[k];
    forall j | 0 <= j < |c.chartData| && name in c.chartData[j].values
      ensures c.chartData[j].values[name] == 0.0
    {
      var row := c.chartData[j];
      assert RowDescribes(row, apps, c.meta, row.data);
      DayFieldsInGoalFields(apps, c.meta, row.data);
      FieldSumOfText(apps, c.meta, row.data, name);
      assert Get(row.values, name) == FieldSum(apps, c.meta, row.data, name);
    }
  }

  // ---------------------------------------------------------------------------
  // Series colours of the charts

  /** Each series of each chart gets a config labelled with its name and a
      hue spaced evenly by its position; within a chart the hues differ and
      lie in [0, 360). */
  lemma ChartSeriesConfig(apps: seq<Application>, k: nat, i: nat)
    requires k < |Charts(Some(apps))|
    requires i < |Charts(Some(apps))[k].tiposEntrada|
    ensures var cs := Charts(Some(apps)); var c := cs[k]; var configs := ConfigsUpTo(cs, |cs|);
      && c.meta in configs
      && c.tiposEntrada[i] in configs[c.meta]
      && configs[c.meta][c.tiposEntrada[i]] == SeriesConfig(c.tiposEntrada[i], Hue(i, |c.tiposEntrada|))
      && 0.0 <= Hue(i, |c.tiposEntrada|) < 360.0
      && forall j :: 0 <= j < |c.tiposEntrada| && j != i ==> Hue(j, |c.tiposEntrada|) != Hue(i, |c.tiposEntrada|)
  {
    var cs := Charts(Some(apps));
    assert Distinct(Metas(cs)) by {
      ChartGoals(apps);
    }
    MetasDistinct(cs);
    assert Distinct(cs[k].tiposEntrada) by {
      ChartContents(apps, k);
    }
    SeriesConfigAt(cs, k, i);
  }

  lemma MetasDistinct(cs: seq<GoalChart>)
    requires Distinct(Metas(cs))
    ensures forall a, b :: 0 <= a < b < |cs| ==> cs[a].meta != cs[b].meta
  {
    forall a, b | 0 <= a < b < |cs|
      ensures cs[a].meta != cs[b].meta
    {
      assert Metas(cs)[a] != Metas(cs)[b];
    }
  }
}
