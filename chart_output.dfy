/** What the dynamic stacked bar chart draws from the grouping: one chart per
    goal with its rows sorted by day (`chartsByGoal`), an evenly spaced hue
    per input name (`chartConfigs`), and the `DD/MM/YYYY` axis labels
    (`formatDate`). */
module ChartOutput {
  import opened JsValues
  import opened JsArrays
  import opened JsStrings
  import opened JsObjects
  import opened Calendar
  import opened ChartGrouping

  /** One entry of `chartsByGoal`. */
  datatype GoalChart = GoalChart(meta: string, chartData: seq<Row>, tiposEntrada: seq<string>)

  /** The sort comparator `a.data.localeCompare(b.data)` is not positive,
      taken as character-code order. The two agree on day keys of one shape
      (four-digit years, where only digits meet digits); locale collation
      differs elsewhere, for instance on "-" against "+" or on letter case. */
  predicate RowBefore(a: Row, b: Row)
  {
    LexLe(a.data, b.data)
  }

  /** Every object in the grouping keeps its keys in order. */
  ghost predicate WellFormed(agrupado: Grouping)
  {
    ObjValid(agrupado) && forall m :: m in agrupado.props ==> ObjValid(agrupado.props[m].dadosPorData)
  }

  /** The chart of one goal: `Object.values(dadosPorData)` sorted by day. */
  function ChartOf(meta: string, g: GoalGroup): GoalChart
    requires ObjValid(g.dadosPorData)
  {
    GoalChart(meta, SortBy(Values(g.dadosPorData), RowBefore), g.tiposEntrada)
  }

  /** `Object.entries(agrupado).map(...)`. */
  function Materialize(agrupado: Grouping): (charts: seq<GoalChart>)
    requires WellFormed(agrupado)
    ensures |charts| == |Keys(agrupado)|
  {
    var es := Entries(agrupado);
    seq(|es|, i requires 0 <= i < |es| => ChartOf(es[i].0, es[i].1))
  }

  lemma GroupWellFormed(apps: seq<Application>)
    ensures WellFormed(Group(apps))
  {
    GroupClosedForm(apps);
  }

  /** `chartsByGoal` for the fetched applications (`null` when the fetch failed). */
  function Charts(rawData: Option<seq<Application>>): seq<GoalChart>
  {
    match rawData
    case None => []
    case Some(apps) => GroupWellFormed(apps); Materialize(Group(apps))
  }

  /** `chartsByGoal`, computed the way the component does: one pass over the
      applications that updates `agrupado` in place (no pass at all when
      `rawData` is `null`), then the materialisation. */
  method ChartsByGoal(rawData: Option<seq<Application>>) returns (charts: seq<GoalChart>)
    ensures charts == Charts(rawData)
  {
    var apps := if rawData.Some? then rawData.value else [];
    var agrupado := GroupAll(apps);
    GroupWellFormed(apps);
    charts := Materialize(agrupado);
    assert rawData.None? ==> Keys(agrupado) == [];
  }

  /** `rawData?.forEach(...)`: the applications added to `agrupado` one by one. */
  method GroupAll(apps: seq<Application>) returns (agrupado: Grouping)
    ensures agrupado == Group(apps)
  {
    agrupado := EmptyObj();
    var i := 0;
    while i < |apps|
      invariant 0 <= i <= |apps|
      invariant agrupado == Group(apps[..i])
    {
      agrupado := GroupItem(agrupado, apps[i]);
      GroupPrefixStep(apps, i);
      i := i + 1;
    }
    assert apps[..i] == apps;
  }

  lemma GroupPrefixStep(apps: seq<Application>, i: nat)
    requires i < |apps|
    ensures Group(apps[..i + 1]) == AddApplication(Group(apps[..i]), apps[i])
  {
    assert apps[..i + 1][..i] == apps[..i];
  }

  lemma InputsPrefixStep(g: GoalGroup, day: string, entries: seq<(string, Value)>, j: nat)
    requires day in g.dadosPorData.props && j < |entries|
    ensures AddInputs(g, day, entries[..j + 1]) == AddInput(AddInputs(g, day, entries[..j]), day, entries[j])
  {
    assert entries[..j + 1][..j] == entries[..j];
  }

  /** The `rawData.forEach` callback for one application. */
  method GroupItem(agrupado: Grouping, item: Application) returns (result: Grouping)
    ensures result == AddApplication(agrupado, item)
  {
    result := agrupado;
    var meta := item.goalName;
    if meta !in result.props {
      result := Put(result, meta, NewGroup());
    }
    var data := DayKey(item.createdAt);
    var group := result.props[meta];
    ghost var before := group;
    assert before == if meta in agrupado.props then agrupado.props[meta] else NewGroup();
    if data !in group.dadosPorData.props {
      group := GoalGroup(Put(group.dadosPorData, data, Row(data, map[])), group.tiposEntrada);
    }
    var j := 0;
    while j < |item.inputs|
      invariant 0 <= j <= |item.inputs|
      invariant group == AddInputs(EnsureDay(before, data), data, item.inputs[..j])
    {
      group := AddEntry(group, data, item.inputs[j]);
      InputsPrefixStep(EnsureDay(before, data), data, item.inputs, j);
      j := j + 1;
    }
    assert item.inputs[..j] == item.inputs;
    PutTwice(agrupado, meta, NewGroup(), group);
    result := Put(result, meta, group);
  }

  /** The `Object.entries(item.inputs).forEach` callback for one entry. */
  method AddEntry(group: GoalGroup, data: string, entry: (string, Value)) returns (result: GoalGroup)
    requires data in group.dadosPorData.props
    ensures result == AddInput(group, data, entry)
  {
    result := group;
    var (tipoEntrada, valor) := entry;
    if tipoEntrada != "Observações" && tipoEntrada != "IND" {
      var tipos := if tipoEntrada in group.tiposEntrada then group.tiposEntrada else group.tiposEntrada + [tipoEntrada];
      var row := group.dadosPorData.props[data];
      var sofar := if tipoEntrada in row.values then row.values[tipoEntrada] else 0.0;
      var added := if valor.Num? then valor.n else 0.0;
      row := Row(row.data, row.values[tipoEntrada := sofar + added]);
      result := GoalGroup(Put(group.dadosPorData, data, row), tipos);
    }
  }

  // ---------------------------------------------------------------------------
  // chartConfigs

  /** The `label` (here `legend`, `label` being a Dafny keyword) and the hue
      of one series; the colour is `hsl(hue, 70%, 50%)`. */
  datatype SeriesConfig = SeriesConfig(legend: string, hue: real)

  /** `(idx * 360) / tiposEntrada.length`. */
  function Hue(idx: nat, count: nat): real
  {
    if count == 0 then 0.0 else (idx * 360) as real / count as real
  }

  /** `configMeta` after the first `k` names of `tipos` have been given a hue. */
  function SeriesConfigsUpTo(tipos: seq<string>, k: nat): map<string, SeriesConfig>
    requires k <= |tipos|
  {
    if k == 0 then map[]
    else SeriesConfigsUpTo(tipos, k - 1)[tipos[k - 1] := SeriesConfig(tipos[k - 1], Hue(k - 1, |tipos|))]
  }

  /** `configMeta` for one chart. */
  function SeriesConfigs(tipos: seq<string>): map<string, SeriesConfig>
  {
    SeriesConfigsUpTo(tipos, |tipos|)
  }

  /** `configs` after the first `k` charts. */
  function ConfigsUpTo(charts: seq<GoalChart>, k: nat): map<string, map<string, SeriesConfig>>
    requires k <= |charts|
  {
    if k == 0 then map[]
    else ConfigsUpTo(charts, k - 1)[charts[k - 1].meta := SeriesConfigs(charts[k - 1].tiposEntrada)]
  }

  /** `chartConfigs`, with the loops of the component. */
  method ChartConfigs(charts: seq<GoalChart>) returns (configs: map<string, map<string, SeriesConfig>>)
    ensures configs == ConfigsUpTo(charts, |charts|)
  {
    configs := map[];
    var c := 0;
    while c < |charts|
      invariant 0 <= c <= |charts|
      invariant configs == ConfigsUpTo(charts, c)
    {
      var tipos := charts[c].tiposEntrada;
      var configMeta: map<string, SeriesConfig> := map[];
      var idx := 0;
      while idx < |tipos|
        invariant 0 <= idx <= |tipos|
        invariant configMeta == SeriesConfigsUpTo(tipos, idx)
      {
        configMeta := configMeta[tipos[idx] := SeriesConfig(tipos[idx], (idx * 360) as real / |tipos| as real)];
        idx := idx + 1;
      }
      configs := configs[charts[c].meta := configMeta];
      c := c + 1;
    }
  }

  /** Every name gets a config labelled with the name and nothing else gets
      one; with distinct names the `idx`-th name gets hue `Hue(idx, n)`. */
  lemma {:induction false} SeriesConfigsUpToSpec(tipos: seq<string>, k: nat)
    requires k <= |tipos|
    ensures forall x :: x in SeriesConfigsUpTo(tipos, k) <==> x in tipos[..k]
    ensures forall x :: x in SeriesConfigsUpTo(tipos, k) ==> SeriesConfigsUpTo(tipos, k)[x].legend == x
    ensures Distinct(tipos) ==> forall i :: 0 <= i < k ==> SeriesConfigsUpTo(tipos, k)[tipos[i]].hue == Hue(i, |tipos|)
  {
    if k > 0 {
      SeriesConfigsUpToSpec(tipos, k - 1);
      assert tipos[..k] == tipos[..k - 1] + [tipos[k - 1]];
    }
  }

  /** The hues are evenly spaced round the colour wheel: each in [0, 360),
      and no two names of a chart share one. */
  lemma HuesSpread(i: nat, j: nat, count: nat)
    requires i < count && j < count
    ensures 0.0 <= Hue(i, count) < 360.0
    ensures i != j ==> Hue(i, count) != Hue(j, count)
  {
    var n := count as real;
    assert Hue(i, count) * n == (i * 360) as real;
    assert Hue(j, count) * n == (j * 360) as real;
  }

  /** The configs of a list of charts with distinct goals give each chart's
      series the config of its own names. */
  lemma {:induction false} ConfigsUpToSpec(charts: seq<GoalChart>, k: nat)
    requires k <= |charts|
    requires forall i, j :: 0 <= i < j < |charts| ==> charts[i].meta != charts[j].meta
    ensures forall i :: 0 <= i < k ==> charts[i].meta in ConfigsUpTo(charts, k) && ConfigsUpTo(charts, k)[charts[i].meta] == SeriesConfigs(charts[i].tiposEntrada)
    ensures forall m :: m in ConfigsUpTo(charts, k) ==> exists i :: 0 <= i < k && charts[i].meta == m
  {
    if k > 0 {
      ConfigsUpToSpec(charts, k - 1);
    }
  }

  /** With distinct goals and distinct names per chart, the `i`-th series of
      chart `k` gets its own name and the `i`-th of the evenly spaced hues. */
  lemma SeriesConfigAt(charts: seq<GoalChart>, k: nat, i: nat)
    requires forall a, b :: 0 <= a < b < |charts| ==> charts[a].meta != charts[b].meta
    requires k < |charts| && i < |charts[k].tiposEntrada| && Distinct(charts[k].tiposEntrada)
    ensures var c := charts[k]; var configs := ConfigsUpTo(charts, |charts|);
      && c.meta in configs
      && c.tiposEntrada[i] in configs[c.meta]
      && configs[c.meta][c.tiposEntrada[i]] == SeriesConfig(c.tiposEntrada[i], Hue(i, |c.tiposEntrada|))
      && 0.0 <= Hue(i, |c.tiposEntrada|) < 360.0
      && forall j :: 0 <= j < |c.tiposEntrada| && j != i ==> Hue(j, |c.tiposEntrada|) != Hue(i, |c.tiposEntrada|)
  {
    var tipos := charts[k].tiposEntrada;
    ConfigsUpToSpec(charts, |charts|);
    SeriesConfigsUpToSpec(tipos, |tipos|);
    assert tipos[i] in tipos[..|tipos|];
    HuesSpread(i, i, |tipos|);
    forall j | 0 <= j < |tipos| && j != i
      ensures Hue(j, |tipos|) != Hue(i, |tipos|)
    {
      HuesSpread(i, j, |tipos|);
    }
  }

  // ---------------------------------------------------------------------------
  // formatDate

  /** Destructuring `[ano, mes, dia]` from a split: a missing piece is `undefined`. */
  function Piece(parts: seq<string>, i: nat): string
  {
    if i < |parts| then parts[i] else "undefined"
  }

  /** `formatDate(data)`: `${dia}/${mes}/${ano}` from `data.split("-")`. */
  function FormatDate(data: string): string
  {
    var parts := Split(data, '-');
    Piece(parts, 2) + "/" + Piece(parts, 1) + "/" + Piece(parts, 0)
  }

  /** Three dash-free pieces joined by dashes come back in reverse order,
      joined by slashes. */
  lemma FormatDateReverses(ano: string, mes: string, dia: string)
    requires '-' !in ano && '-' !in mes && '-' !in dia
    ensures FormatDate(ano + "-" + mes + "-" + dia) == dia + "/" + mes + "/" + ano
  {
    assert ano + "-" + mes + "-" + dia == ano + ['-'] + (mes + ['-'] + dia);
    SplitAtFirst(ano, mes + ['-'] + dia, '-');
    SplitAtFirst(mes, dia, '-');
    SplitNoSeparator(dia, '-');
  }

  /** A text without a dash becomes the year, with day and month `undefined`. */
  lemma FormatDateWithoutDash(data: string)
    requires '-' !in data
    ensures FormatDate(data) == "undefined/undefined/" + data
  {
    SplitNoSeparator(data, '-');
    assert FormatDate(data) == "undefined" + "/" + "undefined" + "/" + data;
    assert "undefined" + "/" + "undefined" + "/" == "undefined/undefined/";
  }

  /** A day key of a year from 0 on is shown as `DD/MM/YYYY`. */
  lemma FormatDayKey(t: DateTime)
    requires t.date.year >= 0
    ensures FormatDate(DayKey(t)) == PadDigits(t.date.day, 2) + "/" + PadDigits(t.date.month, 2) + "/" + YearText(t.date.year)
  {
    DayKeyIsDateText(t);
    var y := YearText(t.date.year);
    assert forall i :: 0 <= i < |y| ==> y[i] != '-';
    FormatDateReverses(y, PadDigits(t.date.month, 2), PadDigits(t.date.day, 2));
  }
}
