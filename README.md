# educaba-frontend, modelled in Dafny

This project models the logic of the educaba web client, a case-management
front end in which practitioners keep patients, their contacts, therapy
programs (sets of goals with measured inputs) and the records logged against
those programs. Almost all of the client is rendering and calls to a REST
backend. What is modelled is the logic that sits between the two:

- **Per-goal stacked chart.** The records of a patient are grouped by goal
  and by UTC day. Each input field is summed per day, skipping the fields
  "Observações" and "IND" and counting non-numeric values as 0. The result
  is materialised as one chart per goal: rows sorted by day, the field names
  in first-seen order, one evenly spaced hue per field, and days reformatted
  `DD/MM/YYYY`. Grouping is written twice and proved equal:
  - as the loop the component runs (`ChartOutput.ChartsByGoal`);
  - as a fold (`ChartGrouping.Group`), with a closed form for every sum.

  A JavaScript object lists array-index keys first, and that ordering is
  modelled (`JsObjects`).
- **Record form and record actions.** The form's initial values come from the
  program and the record being edited. When the set changes, the goal list
  follows it. Submitting either creates or updates. The request bodies and
  result handling of `createRecord` and `updateRecord` are modelled too.
- **Programs.** `getPrograms` returns recent programs: an in-place sort of an
  array by update time, newest first, then a slice. Also modelled: the
  `programSchema` family and the bodies `createProgram` and `updateProgram`
  send.
- **Program form.** Its schema, the status dialog that adds and removes set
  statuses, the reset for an edited program, and the submit choice.
- **Stand-alone status dialog.** The same list edits, done by calling the
  backend directly.
- **Schemas.** The record, patient, create-patient and contact schemas.
  Each is modelled as a list of issues that is empty exactly when the value
  is accepted.
- **Patients.** The two patient lists (name search and sex tab), the age and
  short id on the patient card, and the file extension read from an
  uploaded picture.

The components whose state the source updates step by step (the two status
dialogs and the record form) become classes whose methods update the fields.
The sort of `getPrograms` works in place, so it is a method on an array
(`ProgramActions.SortNewestFirst`). The grouping loops of the chart are
methods too (`ChartOutput.ChartsByGoal`). Everything else is functions and
lemmas.

Things outside the model are parameters:
- responses from the network: the `ok` status and the parsed body;
- today's date;
- the browser's UTC offset;
- `Date.parse`;
- zod's e-mail check;
- `toLowerCase`;
- the timestamp of an update time.

Where the code and the repository's own description disagree, the model
follows the code:
- Goals are listed in `Object.entries` order, not in order of first
  appearance. Goal names that read as array indices come first.
- A `created_at` that is not a valid date makes `toISOString` throw. The
  record's goal group has already been created by then, but the throw
  aborts the whole `useMemo`, so no chart is shown at all. The model
  therefore only takes records with a valid instant.

## Model

| member | source | states |
|---|---|---|
| ChartGrouping.AddValue | src/components/dynamic-stacked-bar-chart.tsx:53-55 | adds the value's numeric part (0 for text) to the field's sum, a missing field starting at 0; stated through `AddInputsEffect` |
| ChartGrouping.AddInputs | src/components/dynamic-stacked-bar-chart.tsx:50-57 | folds one record's entries into its day's row and the field set; `AddInputsEffect` states the result |
| ChartGrouping.AddApplication | src/components/dynamic-stacked-bar-chart.tsx:38-57 | one iteration of the `forEach`: the goal's group (new if absent), its day's row (new if absent), then the entries; `AddApplicationStep` states what it preserves |
| ChartGrouping.Group | src/components/dynamic-stacked-bar-chart.tsx:37-58 | the whole reduction as a fold over the records; `GroupClosedForm` states its closed form |
| ChartGrouping.EnsureDay | src/components/dynamic-stacked-bar-chart.tsx:45-47 | after the step the record's day has a row in its goal's group |
| ChartGrouping.AddInputsEffect | src/components/dynamic-stacked-bar-chart.tsx:50-57 | adding a record's inputs to its day: the day set and the other days are untouched, the row keeps its date, the field set gains the non-excluded names in first-seen order, and each non-excluded field's sum grows by the record's numeric total for it |
| ChartGrouping.GroupClosedForm | src/components/dynamic-stacked-bar-chart.tsx:37-58 | after the `forEach`, every goal seen has a group whose days are its records' days, whose field list is its fields deduplicated in first-seen order, and whose every row holds, per field, the sum of the numeric values of that goal's records on that day |
| ChartGrouping.GroupStep | src/components/dynamic-stacked-bar-chart.tsx:37-58 | if the grouping of all records but the last obeys the closed form, the grouping of all of them does |
| ChartGrouping.AddApplicationStep | src/components/dynamic-stacked-bar-chart.tsx:37-58 | one iteration of the `forEach` preserves that closed form |
| ChartGrouping.OtherGoalStep | src/components/dynamic-stacked-bar-chart.tsx:38-41 | a record of another goal leaves a goal's description unchanged |
| ChartGrouping.GoalStep | src/components/dynamic-stacked-bar-chart.tsx:38-57 | a record of the goal extends the goal's description by that record |
| ChartGrouping.NoGoal | src/components/dynamic-stacked-bar-chart.tsx:37-41 | a goal name no record carries has no days and no fields |
| ChartGrouping.NoBucket | src/components/dynamic-stacked-bar-chart.tsx:43-47 | a day no record of the goal falls on has no fields and sums 0 everywhere |
| ChartOutput.ChartOf | src/components/dynamic-stacked-bar-chart.tsx:61-66 | one goal's chart: its rows sorted by day and its field list; `ChartOfGroup` and `SortedRows` state its contents |
| ChartOutput.Charts | src/components/dynamic-stacked-bar-chart.tsx:31-69 | `chartsByGoal`: nothing for missing data, otherwise the fold materialised; `ChartsByGoal` proves the loops compute it, and `ChartGoals` and `ChartContents` state what it holds |
| ChartOutput.Materialize | src/components/dynamic-stacked-bar-chart.tsx:60-68 | one chart per own key of the grouping |
| ChartOutput.GroupWellFormed | src/components/dynamic-stacked-bar-chart.tsx:37-58 | the grouping is a valid object whose rows each sit under their own day |
| ChartOutput.ChartsByGoal | src/components/dynamic-stacked-bar-chart.tsx:31-69 | the imperative grouping loops followed by materialisation compute exactly `Charts(rawData)` |
| ChartOutput.GroupAll | src/components/dynamic-stacked-bar-chart.tsx:37-58 | the outer loop computes the fold `Group` |
| ChartOutput.GroupItem | src/components/dynamic-stacked-bar-chart.tsx:38-57 | the body of the outer loop, with its inner loop over the inputs, computes one step of the fold |
| ChartOutput.AddEntry | src/components/dynamic-stacked-bar-chart.tsx:51-56 | one pass of the inner loop: an excluded name changes nothing; any other name joins the field set and its day's sum grows by the value's numeric part |
| ChartOutput.ChartConfigs | src/components/dynamic-stacked-bar-chart.tsx:72-90 | the loop computes the config map of every chart |
| ChartOutput.SeriesConfigsUpToSpec | src/components/dynamic-stacked-bar-chart.tsx:80-85 | the configs hold exactly the fields seen so far, each labelled by its name, and the i-th of distinct fields gets hue i·360/N |
| ChartOutput.Hue | src/components/dynamic-stacked-bar-chart.tsx:83 | `idx·360/N` for the N fields of a chart; `HuesSpread` states its range and that distinct fields get distinct hues |
| ChartOutput.HuesSpread | src/components/dynamic-stacked-bar-chart.tsx:83 | hues lie in [0, 360) and distinct positions get distinct hues |
| ChartOutput.ConfigsUpToSpec | src/components/dynamic-stacked-bar-chart.tsx:78-87 | with distinct goal names, each goal maps to the configs of its own fields and no other key appears |
| ChartOutput.SeriesConfigAt | src/components/dynamic-stacked-bar-chart.tsx:78-87 | the config of the i-th field of a chart is its name with hue i·360/N, a hue in [0, 360) that no other field of the chart shares |
| ChartOutput.FormatDate | src/components/dynamic-stacked-bar-chart.tsx:93-96 | the `D/M/Y` text of a `Y-M-D` text, with `undefined` for a missing piece; `FormatDateReverses`, `FormatDateWithoutDash` and `FormatDayKey` state it |
| ChartOutput.FormatDateReverses | src/components/dynamic-stacked-bar-chart.tsx:93-96 | `Y-M-D` becomes `D/M/Y` |
| ChartOutput.FormatDateWithoutDash | src/components/dynamic-stacked-bar-chart.tsx:93-96 | a text without a dash becomes `undefined/undefined/` followed by the text |
| ChartOutput.FormatDayKey | src/components/dynamic-stacked-bar-chart.tsx:93-96 | a day key formats as two-digit day, two-digit month and the year |
| Calendar.DayKey | src/components/dynamic-stacked-bar-chart.tsx:43 | the part of the instant's ISO text before `T`; `DayKeyIsDateText` states that it is the UTC day's `YYYY-MM-DD` text |
| Calendar.DayKeyIsDateText | src/components/dynamic-stacked-bar-chart.tsx:43 | the part of the ISO string before `T` is the `YYYY-MM-DD` text of the UTC day |
| Calendar.DateTextOrderIsCalendarOrder | src/components/dynamic-stacked-bar-chart.tsx:63-64 | comparing day keys as text orders them as calendar days (years 0 to 9999) |
| JsObjects.OwnKeys | src/components/dynamic-stacked-bar-chart.tsx:60 | the order in which `Object.entries` lists an object's keys: array-index keys ascending, then the others in insertion order; `OwnKeysPermutation` and `OwnKeysOrder` state it |
| JsObjects.OwnKeysPermutation | src/components/dynamic-stacked-bar-chart.tsx:60 | the listing holds every inserted key, no other, and repeats none |
| JsObjects.OwnKeysOrder | src/components/dynamic-stacked-bar-chart.tsx:60 | array-index keys come first in ascending numeric order, and the other keys keep their insertion order |
| JsObjects.KeysOfWritten | src/components/dynamic-stacked-bar-chart.tsx:37-41 | an object assigned a sequence of keys lists each assigned key once and no other, in first-assignment order when none is an array index |
| ChartProperties.ChartsOfNothing | src/components/dynamic-stacked-bar-chart.tsx:37-68 | null or empty data gives no charts |
| ChartProperties.GroupKeys | src/components/dynamic-stacked-bar-chart.tsx:37-41 | the grouping's keys are the goal names deduplicated in first-seen order |
| ChartProperties.GroupOfGoal | src/components/dynamic-stacked-bar-chart.tsx:37-58 | each goal's group obeys the closed form |
| ChartProperties.ChartAt | src/components/dynamic-stacked-bar-chart.tsx:60-68 | the k-th chart is built from the k-th entry of the grouping |
| ChartProperties.ChartsMetas | src/components/dynamic-stacked-bar-chart.tsx:60-62 | the charts' goals are the grouping's keys in `Object.entries` order |
| ChartProperties.ChartGoals | src/components/dynamic-stacked-bar-chart.tsx:37-62 | exactly one chart per distinct goal name: array-index names first, then first-seen order (plain first-seen order when no name is an index) |
| ChartProperties.RowBeforeIsTotalPreorder | src/components/dynamic-stacked-bar-chart.tsx:63-65 | the `localeCompare` comparator on days is a total preorder |
| ChartProperties.SortedRows | src/components/dynamic-stacked-bar-chart.tsx:63-65 | sorting the rows keeps every row once and orders them strictly by day |
| ChartProperties.ValuesOfRows | src/components/dynamic-stacked-bar-chart.tsx:63 | `Object.values` of the day map lists every row once |
| ChartProperties.SortedDistinctRows | src/components/dynamic-stacked-bar-chart.tsx:63-65 | sorted rows with distinct days are strictly ascending |
| ChartProperties.ChartContents | src/components/dynamic-stacked-bar-chart.tsx:43-66 | each chart has one row per distinct day of its goal, strictly ascending; each row's date is its bucket and it holds exactly the fields observed that day with their sums; the series are the goal's fields, distinct and in first-seen order |
| ChartProperties.ChartOfGroup | src/components/dynamic-stacked-bar-chart.tsx:60-66 | materialising a group that obeys the closed form gives a chart with those contents |
| ChartProperties.KeptNamesNotExcluded | src/components/dynamic-stacked-bar-chart.tsx:51 | "Observações" and "IND" are never registered |
| ChartProperties.DayFieldsInGoalFields | src/components/dynamic-stacked-bar-chart.tsx:51-53 | a field of a day is a field of the goal and is not excluded |
| ChartProperties.ExcludedNamesNeverPlotted | src/components/dynamic-stacked-bar-chart.tsx:51-53 | no excluded name is a series or a row field, and every row field is a series |
| ChartProperties.RowFieldsAreSeries | src/components/dynamic-stacked-bar-chart.tsx:52-53 | every field a row holds is one of the goal's series and is not excluded: rows are sparse over `{data}` ∪ series |
| ChartProperties.GoalFieldsNotExcluded | src/components/dynamic-stacked-bar-chart.tsx:51-52 | a goal's fields never include the excluded names |
| ChartProperties.AddInputsStripped | src/components/dynamic-stacked-bar-chart.tsx:50-57 | dropping the excluded inputs from a record changes nothing in its day |
| ChartProperties.GroupStripped | src/components/dynamic-stacked-bar-chart.tsx:37-58 | dropping every excluded input leaves the grouping unchanged |
| ChartProperties.ExcludedInputsChangeNothing | src/components/dynamic-stacked-bar-chart.tsx:51 | dropping every excluded input leaves the charts unchanged |
| ChartProperties.EntriesTotalOfText | src/components/dynamic-stacked-bar-chart.tsx:55 | text values add 0 |
| ChartProperties.FieldSumOfText | src/components/dynamic-stacked-bar-chart.tsx:53-55 | a field that only ever holds text sums to 0 |
| ChartProperties.TextOnlyFieldPlotsZero | src/components/dynamic-stacked-bar-chart.tsx:52-55 | such a field is still a series and plots 0 on every day it appears |
| ChartProperties.ChartSeriesConfig | src/components/dynamic-stacked-bar-chart.tsx:72-90 | every series of every chart has a config with its name and its own hue in [0, 360) |
| ChartAsWritten.Read | src/components/dynamic-stacked-bar-chart.tsx:39 | reading a key of a plain object finds an own value, an inherited member of `Object.prototype`, or nothing |
| ChartAsWritten.Assign | src/components/dynamic-stacked-bar-chart.tsx:53-55 | assigning `__proto__` is lost; any other key is set |
| ChartAsWritten.NewRowAsWritten | src/components/dynamic-stacked-bar-chart.tsx:46 | a new row object holds only `data` |
| ChartAsWritten.NewRowMirrors | src/components/dynamic-stacked-bar-chart.tsx:46 | the new row object matches an empty model row for the day |
| ChartAsWritten.AsWrittenAgrees | src/components/dynamic-stacked-bar-chart.tsx:53-55 | for ordinary field names the row object tracks the model row exactly |
| ChartAsWritten.DataInputRewritesDay | src/components/dynamic-stacked-bar-chart.tsx:46-55 | an input named "data" turns the row's date into a concatenated string |
| ChartAsWritten.InheritedInputStoresText | src/components/dynamic-stacked-bar-chart.tsx:53-55 | an input named like an `Object.prototype` method stores the method's text plus the number |
| ChartAsWritten.ProtoInputIsLost | src/components/dynamic-stacked-bar-chart.tsx:53-55 | an input named `__proto__` stores nothing |
| ChartAsWritten.AddValueAsWritten | src/components/dynamic-stacked-bar-chart.tsx:53-55 | `row[name] = (row[name] || 0) + numeric part` on the row object; `AsWrittenAgrees`, `DataInputRewritesDay`, `InheritedInputStoresText` and `ProtoInputIsLost` state it |
| ChartAsWritten.DayKeyIsNotInherited | src/components/dynamic-stacked-bar-chart.tsx:43-45 | a day key is never the name of an `Object.prototype` member, so looking up a day finds only an own row |
| ChartAsWritten.EnsureDayAsWritten | src/components/dynamic-stacked-bar-chart.tsx:45-47 | after the step the day has an own row, and a day already present keeps its group unchanged |
| ChartAsWritten.AddInputAsWritten | src/components/dynamic-stacked-bar-chart.tsx:51-56 | one entry as written, on the row object; `InputMirrors` compares it with the model |
| ChartAsWritten.AddInputsAsWritten | src/components/dynamic-stacked-bar-chart.tsx:50-57 | the inner `forEach` as written; `InputsMirror` compares it with the model |
| ChartAsWritten.AddApplicationAsWritten | src/components/dynamic-stacked-bar-chart.tsx:38-57 | a record throws exactly when its goal name reads an inherited member |
| ChartAsWritten.GroupAsWritten | src/components/dynamic-stacked-bar-chart.tsx:37-58 | the whole reduction as written, on row objects, ending at the first throw; `GroupAsWrittenThrows` and `GroupAsWrittenMirrors` state it |
| ChartAsWritten.GroupGoalsAreNames | src/components/dynamic-stacked-bar-chart.tsx:38-41 | every key of the grouping is some record's goal name |
| ChartAsWritten.ApplicationSameGoals | src/components/dynamic-stacked-bar-chart.tsx:38-41 | one record as written throws exactly for a new goal named like an inherited member, and otherwise stores its goal where the model does |
| ChartAsWritten.GroupAsWrittenThrows | src/components/dynamic-stacked-bar-chart.tsx:37-58 | the component throws exactly when some goal is named like an `Object.prototype` member; otherwise its grouping has the model's goals in the model's order |
| ChartAsWritten.EnsureDayMirrors | src/components/dynamic-stacked-bar-chart.tsx:45-47 | opening a day keeps a matching group matching |
| ChartAsWritten.InputMirrors | src/components/dynamic-stacked-bar-chart.tsx:51-56 | for an input named neither "data" nor like an inherited member, one entry keeps a matching group matching |
| ChartAsWritten.InputsMirror | src/components/dynamic-stacked-bar-chart.tsx:50-57 | the same for all of a record's entries |
| ChartAsWritten.ApplicationMirrors | src/components/dynamic-stacked-bar-chart.tsx:38-57 | a record with an ordinary goal name and ordinary input names succeeds and keeps the groupings matched |
| ChartAsWritten.GroupAsWrittenMirrors | src/components/dynamic-stacked-bar-chart.tsx:37-58 | when no goal or input is named "data" or like an `Object.prototype` member, the component does not throw and has the model's goals, days, field lists and sums: every row object holds its day under `data` and exactly the model's sums under the other names |
| ChartAsWritten.GroupDataInputRewritesDay | src/components/dynamic-stacked-bar-chart.tsx:43-55 | on the whole reduction, a record on day D whose only input is "data" with value x makes the row's date D followed by the numeral of x, where the model's row keeps D |
| ChartAsWritten.GroupOneDay | src/components/dynamic-stacked-bar-chart.tsx:43-47 | the model's grouping of one record keeps the day key as its row's date |
| ChartAsWritten.ConstructorGoalThrows | src/components/dynamic-stacked-bar-chart.tsx:39-45 | a goal named "constructor" throws |
| ProgramRecordForm.ParentSetId | src/components/forms/program-record-form.tsx:52-55 | "" without a record; otherwise the first set holding the record's goal, or "" if none does |
| ProgramRecordForm.DefaultValue | src/components/forms/program-record-form.tsx:58 | 0 for a number input, "" for any other |
| ProgramRecordForm.BaseEntries | src/components/forms/program-record-form.tsx:58 | one entry per program input, in order, with its default |
| ProgramRecordForm.BaseInputs | src/components/forms/program-record-form.tsx:57-59 | `Object.fromEntries` of each program input's default; `BaseInputsSpec` states its keys and values |
| ProgramRecordForm.BaseInputsSpec | src/components/forms/program-record-form.tsx:57-59 | one key per program input name, with its type's default; of two inputs with one name the later wins |
| ProgramRecordForm.DefaultInputs | src/components/forms/program-record-form.tsx:60-65 | the base values overridden by the record's saved inputs; `DefaultInputsSpec` states its keys and values |
| ProgramRecordForm.DefaultInputsSpec | src/components/forms/program-record-form.tsx:60-65 | the defaults without a record; with one, saved values override (the last wins), untouched defaults stay and record-only names are added |
| ProgramRecordForm.GoalsForSet | src/components/forms/program-record-form.tsx:80-81 | the goals of the first set with the chosen id, or none |
| ProgramRecordForm.KeptGoalId | src/components/forms/program-record-form.tsx:85-90 | the goal is cleared iff it is non-empty and not offered; the result is "" or an offered goal |
| ProgramRecordForm.SubmitRequest | src/components/forms/program-record-form.tsx:96-101 | update (with the record id) iff the record has an id, otherwise create |
| ProgramRecordForm.RecordForm.constructor | src/components/forms/program-record-form.tsx:67-74 | the form starts from the parent set, the record's goal and the default inputs |
| ProgramRecordForm.RecordForm.ChooseSet | src/components/forms/program-record-form.tsx:125 | choosing a set changes only the set |
| ProgramRecordForm.RecordForm.ChooseGoal | src/components/forms/program-record-form.tsx:152 | choosing a goal changes only the goal |
| ProgramRecordForm.RecordForm.SyncGoals | src/components/forms/program-record-form.tsx:79-91 | the effect offers the chosen set's goals and keeps the goal only if offered, leaving the chosen goal empty or offered |
| RecordActions.InputList | src/server/actions/record.ts:17-20 | one `{name, value}` per own key, in key order, with the key's value |
| RecordActions.InputListIsInputs | src/server/actions/record.ts:17-20 | the list names every input once, with its value, and nothing else |
| RecordActions.CreateBody | src/server/actions/record.ts:14-21 | the POST body built from the form values; `CreateBodyCarries` states what it carries |
| RecordActions.CreateBodyCarries | src/server/actions/record.ts:14-21 | the create body carries the program, the form's goal and every input; no set |
| RecordActions.UpdateBody | src/server/actions/record.ts:48-55 | the PATCH body built from the form values; `UpdateBodyCarries` states what it carries |
| RecordActions.UpdateBodyCarries | src/server/actions/record.ts:48-55 | the update body carries the record id, the program and every input; no goal, no set |
| RecordActions.CreateRecordResult | src/server/actions/record.ts:32-39 | succeeds iff the response is ok and its body parses, returning the body; a non-ok response with a parsed body fails with "Erro ao registrar: " followed by the body's text, and an unparsable body fails with the parse error |
| RecordActions.UpdateRecordResultAsWritten | src/server/actions/record.ts:66-70 | `updateRecord` after the request, reading the body twice; `UpdateRecordAlwaysThrows` states that it never succeeds |
| RecordActions.UpdateRecordAlwaysThrows | src/server/actions/record.ts:66-70 | as written, `updateRecord` throws on every response, an ok one included |
| RecordActions.UpdateRecordResult | src/server/actions/record.ts:66-70 | read once, it succeeds iff the response is ok and its body parses |
| RecordSchema.InputValueIssues | src/schemas/record.ts:3 | a number is accepted iff it is at least 0; any string is accepted |
| RecordSchema.InputsIssues | src/schemas/record.ts:7 | no issue iff every value present is accepted |
| RecordSchema.RecordIssues | src/schemas/record.ts:4-8 | the issues of `RecordSchema`; `RecordSchemaAccepts` states when there are none |
| RecordSchema.RecordSchemaAccepts | src/schemas/record.ts:4-8 | accepted iff set and goal are non-empty and every input value is accepted, under any key |
| ProgramActions.SortNewestFirst | src/server/actions/programs.ts:32-36 | the array ends up non-increasing by update time and a permutation of what it was |
| ProgramActions.InsertAt | src/server/actions/programs.ts:32-36 | one insertion step extends the sorted prefix by one, as a permutation |
| ProgramActions.SliceEnd | src/server/actions/programs.ts:37 | `slice(0, limit)` keeps min(limit, n) for a non-negative limit and n + limit (at least 0) for a negative one |
| ProgramActions.GetPrograms | src/server/actions/programs.ts:8-41 | null without a token, a patient or an ok response; the fetched list unchanged without a limit; otherwise the newest programs, sliced, newest first, none left out newer than one kept |
| ProgramActions.KeptAreNewest | src/server/actions/programs.ts:31-37 | a prefix of a newest-first list is newest first, and nothing dropped is newer than anything kept |
| ProgramActions.ProgramIssues | src/server/actions/programs.ts:43-62 | the issues of `programSchema`; `ProgramSchemaAccepts` states when there are none |
| ProgramActions.ProgramSchemaAccepts | src/server/actions/programs.ts:43-62 | accepted iff name and patient are non-empty, there is at least one input of type number/text/email/date with a name, and at least one set with a name, a status and named goals |
| ProgramActions.CreateProgramBody | src/server/actions/programs.ts:66-69 | fails iff the schema refuses; the body is the payload without the token |
| ProgramActions.UpdateProgramBody | src/server/actions/programs.ts:90-94 | fails iff the schema refuses; the body is the payload with the id and without the token |
| ProgramActions.WithoutToken | src/server/actions/programs.ts:69 | the payload without `accessToken`; `BodyDropsOnlyToken` states that every other field is kept |
| ProgramActions.BodyDropsOnlyToken | src/server/actions/programs.ts:66-94 | every field but the token reaches the body |
| ProgramActions.SaveProgramResult | src/server/actions/programs.ts:81-87 | succeeds iff the response is ok and its body parses |
| ProgramForm.FormIssues | src/components/forms/program-form.tsx:24-44 | the issues of `FormSchema`; `FormSchemaAccepts` states when there are none |
| ProgramForm.FormSchemaAccepts | src/components/forms/program-form.tsx:24-44 | accepted iff named, with at least one named input of type number or text, and at least one set with a name, a status and at least one named goal |
| ProgramForm.Payload | src/components/forms/program-form.tsx:284 | the form values with the patient and the token added; `Submit` and `FormSchemaImpliesProgramSchema` state what reaches the action |
| ProgramForm.Submit | src/components/forms/program-form.tsx:283-292 | update iff the values carry an id; the payload always adds the patient and the token |
| ProgramForm.FormSchemaImpliesProgramSchema | src/components/forms/program-form.tsx:283-292 | what the form accepts, the action's schema accepts, given a patient |
| ProgramForm.StatusIdFor | src/components/forms/program-form.tsx:277-278 | the id of the first status with the name, or "" |
| ProgramForm.SetOf | src/components/forms/program-form.tsx:275-279 | an edited set keeps its id, name and goals, with its status name mapped to an id |
| ProgramForm.EditReset | src/components/forms/program-form.tsx:273-281 | resets only with a program and loaded statuses, mapping every set and emptying the inputs |
| ProgramForm.EditResetNeedsInputs | src/components/forms/program-form.tsx:280 | the reset values fail the form schema until an input is added |
| ProgramForm.StatusesAfterAdd | src/components/forms/program-form.tsx:65-78 | a blank name or a failed request leaves the list; a created status goes last |
| ProgramForm.StatusesAfterRemove | src/components/forms/program-form.tsx:80-88 | only a resolved deletion removes the id |
| ProgramForm.RemoveKeepsOthers | src/components/forms/program-form.tsx:84 | a removal keeps the others in order and with their multiplicity, and drops the id |
| ProgramForm.StatusDialog.constructor | src/components/forms/program-form.tsx:63 | the dialog starts with the given list and an empty name |
| ProgramForm.StatusDialog.SetNewName | src/components/forms/program-form.tsx:115 | typing changes only the name |
| ProgramForm.StatusDialog.Add | src/components/forms/program-form.tsx:65-78 | sends iff the name is not blank; the list becomes `StatusesAfterAdd`; the name is cleared after a success |
| ProgramForm.StatusDialog.Remove | src/components/forms/program-form.tsx:80-88 | the list becomes `StatusesAfterRemove`; the name is untouched |
| StatusLists.WithoutId | src/components/status-dialog.tsx:56 | `statuses.filter(s => s.id !== id)`; `WithoutIdSpec` states what it keeps and drops |
| StatusLists.WithoutIdSpec | src/components/status-dialog.tsx:56 | filtering by id is an order-preserving subsequence that drops that id and keeps every other status as often as before |
| StandaloneStatusDialog.AfterCreate | src/components/status-dialog.tsx:33-48 | the list after `createStatus` as written; `FailedCreateAppends` and `CheckedAgreesWhenOk` state it, and `StatusDialog.CreateStatus` is proved against it |
| StandaloneStatusDialog.AfterRemove | src/components/status-dialog.tsx:50-57 | the list after `removeStatus` as written; `FailedRemoveDrops` and `CheckedAgreesWhenOk` state it, and `StatusDialog.RemoveStatus` is proved against it |
| StandaloneStatusDialog.FailedCreateAppends | src/components/status-dialog.tsx:45-46 | a failed creation still appends its body |
| StandaloneStatusDialog.FailedRemoveDrops | src/components/status-dialog.tsx:52-56 | a failed deletion still drops the status |
| StandaloneStatusDialog.CreateStatusChecked | src/components/status-dialog.tsx:33-48 | checking `res.ok`: a failure, a blank name or an unparsable body leaves the list; an ok response appends |
| StandaloneStatusDialog.RemoveStatusChecked | src/components/status-dialog.tsx:50-57 | checking `res.ok`: only a completed ok deletion removes the id |
| StandaloneStatusDialog.CheckedAgreesWhenOk | src/components/status-dialog.tsx:33-57 | on ok responses the checked operations agree with the dialog, and removal drops exactly that id |
| StandaloneStatusDialog.StatusDialog.constructor | src/components/status-dialog.tsx:31 | the dialog starts with the given list and an empty name |
| StandaloneStatusDialog.StatusDialog.SetNewName | src/components/status-dialog.tsx:87 | typing changes only the name |
| StandaloneStatusDialog.StatusDialog.CreateStatus | src/components/status-dialog.tsx:33-48 | sends iff the name is not blank; appends whatever parsed, ok or not; clears the name after a parsed body |
| StandaloneStatusDialog.StatusDialog.RemoveStatus | src/components/status-dialog.tsx:50-57 | once the request completes, whatever its status, the id is filtered out; the name is untouched |
| PatientSchema.BirthDateIssues | src/schemas/patient.ts:8-10 | accepted iff `Date.parse` reads it |
| PatientSchema.ImageIssues | src/schemas/patient.ts:11-24 | the issues of the image refinements; `ImageAccepts` states when there are none |
| PatientSchema.ImageAccepts | src/schemas/patient.ts:11-24 | accepted iff any file's type contains "image" and its size is at most 2097152 bytes, and the preview has a non-whitespace character |
| PatientSchema.PatientIssues | src/schemas/patient.ts:5-26 | the issues of `patientSchema`; `PatientSchemaAccepts` states when there are none |
| PatientSchema.PatientSchemaAccepts | src/schemas/patient.ts:5-26 | accepted iff name and sex are non-empty, the date parses and the image is acceptable; the organization is free |
| PatientSchema.CreatePatientIssues | src/schemas/patient.ts:28-36 | the issues of `createPatientSchema`; `CreatePatientSchemaAccepts` states when there are none |
| PatientSchema.CreatePatientSchemaAccepts | src/schemas/patient.ts:28-36 | accepted iff name and sex are non-empty and the date parses; the image never causes an issue |
| PatientSchema.PatientSchemaImpliesCreate | src/schemas/patient.ts:5-36 | what the edit schema accepts, the create schema accepts |
| ContactForm.ContactIssues | src/components/forms/contact-form.tsx:30-45 | the issues of `ContactSchema`; `ContactSchemaAccepts` states when there are none |
| ContactForm.ContactSchemaAccepts | src/components/forms/contact-form.tsx:30-45 | accepted iff named, CPF of 11 to 14 characters, one of the five relationships, a valid e-mail, a main phone of 8 or more characters and a patient id of exactly 26 |
| ContactForm.OptionalFieldsFree | src/components/forms/contact-form.tsx:31-43 | the id and the second phone never cause an issue |
| ContactForm.Submit | src/components/forms/contact-form.tsx:61-66 | update (with the id) iff the values carry a non-empty id, otherwise create; both send the values and the token |
| PatientTypes.SexLabel | src/components/patients.tsx:60 | "Masculino" iff the sex is exactly "male", otherwise "Feminino" (the card's line 82 is the same) |
| PatientList.QueryOf | src/components/patients/index.tsx:23 | the query parameter, or "" when absent |
| PatientList.FilteredPatients | src/components/patients/index.tsx:26-41 | `filteredPatients`: the name filter, then the tab filter; `FilteredPatientsSpec` states what it keeps |
| PatientList.FilteredPatientsSpec | src/components/patients/index.tsx:26-41 | null iff the patients are; otherwise an order-preserving subsequence holding exactly the patients whose folded name contains the folded query and whose tab takes them |
| PatientList.TodosKeepsNameMatches | src/components/patients/index.tsx:32 | the "todos" tab keeps exactly the name matches |
| PatientList.NoQueryKeepsAll | src/components/patients/index.tsx:23-32 | no query on "todos" lists every patient |
| PatientList.SexTabsDisjoint | src/components/patients/index.tsx:34-37 | a patient without a sex is in neither sex tab, and no patient is in both |
| PatientSearch.Needle | src/components/patients.tsx:30 | a null query looks for "", otherwise the folded query |
| PatientSearch.FilteredPatients | src/components/patients.tsx:29-31 | the patients whose folded name contains the needle; `FilteredPatientsSpec` states what it keeps |
| PatientSearch.FilteredPatientsSpec | src/components/patients.tsx:29-31 | undefined iff the patients are; otherwise an order-preserving subsequence holding exactly the patients whose folded name contains the needle |
| PatientSearch.NoQueryKeepsAll | src/components/patients.tsx:27-31 | a null query keeps every patient |
| PatientSearch.AgreesWithTodosTab | src/components/patients.tsx:29-31 | the picker lists what the organization list shows on "todos" |
| PatientCard.CalculateAge | src/components/patients/components/patient-card.tsx:31-45 | the age is the number of anniversaries reached: the last one is on or before today and the next is after it |
| PatientCard.AgeIsCompletedYears | src/components/patients/components/patient-card.tsx:34-42 | no other count has that property |
| PatientCard.AgeOnAnniversary | src/components/patients/components/patient-card.tsx:37-39 | on the n-th anniversary the age is n, on the day before in the same month n - 1 |
| PatientCard.BornTodayIsZero | src/components/patients/components/patient-card.tsx:31-45 | born today means age 0 |
| PatientCard.AgeMonotone | src/components/patients/components/patient-card.tsx:31-45 | a later day never gives a smaller age |
| PatientCard.ShortId | src/components/patients/components/patient-card.tsx:136 | at most the first 8 characters, then "..." |
| PatientCard.LocalDateOfUtcMidnight | src/components/patients/components/patient-card.tsx:33 | UTC midnight read west of Greenwich is the previous day, otherwise the same day |
| PatientCard.CalculateAgeAsWritten | src/components/patients/components/patient-card.tsx:31-45 | `calculateAge` reading a UTC-midnight birth date with local getters; `AgeCountedEarlyWestOfUtc` and `AsWrittenAgreesEastOfUtc` compare it with `CalculateAge` |
| PatientCard.AgeCountedEarlyWestOfUtc | src/components/patients/components/patient-card.tsx:33-42 | as written, west of UTC the day before a birthday already shows the new age |
| PatientCard.AsWrittenAgreesEastOfUtc | src/components/patients/components/patient-card.tsx:33-42 | east of UTC, and at UTC, the shown age is right |
| PatientCard.AgeCountedEarlyExample | src/components/patients/components/patient-card.tsx:31-45 | born 10 May 2000, on 9 May 2025 at UTC-3 the card shows 25 for a true age of 24 |
| FileToBase64.Extension | src/utils/file-to-base-64.ts:6 | never empty and never contains "." |
| FileToBase64.ExtensionSpec | src/utils/file-to-base-64.ts:6 | a dot-free name is its own extension; an empty name or one ending in "." gives "jpg"; otherwise the extension is the text after the last "." |
| FileToBase64.ExtensionAfterLastDot | src/utils/file-to-base-64.ts:6 | the non-empty dot-free tail after a dot is the extension, whatever precedes it |

## Left out

- Network I/O: every `fetch`, `revalidatePath`, cookie and session handling.
  Responses enter as parameters (`ok`, the parsed body, whether the request
  completed).
- Rendering, routing, toasts, transitions, and the column and navigation
  components.
- Date parsing and formatting:
  - `new Date(created_at)` is taken as already parsed into a valid UTC
    instant;
  - `Date.parse` is a predicate parameter;
  - `getTime` of `updated_at` is a function parameter;
  - date-fns formatting and `toLocaleDateString` are not modelled.
- ProgramActions.SortNewestFirst: sort stability is not stated, so programs
  with equal update times may end in any order. A `NaN` time (an unparsable
  `updated_at`) is not modelled: times are integers.
- ChartOutput.RowBefore: `localeCompare` is taken as character-code order.
  The two agree on day keys of one shape (years 0 to 9999, where digits
  only meet digits), which is all the comparator ever sees for such years.
  Locale collation differs on other text, for instance on "-" against "+"
  (the sign of a six-digit year) or on letter case.
- Numbers are exact reals. Floating-point rounding, `NaN` and infinities in
  sums and hues are not modelled, and neither is the `hsl(...)` colour text.
- String lengths in the schemas count characters, not UTF-16 code units.
- `toLowerCase` is an abstract case fold, and zod's `.email()` an abstract
  predicate.
- `Buffer` base64 encoding and reading the `File` are not modelled; only the
  extension is.
- The `listProgramSetStatus` effect, `deleteRecord`, and the contact and
  patient server actions are network calls: they are left out.
- The issues are a simplified zod result: the paths and codes of the checks,
  not zod's messages. Only acceptance, and where an issue is reported, are
  stated.
- The `tabValue` fallback in the organization's patient list
  (`return true` for an unknown tab) cannot happen, since the tab type has
  three values. It is not modelled.

## Findings

| source | as written | input that shows it | evidently intended | confidence | as-written member | corrected member |
|---|---|---|---|---|---|---|
| src/components/dynamic-stacked-bar-chart.tsx:46-55 | the day is stored under key `data` in the same object as the input sums | a record with an input named "data" of value 3 on day "2024-01-01" makes the row's date "2024-01-013" | the row's date is its bucket whatever the inputs are named | not executed; high | ChartAsWritten.GroupDataInputRewritesDay | ChartProperties.ChartContents |
| src/components/dynamic-stacked-bar-chart.tsx:53-55 | the fallback of `row[name]` to 0 reads inherited members of `Object.prototype` | an input named "toString" of value 1 stores the text of the function followed by "1" instead of 1 | every field holds the sum of its numeric values | not executed; high | ChartAsWritten.InheritedInputStoresText | ChartProperties.ChartContents |
| src/components/dynamic-stacked-bar-chart.tsx:53-55 | assigning `row["__proto__"]` does not create a field | an input named "__proto__" never appears in its row | the field is stored like any other | not executed; high | ChartAsWritten.ProtoInputIsLost | ChartProperties.ChartContents |
| src/components/dynamic-stacked-bar-chart.tsx:39-45 | `!agrupado[meta]` is false for inherited members, so no group is made and the next access throws | a record whose goal is named "constructor" makes the chart throw a `TypeError` | one chart per goal, whatever its name | not executed; high | ChartAsWritten.GroupAsWrittenThrows | ChartProperties.ChartGoals |
| src/server/actions/record.ts:66-70 | the body is read by `res.json()` for the log line and then read again | any response: the second read throws "Body is unusable", so a successful update reports an error | an ok response returns the parsed body | not executed; high | RecordActions.UpdateRecordAlwaysThrows | RecordActions.UpdateRecordResult |
| src/components/status-dialog.tsx:45-46 | the parsed body is appended without checking `res.ok` | a 4xx answer `{"message": "..."}` is appended to the list as a status | only a created status is appended | not executed; high | StandaloneStatusDialog.FailedCreateAppends | StandaloneStatusDialog.CreateStatusChecked |
| src/components/status-dialog.tsx:52-56 | the status is filtered out without checking the response | a DELETE answered 500 still removes the status from the list | only a successful deletion removes it | not executed; high | StandaloneStatusDialog.FailedRemoveDrops | StandaloneStatusDialog.RemoveStatusChecked |
| src/components/patients/components/patient-card.tsx:33-42 | a `YYYY-MM-DD` birth date is parsed as UTC midnight and read with local getters | born "2000-05-10", on 9 May 2025 in a browser at UTC-3, the card shows 25 | the age in whole years, 24 | not executed; medium (assumes the date-only text that `src/server/actions/patient.ts:69` sends is what the backend returns) | PatientCard.AgeCountedEarlyWestOfUtc | PatientCard.CalculateAge |
