/** The program form (`ProgramForm`): its schema, the status dialog it opens
    to add and remove set statuses, the values it is reset to when a program
    is edited, and what submitting sends. */
module ProgramForm {
  import opened JsValues
  import opened JsArrays
  import opened JsStrings
  import opened ProgramTypes
  import opened Validation
  import opened ProgramActions
  import opened StatusLists

  // ---------------------------------------------------------------------------
  // FormSchema

  /** The values the form holds. */
  datatype FormValues = FormValues(id: Option<string>, name: string, inputs: seq<InputFields>, sets: seq<SetFields>)

  const FORM_INPUT_TYPES: seq<string> := ["number", "text"]

  /** `InputSchema`. */
  function FormInputIssues(i: InputFields): seq<Issue>
  {
    At(Field("name"), MinLength(i.name, 1)) + At(Field("type"), OneOf(i.inputType, FORM_INPUT_TYPES))
  }

  /** `GoalSchema`. */
  function FormGoalIssues(g: GoalFields): seq<Issue>
  {
    At(Field("name"), MinLength(g.name, 1))
  }

  /** `SetSchema`. */
  function FormSetIssues(s: SetFields): seq<Issue>
  {
    At(Field("name"), MinLength(s.name, 1))
      + At(Field("program_set_status_id"), MinLength(s.statusId, 1))
      + At(Field("goals"), MinItems(s.goals, 1) + Each(s.goals, FormGoalIssues))
  }

  /** `FormSchema`. */
  function FormIssues(v: FormValues): seq<Issue>
  {
    At(Field("name"), MinLength(v.name, 1))
      + At(Field("inputs"), MinItems(v.inputs, 1) + Each(v.inputs, FormInputIssues))
      + At(Field("sets"), MinItems(v.sets, 1) + Each(v.sets, FormSetIssues))
  }

  /** The form passes exactly when the program is named, has at least one
      input, every input named and of type number or text, and at least one
      set that passes. */
  lemma FormSchemaAccepts(v: FormValues)
    ensures FormIssues(v) == [] <==>
      && v.name != ""
      && |v.inputs| >= 1 && |v.sets| >= 1
      && (forall i :: 0 <= i < |v.inputs| ==> v.inputs[i].name != "" && v.inputs[i].inputType in FORM_INPUT_TYPES)
      && (forall i :: 0 <= i < |v.sets| ==> SetValid(v.sets[i]))
  {
    FormIssuesParts(v);
    forall i: InputFields
      ensures FormInputIssues(i) == [] <==> i.name != "" && i.inputType in FORM_INPUT_TYPES
    {
    }
    forall s: SetFields
      ensures FormSetIssues(s) == [] <==> SetValid(s)
    {
      FormSetAccepts(s);
    }
  }

  lemma FormIssuesParts(v: FormValues)
    ensures FormIssues(v) == [] <==>
      && MinLength(v.name, 1) == []
      && MinItems(v.inputs, 1) == [] && Each(v.inputs, FormInputIssues) == []
      && MinItems(v.sets, 1) == [] && Each(v.sets, FormSetIssues) == []
  {
    var a := At(Field("name"), MinLength(v.name, 1));
    var b := At(Field("inputs"), MinItems(v.inputs, 1) + Each(v.inputs, FormInputIssues));
    var c := At(Field("sets"), MinItems(v.sets, 1) + Each(v.sets, FormSetIssues));
    assert |FormIssues(v)| == |a| + |b| + |c|;
  }

  lemma FormSetAccepts(s: SetFields)
    ensures FormSetIssues(s) == [] <==> SetValid(s)
  {
    var a := At(Field("name"), MinLength(s.name, 1));
    var b := At(Field("program_set_status_id"), MinLength(s.statusId, 1));
    var c := At(Field("goals"), MinItems(s.goals, 1) + Each(s.goals, FormGoalIssues));
    assert |FormSetIssues(s)| == |a| + |b| + |c|;
    forall g: GoalFields
      ensures FormGoalIssues(g) == [] <==> g.name != ""
    {
    }
    assert Each(s.goals, FormGoalIssues) == [] <==> forall j :: 0 <= j < |s.goals| ==> s.goals[j].name != "";
  }

  // ---------------------------------------------------------------------------
  // Submitting

  /** The payload: the form values with the patient and the token added. */
  function Payload(values: FormValues, patientId: string, token: string): ProgramPayload
  {
    ProgramPayload(values.id, values.name, patientId, values.inputs, values.sets, Some(token))
  }

  /** Which action submitting calls, and with what. */
  datatype ProgramSubmission = UpdateProgram(id: string, payload: ProgramPayload) | CreateProgram(payload: ProgramPayload)

  /** `onSubmit`: update when the values carry an id, create otherwise; the
      payload always carries the patient and the token. */
  function Submit(values: FormValues, patientId: string, token: string): (r: ProgramSubmission)
    ensures r.UpdateProgram? <==> Truthy(values.id)
    ensures r.UpdateProgram? ==> r.id == values.id.value
    ensures r.payload.patientId == patientId && r.payload.accessToken == Some(token)
    ensures r.payload.name == values.name && r.payload.inputs == values.inputs && r.payload.sets == values.sets
  {
    if Truthy(values.id) then UpdateProgram(values.id.value, Payload(values, patientId, token))
    else CreateProgram(Payload(values, patientId, token))
  }

  /** Whatever the form lets through, the action's `programSchema` lets
      through too, given a patient: the form's two input types are among the
      action's four. */
  lemma FormSchemaImpliesProgramSchema(values: FormValues, patientId: string, token: string)
    requires FormIssues(values) == [] && patientId != ""
    ensures ProgramIssues(Submit(values, patientId, token).payload) == []
  {
    FormSchemaAccepts(values);
    var p := Submit(values, patientId, token).payload;
    ProgramSchemaAccepts(p);
    assert forall t :: t in FORM_INPUT_TYPES ==> t in INPUT_TYPES;
  }

  // ---------------------------------------------------------------------------
  // Editing an existing program

  /** A set status as the dialog lists it. */
  datatype Status = Status(id: string, name: string)

  /** `statuses.find(st => st.name === name)?.id ?? ""`. */
  function StatusIdFor(statuses: seq<Status>, name: string): (r: string)
    ensures (forall i :: 0 <= i < |statuses| ==> statuses[i].name != name) ==> r == ""
    ensures (exists i :: 0 <= i < |statuses| && statuses[i].name == name) ==>
      exists k :: 0 <= k < |statuses| && statuses[k].name == name && r == statuses[k].id
        && forall i :: 0 <= i < k ==> statuses[i].name != name
  {
    match Find(statuses, (st: Status) => st.name == name)
      case None => ""
      case Some(st) => st.id
  }

  function GoalOf(g: Goal): GoalFields
  {
    GoalFields(Some(g.id), g.name)
  }

  /** One of the program's sets with its status name mapped to a status id. */
  function SetOf(s: ProgramSet, statuses: seq<Status>): (r: SetFields)
    ensures r.id == Some(s.id) && r.name == s.name && r.statusId == StatusIdFor(statuses, s.status)
    ensures |r.goals| == |s.goals| && forall j :: 0 <= j < |r.goals| ==> r.goals[j] == GoalOf(s.goals[j])
  {
    SetFields(Some(s.id), s.name, StatusIdFor(statuses, s.status),
      seq(|s.goals|, j requires 0 <= j < |s.goals| => GoalOf(s.goals[j])))
  }

  /** The effect that resets the form for an edited program, once statuses
      are loaded; the reset values carry no inputs. */
  function EditReset(program: Option<Program>, statuses: seq<Status>): (r: Option<FormValues>)
    ensures r.Some? <==> program.Some? && |statuses| > 0
    ensures r.Some? ==> var p, v := program.value, r.value;
      && v.id == Some(p.id) && v.name == p.name && v.inputs == []
      && |v.sets| == |p.sets|
      && forall i :: 0 <= i < |v.sets| ==> v.sets[i] == SetOf(p.sets[i], statuses)
  {
    if program.None? || |statuses| == 0 then None
    else
      var p := program.value;
      Some(FormValues(Some(p.id), p.name, [], seq(|p.sets|, i requires 0 <= i < |p.sets| => SetOf(p.sets[i], statuses))))
  }

  /** The reset values are refused by `FormSchema` until an input is added. */
  lemma EditResetNeedsInputs(program: Option<Program>, statuses: seq<Status>)
    requires EditReset(program, statuses).Some?
    ensures FormIssues(EditReset(program, statuses).value) != []
  {
    FormSchemaAccepts(EditReset(program, statuses).value);
  }

  // ---------------------------------------------------------------------------
  // The status dialog

  function StatusId(s: Status): string
  {
    s.id
  }

  /** The statuses after `add` with the given outcome of
      `createProgramSetStatus`: a blank name sends nothing, a created status
      goes last, a thrown error changes nothing. */
  function StatusesAfterAdd(statuses: seq<Status>, newName: string, created: Result<Status>): (r: seq<Status>)
    ensures IsBlank(newName) || created.Failure? ==> r == statuses
    ensures !IsBlank(newName) && created.Success? ==> r == statuses + [created.value]
  {
    if IsBlank(newName) || created.Failure? then statuses else statuses + [created.value]
  }

  /** The statuses after `remove(id)`: only a resolved `deleteProgramSetStatus`
      removes the status. */
  function StatusesAfterRemove(statuses: seq<Status>, id: string, deleted: bool): (r: seq<Status>)
    ensures !deleted ==> r == statuses
    ensures deleted ==> r == WithoutId(statuses, StatusId, id)
  {
    if deleted then WithoutId(statuses, StatusId, id) else statuses
  }

  /** A removal keeps every other status in its order and drops that id. */
  lemma RemoveKeepsOthers(statuses: seq<Status>, id: string)
    ensures var r := StatusesAfterRemove(statuses, id, true);
      && IsSubsequence(r, statuses)
      && (forall i :: 0 <= i < |r| ==> r[i].id != id)
      && (forall s: Status :: s.id != id ==> multiset(r)[s] == multiset(statuses)[s])
  {
    WithoutIdSpec(statuses, StatusId, id);
  }

  /** `StatusDialog` inside the program form: the status list it edits and
      its "new status" text field. */
  class StatusDialog {
    var statuses: seq<Status>
    var newName: string

    constructor(statuses: seq<Status>)
      ensures this.statuses == statuses && newName == ""
    {
      this.statuses := statuses;
      newName := "";
    }

    /** The text field's `onChange`. */
    method SetNewName(name: string)
      modifies this
      ensures newName == name && statuses == old(statuses)
    {
      newName := name;
    }

    /** `add`, given what `createProgramSetStatus` returns or throws; tells
        whether a request was sent. */
    method Add(created: Result<Status>) returns (requested: bool)
      modifies this
      ensures requested <==> !IsBlank(old(newName))
      ensures statuses == StatusesAfterAdd(old(statuses), old(newName), created)
      ensures newName == if requested && created.Success? then "" else old(newName)
    {
      if IsBlank(newName) {
        return false;
      }
      requested := true;
      if created.Success? {
        statuses := statuses + [created.value];
        newName := "";
      }
    }

    /** `remove(id)`, given whether `deleteProgramSetStatus` resolved. */
    method Remove(id: string, deleted: bool)
      modifies this
      ensures statuses == StatusesAfterRemove(old(statuses), id, deleted)
      ensures newName == old(newName)
    {
      if deleted {
        statuses := WithoutId(statuses, StatusId, id);
      }
    }
  }
}
