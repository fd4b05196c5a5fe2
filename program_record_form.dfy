/** The record form of a program (`ProgramRecordForm`): the initial values it
    derives from the program and, when editing, from the record; the goal
    list that follows the chosen set; and the choice between updating and
    creating on submit. */
module ProgramRecordForm {
  import opened JsValues
  import opened JsArrays
  import opened JsObjects
  import opened ProgramTypes
  import opened RecordSchema
  import opened RecordActions

  /** One saved input of a record. */
  datatype RecordInput = RecordInput(name: string, value: Value)

  /** The record being edited. */
  datatype RecordEntry = RecordEntry(id: string, goalId: string, inputs: seq<RecordInput>)

  // ---------------------------------------------------------------------------
  // Initial values

  /** `parentSetId`: the set that holds the record's goal. */
  function ParentSetId(program: Program, record: Option<RecordEntry>): (r: string)
    ensures record.None? ==> r == ""
    ensures record.Some? && (forall i :: 0 <= i < |program.sets| ==> !HasGoal(program.sets[i], record.value.goalId)) ==> r == ""
    ensures record.Some? && (exists i :: 0 <= i < |program.sets| && HasGoal(program.sets[i], record.value.goalId)) ==>
      exists k :: 0 <= k < |program.sets| && r == program.sets[k].id
        && HasGoal(program.sets[k], record.value.goalId)
        && forall i :: 0 <= i < k ==> !HasGoal(program.sets[i], record.value.goalId)
  {
    match record
      case None => ""
      case Some(rec) =>
        match Find(program.sets, (s: ProgramSet) => HasGoal(s, rec.goalId))
          case None => ""
          case Some(s) => s.id
  }

  /** The value an empty form shows for an input of the given type. */
  function DefaultValue(inputType: string): (v: Value)
    ensures inputType == "number" ==> v == Num(0.0)
    ensures inputType != "number" ==> v == Text("")
  {
    if inputType == "number" then Num(0.0) else Text("")
  }

  /** `program.inputs.map(i => [i.name, default])`. */
  function BaseEntries(inputs: seq<ProgramInput>): (es: seq<(string, Value)>)
    ensures |es| == |inputs|
    ensures forall i :: 0 <= i < |es| ==> es[i] == (inputs[i].name, DefaultValue(inputs[i].inputType))
  {
    seq(|inputs|, i requires 0 <= i < |inputs| => (inputs[i].name, DefaultValue(inputs[i].inputType)))
  }

  /** `baseInputs`: `Object.fromEntries` of the defaults. */
  function BaseInputs(program: Program): Dict<Value>
  {
    PutAll(EmptyObj(), BaseEntries(program.inputs))
  }

  function RecordEntries(inputs: seq<RecordInput>): (es: seq<(string, Value)>)
    ensures |es| == |inputs|
    ensures forall i :: 0 <= i < |es| ==> es[i] == (inputs[i].name, inputs[i].value)
  {
    seq(|inputs|, i requires 0 <= i < |inputs| => (inputs[i].name, inputs[i].value))
  }

  /** `defaultInputs`: the base values, overridden in turn by the record's
      saved inputs (`reduce` spreading the accumulator and setting one name). */
  function DefaultInputs(program: Program, record: Option<RecordEntry>): Dict<Value>
  {
    match record
      case None => BaseInputs(program)
      case Some(rec) => PutAll(BaseInputs(program), RecordEntries(rec.inputs))
  }

  /** One key per program input name; a number input defaults to 0 and any
      other to the empty string, and of two inputs with one name the later
      decides. */
  lemma BaseInputsSpec(program: Program)
    ensures var base, ins := BaseInputs(program), program.inputs;
      && (forall k :: k in base.props <==> exists i :: 0 <= i < |ins| && ins[i].name == k)
      && (forall i :: 0 <= i < |ins| && (forall j :: i < j < |ins| ==> ins[j].name != ins[i].name)
            ==> base.props[ins[i].name] == DefaultValue(ins[i].inputType))
  {
    var ins := program.inputs;
    var es := BaseEntries(ins);
    var base := BaseInputs(program);
    forall k
      ensures k in base.props <==> exists i :: 0 <= i < |ins| && ins[i].name == k
    {
      PutAllKeys(EmptyObj(), es);
      if exists i :: 0 <= i < |ins| && ins[i].name == k {
        var i :| 0 <= i < |ins| && ins[i].name == k;
        assert es[i].0 == k;
      }
    }
    forall i | 0 <= i < |ins| && (forall j :: i < j < |ins| ==> ins[j].name != ins[i].name)
      ensures base.props[ins[i].name] == DefaultValue(ins[i].inputType)
    {
      PutAllLastValue(EmptyObj(), es);
      assert forall j :: i < j < |es| ==> es[j].0 != es[i].0;
    }
  }

  /** Without a record the form starts from the defaults. With one, a saved
      value replaces the default of its name (the last saved value of a name
      wins), a name the record does not mention keeps its default, and a
      saved name the program no longer has is kept too. */
  lemma DefaultInputsSpec(program: Program, record: Option<RecordEntry>)
    ensures record.None? ==> DefaultInputs(program, record) == BaseInputs(program)
    ensures record.Some? ==> var d, base, ins := DefaultInputs(program, record), BaseInputs(program), record.value.inputs;
      && (forall k :: k in d.props <==> k in base.props || exists i :: 0 <= i < |ins| && ins[i].name == k)
      && (forall i :: 0 <= i < |ins| && (forall j :: i < j < |ins| ==> ins[j].name != ins[i].name)
            ==> d.props[ins[i].name] == ins[i].value)
      && (forall k :: k in base.props && (forall i :: 0 <= i < |ins| ==> ins[i].name != k) ==> d.props[k] == base.props[k])
  {
    if record.Some? {
      var ins := record.value.inputs;
      assert DefaultInputs(program, record) == PutAll(BaseInputs(program), RecordEntries(ins));
      SavedKeys(BaseInputs(program), ins);
      SavedValues(BaseInputs(program), ins);
      UnsavedValues(BaseInputs(program), ins);
    }
  }

  lemma SavedKeys(base: Obj<Value>, ins: seq<RecordInput>)
    ensures forall k :: k in PutAll(base, RecordEntries(ins)).props <==> k in base.props || exists i :: 0 <= i < |ins| && ins[i].name == k
  {
    var es := RecordEntries(ins);
    PutAllKeys(base, es);
    forall k
      ensures Assigns(es, k) <==> exists i :: 0 <= i < |ins| && ins[i].name == k
    {
      if exists i :: 0 <= i < |ins| && ins[i].name == k {
        var i :| 0 <= i < |ins| && ins[i].name == k;
        assert es[i].0 == k;
      }
    }
  }

  lemma SavedValues(base: Obj<Value>, ins: seq<RecordInput>)
    ensures forall i :: 0 <= i < |ins| && (forall j :: i < j < |ins| ==> ins[j].name != ins[i].name)
               ==> ins[i].name in PutAll(base, RecordEntries(ins)).props && PutAll(base, RecordEntries(ins)).props[ins[i].name] == ins[i].value
  {
    var es := RecordEntries(ins);
    PutAllLastValue(base, es);
    forall i | 0 <= i < |ins| && (forall j :: i < j < |ins| ==> ins[j].name != ins[i].name)
      ensures forall j :: i < j < |es| ==> es[j].0 != es[i].0
    {
    }
  }

  lemma UnsavedValues(base: Obj<Value>, ins: seq<RecordInput>)
    ensures forall k :: k in base.props && (forall i :: 0 <= i < |ins| ==> ins[i].name != k)
               ==> k in PutAll(base, RecordEntries(ins)).props && PutAll(base, RecordEntries(ins)).props[k] == base.props[k]
  {
    var es := RecordEntries(ins);
    PutAllUntouched(base, es);
    forall k | k in base.props && (forall i :: 0 <= i < |ins| ==> ins[i].name != k)
      ensures forall i :: 0 <= i < |es| ==> es[i].0 != k
    {
    }
  }

  // ---------------------------------------------------------------------------
  // The goals of the chosen set

  /** The goals offered for the chosen set: those of the first set with that
      id, or none. */
  function GoalsForSet(sets: seq<ProgramSet>, selectedSet: string): (goals: seq<Goal>)
    ensures (forall i :: 0 <= i < |sets| ==> sets[i].id != selectedSet) ==> goals == []
    ensures (exists i :: 0 <= i < |sets| && sets[i].id == selectedSet) ==>
      exists k :: 0 <= k < |sets| && sets[k].id == selectedSet && goals == sets[k].goals
        && forall i :: 0 <= i < k ==> sets[i].id != selectedSet
  {
    match Find(sets, (s: ProgramSet) => s.id == selectedSet)
      case None => []
      case Some(s) => s.goals
  }

  /** The goal kept after the goal list changes: cleared when it is not one
      of the offered goals, otherwise left alone. */
  function KeptGoalId(goalId: string, goals: seq<Goal>): (r: string)
    ensures goalId != "" && (forall j :: 0 <= j < |goals| ==> goals[j].id != goalId) ==> r == ""
    ensures goalId == "" || (exists j :: 0 <= j < |goals| && goals[j].id == goalId) ==> r == goalId
    ensures r == "" || exists j :: 0 <= j < |goals| && goals[j].id == r
  {
    if goalId != "" && !(exists j :: 0 <= j < |goals| && goals[j].id == goalId) then "" else goalId
  }

  /** What submitting the form sends. */
  datatype RecordRequest = CreateRequest(create: CreateRecordBody) | UpdateRequest(update: UpdateRecordBody)

  /** `onSubmit`: update the record when it has an id, create one otherwise. */
  function SubmitRequest(program: Program, record: Option<RecordEntry>, values: RecordValues): (r: RecordRequest)
    ensures r.UpdateRequest? <==> record.Some? && record.value.id != ""
    ensures r.UpdateRequest? ==> r.update == UpdateBody(record.value.id, program.id, values)
    ensures r.CreateRequest? ==> r.create == CreateBody(program.id, values)
  {
    if record.Some? && record.value.id != "" then UpdateRequest(UpdateBody(record.value.id, program.id, values))
    else CreateRequest(CreateBody(program.id, values))
  }

  /** The state of one record form: the chosen set and goal, the input
      values, and the goals offered for the chosen set. */
  class RecordForm {
    var setId: string
    var goalId: string
    var inputs: Dict<Value>
    var goals: seq<Goal>

    /** The chosen goal is empty or one of the offered goals. */
    predicate GoalOffered()
      reads this
    {
      goalId == "" || exists j :: 0 <= j < |goals| && goals[j].id == goalId
    }

    /** `useForm` with the default values, before the effect has run. */
    constructor(program: Program, record: Option<RecordEntry>)
      ensures setId == ParentSetId(program, record)
      ensures goalId == (if record.Some? then record.value.goalId else "")
      ensures inputs == DefaultInputs(program, record)
      ensures goals == []
    {
      setId := ParentSetId(program, record);
      goalId := if record.Some? then record.value.goalId else "";
      inputs := DefaultInputs(program, record);
      goals := [];
    }

    /** The set select's `onChange`. */
    method ChooseSet(id: string)
      modifies this
      ensures setId == id
      ensures goalId == old(goalId) && inputs == old(inputs) && goals == old(goals)
    {
      setId := id;
    }

    /** The goal select's `onChange`. */
    method ChooseGoal(id: string)
      modifies this
      ensures goalId == id
      ensures setId == old(setId) && inputs == old(inputs) && goals == old(goals)
    {
      goalId := id;
    }

    /** The effect that runs when the chosen set changes: offer the set's
        goals, and clear the goal if it is not one of them. */
    method SyncGoals(program: Program)
      modifies this
      ensures goals == GoalsForSet(program.sets, setId)
      ensures goalId == KeptGoalId(old(goalId), goals)
      ensures setId == old(setId) && inputs == old(inputs)
      ensures GoalOffered()
    {
      goals := GoalsForSet(program.sets, setId);
      goalId := KeptGoalId(goalId, goals);
    }
  }
}
