/** `RecordSchema`, the validation of a record form: a chosen set, a chosen
    goal, and a value under each input name that is a non-negative number or
    any string. */
module RecordSchema {
  import opened JsValues
  import opened JsObjects
  import opened Validation

  /** The values the record form submits. */
  datatype RecordValues = RecordValues(setId: string, goalId: string, inputs: Dict<Value>)

  /** `InputValueSchema`: a number must not be negative; any string passes. */
  predicate ValueAccepted(v: Value)
  {
    v.Num? ==> v.n >= 0.0
  }

  function InputValueIssues(v: Value): (r: seq<Issue>)
    ensures r == [] <==> ValueAccepted(v)
  {
    match v
      case Num(n) => Check(n >= 0.0, InvalidUnion)
      case Text(_) => []
  }

  /** `z.record(InputValueSchema)`: each value's issues under its name. */
  function InputsIssues(keys: seq<string>, inputs: map<string, Value>): (r: seq<Issue>)
    ensures r == [] <==> forall i :: 0 <= i < |keys| && keys[i] in inputs ==> ValueAccepted(inputs[keys[i]])
  {
    if keys == [] then []
    else
      var init, k := keys[..|keys| - 1], keys[|keys| - 1];
      assert forall i :: 0 <= i < |init| ==> keys[i] == init[i];
      InputsIssues(init, inputs) + (if k in inputs then At(Field(k), InputValueIssues(inputs[k])) else [])
  }

  /** Every issue of the record form. */
  function RecordIssues(values: RecordValues): seq<Issue>
  {
    At(Field("setId"), MinLength(values.setId, 1))
      + At(Field("goalId"), MinLength(values.goalId, 1))
      + At(Field("inputs"), InputsIssues(values.inputs.keys, values.inputs.props))
  }

  /** The schema accepts the values exactly when the set and the goal are
      chosen (non-empty) and no input holds a negative number; names and
      strings, the empty string included, are not restricted. */
  lemma RecordSchemaAccepts(values: RecordValues)
    ensures RecordIssues(values) == [] <==>
      && values.setId != ""
      && values.goalId != ""
      && forall k :: k in values.inputs.props ==> ValueAccepted(values.inputs.props[k])
  {
    var o := values.inputs;
    assert (forall i :: 0 <= i < |o.keys| && o.keys[i] in o.props ==> ValueAccepted(o.props[o.keys[i]]))
       <==> (forall k :: k in o.props ==> ValueAccepted(o.props[k])) by {
      assert forall k :: k in o.props ==> exists i :: 0 <= i < |o.keys| && o.keys[i] == k;
    }
  }
}
