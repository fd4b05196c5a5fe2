/** The server actions that save a record (`createRecord`, `updateRecord`):
    the request body each builds from the form values, and what each returns
    or throws for the backend's response. Sending the request is not
    modelled: the response's status and body are inputs. */
module RecordActions {
  import opened JsValues
  import opened JsArrays
  import opened JsObjects
  import opened RecordSchema

  /** One element of the body's `inputs` list. */
  datatype NameValue = NameValue(name: string, value: Value)

  /** The `POST` body: program, goal and inputs; the chosen set is not sent. */
  datatype CreateRecordBody = CreateRecordBody(programId: string, goalId: string, inputs: seq<NameValue>)

  /** The `PATCH` body: record, program and inputs; neither goal nor set is sent. */
  datatype UpdateRecordBody = UpdateRecordBody(id: string, programId: string, inputs: seq<NameValue>)

  /** `Object.entries(inputs).map(([name, value]) => ({ name, value }))`. */
  function InputList(inputs: Dict<Value>): (r: seq<NameValue>)
    ensures |r| == |Keys(inputs)|
    ensures forall i :: 0 <= i < |r| ==> r[i].name == Keys(inputs)[i] && r[i].name in inputs.props && r[i].value == inputs.props[r[i].name]
  {
    var es := Entries(inputs);
    seq(|es|, i requires 0 <= i < |es| => NameValue(es[i].0, es[i].1))
  }

  function CreateBody(programId: string, data: RecordValues): CreateRecordBody
  {
    CreateRecordBody(programId, data.goalId, InputList(data.inputs))
  }

  function UpdateBody(recordId: string, programId: string, data: RecordValues): UpdateRecordBody
  {
    UpdateRecordBody(recordId, programId, InputList(data.inputs))
  }

  /** The body's list names every input exactly once, with its value, and
      names nothing else. */
  lemma InputListIsInputs(inputs: Dict<Value>)
    ensures var r := InputList(inputs);
      && (forall i, j :: 0 <= i < j < |r| ==> r[i].name != r[j].name)
      && (forall k :: k in inputs.props ==> exists i :: 0 <= i < |r| && r[i] == NameValue(k, inputs.props[k]))
      && (forall i :: 0 <= i < |r| ==> r[i].name in inputs.props)
  {
    KeysOfValid(inputs);
    var r := InputList(inputs);
    forall k | k in inputs.props
      ensures exists i :: 0 <= i < |r| && r[i] == NameValue(k, inputs.props[k])
    {
      var i :| 0 <= i < |Keys(inputs)| && Keys(inputs)[i] == k;
      assert r[i] == NameValue(k, inputs.props[k]);
    }
  }

  /** The create body carries the program, the form's goal and its inputs. */
  lemma CreateBodyCarries(programId: string, data: RecordValues)
    ensures var b := CreateBody(programId, data);
      && b.programId == programId && b.goalId == data.goalId
      && |b.inputs| == |Keys(data.inputs)|
      && forall k :: k in data.inputs.props ==> exists i :: 0 <= i < |b.inputs| && b.inputs[i] == NameValue(k, data.inputs.props[k])
  {
    InputListIsInputs(data.inputs);
  }

  /** The update body carries the record, the program and the inputs. */
  lemma UpdateBodyCarries(recordId: string, programId: string, data: RecordValues)
    ensures var b := UpdateBody(recordId, programId, data);
      && b.id == recordId && b.programId == programId
      && |b.inputs| == |Keys(data.inputs)|
      && forall k :: k in data.inputs.props ==> exists i :: 0 <= i < |b.inputs| && b.inputs[i] == NameValue(k, data.inputs.props[k])
  {
    InputListIsInputs(data.inputs);
  }

  // ---------------------------------------------------------------------------
  // Responses

  /** A fetch response: whether its status is 2xx, what parsing its body as
      JSON gives (a thrown `SyntaxError` for a body that is not JSON), and
      whether the body has been read; a body can be read once. */
  datatype Response<J> = Response(ok: bool, body: Result<J>, bodyUsed: bool)

  /** The response `fetch` resolves to. */
  function Fetched<J>(ok: bool, body: Result<J>): (res: Response<J>)
    ensures !res.bodyUsed
  {
    Response(ok, body, false)
  }

  /** `await res.json()`, and the response afterwards. */
  function ReadJson<J>(res: Response<J>): (Result<J>, Response<J>)
  {
    if res.bodyUsed then (Failure("TypeError: Body is unusable"), res)
    else (res.body, res.(bodyUsed := true))
  }

  /** `createRecord` after the request: a non-ok status throws (after reading
      the error body) with the body's text appended to the message, an ok
      one returns the parsed body. `show` is the string conversion of the
      template literal. */
  function CreateRecordResult<J>(ok: bool, body: Result<J>, show: J -> string): (r: Result<J>)
    ensures r.Success? <==> ok && body.Success?
    ensures r.Success? ==> r.value == body.value
    ensures !ok && body.Success? ==> r == Failure("Erro ao registrar: " + show(body.value))
    ensures body.Failure? ==> r == body
  {
    var (json, _) := ReadJson(Fetched(ok, body));
    if !ok then
      (if json.Failure? then json else Failure("Erro ao registrar: " + show(json.value)))
    else json
  }

  /** `updateRecord` after the request, as written: the body is read once
      for the log line and then again for the return value. */
  function UpdateRecordResultAsWritten<J>(ok: bool, body: Result<J>): Result<J>
  {
    var (logged, res) := ReadJson(Fetched(ok, body));
    if logged.Failure? then logged
    else if !ok then Failure("Erro ao atualizar registro")
    else ReadJson(res).0
  }

  /** The second read always fails, so `updateRecord` never returns: even a
      successful update reaches the form as an error. */
  lemma UpdateRecordAlwaysThrows<J>(ok: bool, body: Result<J>)
    ensures UpdateRecordResultAsWritten(ok, body).Failure?
    ensures ok && body.Success? ==> UpdateRecordResultAsWritten(ok, body) == Failure("TypeError: Body is unusable")
  {
  }

  /** `updateRecord` reading the body once: a non-ok status throws, an ok
      one returns the parsed body. */
  function UpdateRecordResult<J>(ok: bool, body: Result<J>): (r: Result<J>)
    ensures r.Success? <==> ok && body.Success?
    ensures r.Success? ==> r.value == body.value
  {
    var (json, _) := ReadJson(Fetched(ok, body));
    if json.Failure? then json
    else if !ok then Failure("Erro ao atualizar registro")
    else json
  }
}
