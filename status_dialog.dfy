/** The stand-alone status dialog (`StatusDialog` of its own file), which
    calls the backend itself. Both its operations update the list whatever
    status the response has: a failed creation appends the error body it
    gets back as if it were a status, and a failed deletion still drops the
    status from the list. `CreateStatusChecked` and `RemoveStatusChecked`
    are the same operations with the status checked first. */
module StandaloneStatusDialog {
  import opened JsValues
  import opened JsStrings
  import opened StatusLists

  /** A set status with its display colour. */
  datatype Status = Status(id: string, name: string, color: string)

  function StatusId(s: Status): string
  {
    s.id
  }

  /** The statuses after `createStatus`, as written, given the response: a
      blank name sends nothing; otherwise whatever `res.json()` yields goes
      last, whether or not the response is ok; a body that is not JSON
      throws and changes nothing. */
  function AfterCreate(statuses: seq<Status>, newName: string, ok: bool, json: Result<Status>): seq<Status>
  {
    if IsBlank(newName) || json.Failure? then statuses else statuses + [json.value]
  }

  /** The statuses after `removeStatus(id)`, as written: once the request
      completes, whatever its status, the status is gone from the list; a
      request that never completes changes nothing. */
  function AfterRemove(statuses: seq<Status>, id: string, completed: bool, ok: bool): seq<Status>
  {
    if completed then WithoutId(statuses, StatusId, id) else statuses
  }

  /** A failed creation still appends its body. */
  lemma FailedCreateAppends(statuses: seq<Status>, newName: string, errorBody: Status)
    requires !IsBlank(newName)
    ensures AfterCreate(statuses, newName, false, Success(errorBody)) == statuses + [errorBody]
    ensures |AfterCreate(statuses, newName, false, Success(errorBody))| == |statuses| + 1
  {
  }

  /** A failed deletion still drops the status. */
  lemma FailedRemoveDrops(statuses: seq<Status>, id: string)
    ensures var r := AfterRemove(statuses, id, true, false);
      forall i :: 0 <= i < |r| ==> r[i].id != id
  {
    WithoutIdSpec(statuses, StatusId, id);
  }

  /** `createStatus` checking the response: only an ok response adds a status. */
  function CreateStatusChecked(statuses: seq<Status>, newName: string, ok: bool, json: Result<Status>): (r: seq<Status>)
    ensures !ok || IsBlank(newName) || json.Failure? ==> r == statuses
    ensures ok ==> r == AfterCreate(statuses, newName, ok, json)
  {
    if !ok then statuses else AfterCreate(statuses, newName, ok, json)
  }

  /** `removeStatus` checking the response: only an ok response removes the
      status, and then it removes exactly that id. */
  function RemoveStatusChecked(statuses: seq<Status>, id: string, completed: bool, ok: bool): (r: seq<Status>)
    ensures !(completed && ok) ==> r == statuses
    ensures completed && ok ==> r == AfterRemove(statuses, id, completed, ok)
  {
    if completed && ok then WithoutId(statuses, StatusId, id) else statuses
  }

  /** The checked operations agree with the dialog on every ok response. */
  lemma CheckedAgreesWhenOk(statuses: seq<Status>, newName: string, json: Result<Status>, id: string)
    ensures CreateStatusChecked(statuses, newName, true, json) == AfterCreate(statuses, newName, true, json)
    ensures RemoveStatusChecked(statuses, id, true, true) == AfterRemove(statuses, id, true, true)
    ensures var r := RemoveStatusChecked(statuses, id, true, true);
      && (forall i :: 0 <= i < |r| ==> r[i].id != id)
      && (forall s: Status :: s.id != id ==> multiset(r)[s] == multiset(statuses)[s])
  {
    WithoutIdSpec(statuses, StatusId, id);
  }

  /** The dialog's state: the list it shows and its text field. */
  class StatusDialog {
    var statuses: seq<Status>
    var newName: string

    constructor(statuses: seq<Status>)
      ensures this.statuses == statuses && newName == ""
    {
      this.statuses := statuses;
      newName := "";
    }

    /** The text field's `onChange`. */
    method SetNewName(name: string)
      modifies this
      ensures newName == name && statuses == old(statuses)
    {
      newName := name;
    }

    /** `createStatus`, given the response's status and parsed body; tells
        whether a request was sent. */
    method CreateStatus(ok: bool, json: Result<Status>) returns (requested: bool)
      modifies this
      ensures requested <==> !IsBlank(old(newName))
      ensures statuses == AfterCreate(old(statuses), old(newName), ok, json)
      ensures newName == if requested && json.Success? then "" else old(newName)
    {
      if IsBlank(newName) {
        return false;
      }
      requested := true;
      if json.Success? {
        statuses := statuses + [json.value];
        newName := "";
      }
    }

    /** `removeStatus(id)`, given whether the request completed and its status. */
    method RemoveStatus(id: string, completed: bool, ok: bool)
      modifies this
      ensures statuses == AfterRemove(old(statuses), id, completed, ok)
      ensures newName == old(newName)
    {
      if completed {
        statuses := WithoutId(statuses, StatusId, id);
      }
    }
  }
}
