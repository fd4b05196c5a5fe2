/** The server actions on programs: `getPrograms` (its guards, and the
    most-recent-first selection when a limit is given), `programSchema`, and
    the bodies `createProgram` and `updateProgram` send. Fetching is not
    modelled: the response's status and parsed programs are inputs, and so is
    the timestamp `new Date(updated_at).getTime()` gives for each
    `updated_at` text. */
module ProgramActions {
  import opened JsValues
  import opened JsArrays
  import opened ProgramTypes
  import opened Validation

  // ---------------------------------------------------------------------------
  // Most recent programs

  /** `s` lists programs from the most recently updated to the least. */
  predicate NewestFirst(s: seq<Program>, time: string -> int)
  {
    forall i, j :: 0 <= i < j < |s| ==> time(s[i].updatedAt) >= time(s[j].updatedAt)
  }

  /** `programs.sort((a, b) => time(b) - time(a))`, in place: an insertion
      sort that moves each program left past the older ones. */
  method SortNewestFirst(a: array<Program>, time: string -> int)
    modifies a
    ensures NewestFirst(a[..], time)
    ensures multiset(a[..]) == multiset(old(a[..]))
  {
    if a.Length == 0 {
      return;
    }
    var i := 1;
    while i < a.Length
      invariant 1 <= i <= a.Length
      invariant NewestFirst(a[..i], time)
      invariant multiset(a[..]) == multiset(old(a[..]))
    {
      InsertAt(a, i, time);
      i := i + 1;
    }
  }

  /** Moves `a[i]` left into the newest-first prefix `a[..i]`. */
  method InsertAt(a: array<Program>, i: nat, time: string -> int)
    requires i < a.Length
    requires NewestFirst(a[..i], time)
    modifies a
    ensures NewestFirst(a[..i + 1], time)
    ensures multiset(a[..]) == multiset(old(a[..]))
  {
    StartInsert(a[..], i, time);
    var j := i;
    while j > 0 && time(a[j - 1].updatedAt) < time(a[j].updatedAt)
      invariant 0 <= j <= i
      invariant Inserting(a[..], i, j, time)
      invariant multiset(a[..]) == multiset(old(a[..]))
    {
      ghost var before := a[..];
      assert time(before[j - 1].updatedAt) < time(before[j].updatedAt);
      Swap(a, j);
      SwapStep(before, a[..], i, j, time);
      j := j - 1;
    }
    InsertedInPlace(a[..], i, j, time);
  }

  /** The state of the insertion: the moved program sits at `j`, the others
      up to `i` are newest first, and it is newer than all after it. */
  ghost predicate Inserting(s: seq<Program>, i: nat, j: nat, time: string -> int)
    requires j <= i < |s|
  {
    NewestFirstBut(s, i, j, time) && NewerThanAfter(s, i, j, time)
  }

  /** Up to position `i`, every pair not involving position `j` is newest first. */
  ghost predicate NewestFirstBut(s: seq<Program>, i: nat, j: nat, time: string -> int)
    requires i < |s|
  {
    forall p, q :: 0 <= p < q <= i && p != j && q != j ==> time(s[p].updatedAt) >= time(s[q].updatedAt)
  }

  /** The program at `j` is newer than every one after it up to `i`. */
  ghost predicate NewerThanAfter(s: seq<Program>, i: nat, j: nat, time: string -> int)
    requires j <= i < |s|
  {
    forall q :: j < q <= i ==> time(s[j].updatedAt) > time(s[q].updatedAt)
  }

  lemma StartInsert(s: seq<Program>, i: nat, time: string -> int)
    requires i < |s| && NewestFirst(s[..i], time)
    ensures Inserting(s, i, i, time)
  {
    forall p, q | 0 <= p < q <= i && p != i && q != i
      ensures time(s[p].updatedAt) >= time(s[q].updatedAt)
    {
      assert s[..i][p] == s[p] && s[..i][q] == s[q];
    }
  }

  /** Swapping the moved program with an older left neighbour moves it one
      step left and keeps the rest in order. */
  lemma SwapStep(s: seq<Program>, t: seq<Program>, i: nat, j: nat, time: string -> int)
    requires 0 < j <= i < |s|
    requires Inserting(s, i, j, time)
    requires time(s[j - 1].updatedAt) < time(s[j].updatedAt)
    requires t == Swapped(s, j)
    ensures Inserting(t, i, j - 1, time)
  {
    forall p, q | 0 <= p < q <= i && p != j - 1 && q != j - 1
      ensures time(t[p].updatedAt) >= time(t[q].updatedAt)
    {
      if q == j {
        assert time(s[p].updatedAt) >= time(s[j - 1].updatedAt);
      } else if p == j {
        assert time(s[j].updatedAt) > time(s[q].updatedAt);
      }
    }
  }

  /** The prefix is newest-first once the moved program is no newer than
      its left neighbour. */
  lemma InsertedInPlace(s: seq<Program>, i: nat, j: nat, time: string -> int)
    requires j <= i < |s|
    requires Inserting(s, i, j, time)
    requires j > 0 ==> time(s[j - 1].updatedAt) >= time(s[j].updatedAt)
    ensures NewestFirst(s[..i + 1], time)
  {
    forall p, q | 0 <= p < q < i + 1
      ensures time(s[p].updatedAt) >= time(s[q].updatedAt)
    {
      if q == j && p < j - 1 {
        assert time(s[p].updatedAt) >= time(s[j - 1].updatedAt);
      }
    }
  }

  /** Exchanges `a[j - 1]` and `a[j]`. */
  method Swap(a: array<Program>, j: nat)
    requires 0 < j < a.Length
    modifies a
    ensures a[..] == Swapped(old(a[..]), j)
    ensures multiset(a[..]) == multiset(old(a[..]))
  {
    a[j - 1], a[j] := a[j], a[j - 1];
  }

  /** `s` with the programs at `j - 1` and `j` exchanged. */
  function Swapped(s: seq<Program>, j: nat): (t: seq<Program>)
    requires 0 < j < |s|
    ensures |t| == |s| && t[j - 1] == s[j] && t[j] == s[j - 1]
    ensures forall k :: 0 <= k < |s| && k != j - 1 && k != j ==> t[k] == s[k]
  {
    s[j - 1 := s[j]][j := s[j - 1]]
  }

  /** The end position `slice(0, end)` uses on an array of length `n`: a
      negative end counts from the back. */
  function SliceEnd(n: nat, end: int): (k: nat)
    ensures k <= n
    ensures end >= 0 ==> k == if end < n then end else n
    ensures end < 0 ==> k == if n + end > 0 then n + end else 0
  {
    if end >= 0 then (if end < n then end else n)
    else if n + end > 0 then n + end else 0
  }

  /** `getPrograms(accessToken, patientId, limit)` given the response: no
      token, no patient or a failed response give `null`; a truthy limit
      gives the most recently updated programs, as many as `slice(0, limit)`
      keeps; otherwise the programs come back as fetched. */
  method GetPrograms(accessToken: Option<string>, patientId: Option<string>, limit: Option<int>,
                     ok: bool, fetched: seq<Program>, time: string -> int)
    returns (r: Option<seq<Program>>)
    ensures !Truthy(accessToken) || !Truthy(patientId) || !ok ==> r == None
    ensures Truthy(accessToken) && Truthy(patientId) && ok && (limit.None? || limit.value == 0) ==> r == Some(fetched)
    ensures Truthy(accessToken) && Truthy(patientId) && ok && limit.Some? && limit.value != 0 ==>
      && r.Some?
      && |r.value| == SliceEnd(|fetched|, limit.value)
      && NewestFirst(r.value, time)
      && multiset(r.value) <= multiset(fetched)
      && forall p, q :: p in multiset(fetched) - multiset(r.value) && q in r.value ==> time(p.updatedAt) <= time(q.updatedAt)
  {
    if !Truthy(accessToken) || !Truthy(patientId) || !ok {
      return None;
    }
    if limit.None? || limit.value == 0 {
      return Some(fetched);
    }
    var a := new Program[|fetched|](i requires 0 <= i < |fetched| => fetched[i]);
    assert a[..] == fetched;
    SortNewestFirst(a, time);
    var k := SliceEnd(a.Length, limit.value);
    r := Some(a[..k]);
    KeptAreNewest(a[..], k, time);
  }

  /** Cutting a newest-first permutation keeps programs at least as recent
      as every one it drops. */
  lemma KeptAreNewest(s: seq<Program>, k: nat, time: string -> int)
    requires k <= |s| && NewestFirst(s, time)
    ensures NewestFirst(s[..k], time)
    ensures multiset(s[..k]) <= multiset(s)
    ensures forall p, q :: p in multiset(s) - multiset(s[..k]) && q in s[..k] ==> time(p.updatedAt) <= time(q.updatedAt)
  {
    var kept, dropped := s[..k], s[k..];
    assert multiset(s) == multiset(kept) + multiset(dropped) by {
      CutAndJoin(s, k);
    }
    forall p, q | 0 <= p < q < |kept|
      ensures time(kept[p].updatedAt) >= time(kept[q].updatedAt)
    {
      assert kept[p] == s[p] && kept[q] == s[q];
    }
    forall p, q | p in multiset(s) - multiset(kept) && q in kept
      ensures time(p.updatedAt) <= time(q.updatedAt)
    {
      assert p in dropped;
      var m :| 0 <= m < |dropped| && dropped[m] == p;
      var l :| 0 <= l < |kept| && kept[l] == q;
      assert s[k + m] == p && s[l] == q;
    }
  }

  // ---------------------------------------------------------------------------
  // programSchema

  datatype GoalFields = GoalFields(id: Option<string>, name: string)
  datatype InputFields = InputFields(id: Option<string>, name: string, inputType: string)
  datatype SetFields = SetFields(id: Option<string>, name: string, statusId: string, goals: seq<GoalFields>)

  /** What the program form hands the actions (`ProgramPayload`). */
  datatype ProgramPayload = ProgramPayload(
    id: Option<string>,
    name: string,
    patientId: string,
    inputs: seq<InputFields>,
    sets: seq<SetFields>,
    accessToken: Option<string>)

  /** The JSON body sent to the backend: the payload without the token. */
  datatype ProgramBody = ProgramBody(
    id: Option<string>,
    name: string,
    patientId: string,
    inputs: seq<InputFields>,
    sets: seq<SetFields>)

  const INPUT_TYPES: seq<string> := ["number", "text", "email", "date"]

  /** `goalSchema`. */
  function GoalIssues(g: GoalFields): seq<Issue>
  {
    At(Field("name"), MinLength(g.name, 1))
  }

  /** `setSchema`. */
  function SetIssues(s: SetFields): seq<Issue>
  {
    At(Field("name"), MinLength(s.name, 1))
      + At(Field("goals"), MinItems(s.goals, 1) + Each(s.goals, GoalIssues))
      + At(Field("program_set_status_id"), MinLength(s.statusId, 1))
  }

  /** `inputSchema`. */
  function InputIssues(i: InputFields): seq<Issue>
  {
    At(Field("name"), MinLength(i.name, 1)) + At(Field("type"), OneOf(i.inputType, INPUT_TYPES))
  }

  /** `programSchema`. */
  function ProgramIssues(p: ProgramPayload): seq<Issue>
  {
    At(Field("name"), MinLength(p.name, 1))
      + At(Field("patient_id"), MinLength(p.patientId, 1))
      + At(Field("inputs"), MinItems(p.inputs, 1) + Each(p.inputs, InputIssues))
      + At(Field("sets"), MinItems(p.sets, 1) + Each(p.sets, SetIssues))
  }

  /** A set passes when it is named, has a status and has at least one
      goal, every goal named. */
  predicate SetValid(s: SetFields)
  {
    s.name != "" && s.statusId != "" && |s.goals| >= 1
      && forall j :: 0 <= j < |s.goals| ==> s.goals[j].name != ""
  }

  /** `programSchema` accepts a payload exactly when the program and its
      patient are named, it has at least one input and one set, every input
      is named with one of the four types, and every set passes. */
  lemma ProgramSchemaAccepts(p: ProgramPayload)
    ensures ProgramIssues(p) == [] <==>
      && p.name != "" && p.patientId != ""
      && |p.inputs| >= 1 && |p.sets| >= 1
      && (forall i :: 0 <= i < |p.inputs| ==> p.inputs[i].name != "" && p.inputs[i].inputType in INPUT_TYPES)
      && (forall i :: 0 <= i < |p.sets| ==> SetValid(p.sets[i]))
  {
    ProgramIssuesParts(p);
    forall i: InputFields
      ensures InputIssues(i) == [] <==> i.name != "" && i.inputType in INPUT_TYPES
    {
    }
    forall s: SetFields
      ensures SetIssues(s) == [] <==> SetValid(s)
    {
      SetAccepts(s);
    }
  }

  lemma ProgramIssuesParts(p: ProgramPayload)
    ensures ProgramIssues(p) == [] <==>
      && MinLength(p.name, 1) == [] && MinLength(p.patientId, 1) == []
      && MinItems(p.inputs, 1) == [] && Each(p.inputs, InputIssues) == []
      && MinItems(p.sets, 1) == [] && Each(p.sets, SetIssues) == []
  {
    var a := At(Field("name"), MinLength(p.name, 1));
    var b := At(Field("patient_id"), MinLength(p.patientId, 1));
    var c := At(Field("inputs"), MinItems(p.inputs, 1) + Each(p.inputs, InputIssues));
    var d := At(Field("sets"), MinItems(p.sets, 1) + Each(p.sets, SetIssues));
    assert |ProgramIssues(p)| == |a| + |b| + |c| + |d|;
  }

  lemma SetAccepts(s: SetFields)
    ensures SetIssues(s) == [] <==> SetValid(s)
  {
    var a := At(Field("name"), MinLength(s.name, 1));
    var b := At(Field("goals"), MinItems(s.goals, 1) + Each(s.goals, GoalIssues));
    var c := At(Field("program_set_status_id"), MinLength(s.statusId, 1));
    assert |SetIssues(s)| == |a| + |b| + |c|;
    forall g: GoalFields
      ensures GoalIssues(g) == [] <==> g.name != ""
    {
    }
    assert Each(s.goals, GoalIssues) == [] <==> forall j :: 0 <= j < |s.goals| ==> s.goals[j].name != "";
  }

  /** `const { accessToken, ...programData } = data`. */
  function WithoutToken(p: ProgramPayload): ProgramBody
  {
    ProgramBody(p.id, p.name, p.patientId, p.inputs, p.sets)
  }

  /** `createProgram`: the body it sends, or the `ZodError` it throws
      before sending anything. */
  function CreateProgramBody(data: ProgramPayload): (r: Result<ProgramBody>)
    ensures r.Success? <==> ProgramIssues(data) == []
    ensures r.Success? ==> r.value == WithoutToken(data)
  {
    if ProgramIssues(data) != [] then Failure("ZodError") else Success(WithoutToken(data))
  }

  /** `updateProgram(id, data)`: the payload with `id` set, checked, and
      sent without the token. */
  function UpdateProgramBody(id: string, data: ProgramPayload): (r: Result<ProgramBody>)
    ensures r.Success? <==> ProgramIssues(data) == []
    ensures r.Success? ==> r.value == WithoutToken(data).(id := Some(id))
  {
    var payload := data.(id := Some(id));
    assert ProgramIssues(payload) == ProgramIssues(data);
    if ProgramIssues(payload) != [] then Failure("ZodError") else Success(WithoutToken(payload))
  }

  /** A body never carries the token, and carries every other field of the
      payload unchanged. */
  lemma BodyDropsOnlyToken(data: ProgramPayload, id: string)
    ensures CreateProgramBody(data).Success? ==>
      var b := CreateProgramBody(data).value;
      b.id == data.id && b.name == data.name && b.patientId == data.patientId && b.inputs == data.inputs && b.sets == data.sets
    ensures UpdateProgramBody(id, data).Success? ==>
      var b := UpdateProgramBody(id, data).value;
      b.id == Some(id) && b.name == data.name && b.patientId == data.patientId && b.inputs == data.inputs && b.sets == data.sets
  {
  }

  /** `createProgram`/`updateProgram` after the request: a failed status
      throws, a successful one returns the parsed response. */
  function SaveProgramResult<J>(ok: bool, json: Result<J>): (r: Result<J>)
    ensures r.Success? <==> ok && json.Success?
  {
    if !ok then Failure("Erro ao salvar programa") else json
  }
}
