/** The backend's program as the client receives it: named sets of goals,
    each set with a status name, and the input fields every record of the
    program fills in. */
module ProgramTypes {

  datatype Goal = Goal(name: string, id: string)

  /** A set of goals (`Set` in the client's types). */
  datatype ProgramSet = ProgramSet(name: string, id: string, goals: seq<Goal>, status: string)

  /** An input field: its name and its type name (`"number"`, `"text"`, ...). */
  datatype ProgramInput = ProgramInput(name: string, inputType: string)

  datatype Program = Program(
    id: string,
    name: string,
    patientId: string,
    updatedAt: string,
    createdAt: string,
    sets: seq<ProgramSet>,
    inputs: seq<ProgramInput>)

  /** `set.goals.some(g => g.id === goalId)`. */
  predicate HasGoal(s: ProgramSet, goalId: string)
  {
    exists j :: 0 <= j < |s.goals| && s.goals[j].id == goalId
  }
}
