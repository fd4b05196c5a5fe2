/** The patient picker (`Patients` in `patients.tsx`): the patients whose
    name contains the `query` URL parameter, ignoring case. Case folding
    (`toLowerCase`) is a parameter, `fold`. */
module PatientSearch {
  import opened JsValues
  import opened JsStrings
  import opened JsArrays
  import opened PatientTypes
  import PatientList

  /** `query?.toLowerCase() || ""`: the folded query, or nothing to look for. */
  function Needle(query: Option<string>, fold: string -> string): (n: string)
    ensures query.None? ==> n == ""
    ensures query.Some? ==> n == fold(query.value)
  {
    if query.Some? && fold(query.value) != "" then fold(query.value) else ""
  }

  /** `patients?.filter(p => p.name.toLowerCase().includes(needle))`. */
  function FilteredPatients(patients: Option<seq<Patient>>, query: Option<string>, fold: string -> string): Option<seq<Patient>>
  {
    match patients
      case None => None
      case Some(ps) => Some(Filter(ps, (p: Patient) => Contains(fold(p.name), Needle(query, fold))))
  }

  /** The list is missing exactly while the patients are; otherwise it keeps
      their order and holds each patient as often as the input does when its
      folded name contains the folded query, and never otherwise. */
  lemma FilteredPatientsSpec(patients: Option<seq<Patient>>, query: Option<string>, fold: string -> string)
    ensures FilteredPatients(patients, query, fold).None? <==> patients.None?
    ensures patients.Some? ==> var r := FilteredPatients(patients, query, fold).value;
      && IsSubsequence(r, patients.value)
      && forall p :: multiset(r)[p] ==
           if Contains(fold(p.name), Needle(query, fold)) then multiset(patients.value)[p] else 0
  {
    if patients.Some? {
      var keep := (p: Patient) => Contains(fold(p.name), Needle(query, fold));
      FilterIsSubsequence(patients.value, keep);
      FilterMultiplicity(patients.value, keep);
    }
  }

  /** Without a query every patient is listed, whatever `fold` does. */
  lemma NoQueryKeepsAll(ps: seq<Patient>, fold: string -> string)
    ensures FilteredPatients(Some(ps), None, fold) == Some(ps)
  {
    forall p: Patient
      ensures Contains(fold(p.name), Needle(None, fold))
    {
      assert IsPrefix("", fold(p.name));
    }
    FilterAllPass(ps, (p: Patient) => Contains(fold(p.name), Needle(None, fold)));
  }

  /** The picker lists what the organization's list shows on its "todos"
      tab, given that folding the empty text gives the empty text. */
  lemma AgreesWithTodosTab(patients: Option<seq<Patient>>, query: Option<string>, fold: string -> string)
    requires fold("") == ""
    ensures FilteredPatients(patients, query, fold) == PatientList.FilteredPatients(patients, query, PatientList.Todos, fold)
  {
    if patients.Some? {
      var ps := patients.value;
      PatientList.TodosKeepsNameMatches(ps, query, fold);
      assert forall p: Patient :: Contains(fold(p.name), Needle(query, fold)) == PatientList.MatchesName(p, PatientList.QueryOf(query), fold);
      FilterSameKeep(ps, (p: Patient) => Contains(fold(p.name), Needle(query, fold)),
        (p: Patient) => PatientList.MatchesName(p, PatientList.QueryOf(query), fold));
    }
  }

  /** Filters with the same verdicts agree. */
  lemma {:induction false} FilterSameKeep(s: seq<Patient>, a: Patient -> bool, b: Patient -> bool)
    requires forall p :: a(p) == b(p)
    ensures Filter(s, a) == Filter(s, b)
  {
    if s != [] {
      FilterSameKeep(s[1..], a, b);
    }
  }
}
