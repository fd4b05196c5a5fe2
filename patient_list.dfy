/** The patient list of an organization (`Patients` in `patients/index.tsx`):
    a name search taken from the `query` URL parameter and a sex tab. Case
    folding (`toLowerCase`) is a parameter, `fold`. */
module PatientList {
  import opened JsValues
  import opened JsStrings
  import opened JsArrays
  import opened PatientTypes

  /** The three tabs. */
  datatype Tab = Todos | Masculino | Feminino

  /** `searchParams.get("query") || ""`. */
  function QueryOf(param: Option<string>): (q: string)
    ensures param.None? ==> q == ""
    ensures param.Some? ==> q == param.value
  {
    if param.Some? && param.value != "" then param.value else ""
  }

  /** The folded name contains the folded query. */
  predicate MatchesName(p: Patient, query: string, fold: string -> string)
  {
    Contains(fold(p.name), fold(query))
  }

  /** The tab keeps the patient: every patient for "todos", a folded sex of
      exactly "male" or "female" for the other two. */
  predicate InTab(p: Patient, tab: Tab, fold: string -> string)
  {
    match tab
      case Todos => true
      case Masculino => p.sex.Some? && fold(p.sex.value) == "male"
      case Feminino => p.sex.Some? && fold(p.sex.value) == "female"
  }

  /** `filteredPatients`: nothing before the patients load, then the name
      filter followed by the tab filter. */
  function FilteredPatients(patients: Option<seq<Patient>>, queryParam: Option<string>, tab: Tab, fold: string -> string): Option<seq<Patient>>
  {
    match patients
      case None => None
      case Some(ps) =>
        var query := QueryOf(queryParam);
        Some(Filter(Filter(ps, (p: Patient) => MatchesName(p, query, fold)), (p: Patient) => InTab(p, tab, fold)))
  }

  /** The list is missing exactly while the patients are; otherwise it keeps
      the patients' order and holds each patient exactly as often as the
      input does when its name matches and its tab takes it, and never
      otherwise. */
  lemma FilteredPatientsSpec(patients: Option<seq<Patient>>, queryParam: Option<string>, tab: Tab, fold: string -> string)
    ensures FilteredPatients(patients, queryParam, tab, fold).None? <==> patients.None?
    ensures patients.Some? ==> var r, query := FilteredPatients(patients, queryParam, tab, fold).value, QueryOf(queryParam);
      && IsSubsequence(r, patients.value)
      && forall p :: multiset(r)[p] ==
           if MatchesName(p, query, fold) && InTab(p, tab, fold) then multiset(patients.value)[p] else 0
  {
    if patients.Some? {
      var ps, query := patients.value, QueryOf(queryParam);
      var byName := (p: Patient) => MatchesName(p, query, fold);
      var byTab := (p: Patient) => InTab(p, tab, fold);
      var both := (p: Patient) => MatchesName(p, query, fold) && InTab(p, tab, fold);
      var r := FilteredPatients(patients, queryParam, tab, fold).value;
      assert r == Filter(ps, both) by {
        assert r == Filter(Filter(ps, byName), byTab);
        FilterTwice(ps, byName, byTab, both);
      }
      assert IsSubsequence(r, ps) by {
        FilterIsSubsequence(ps, both);
      }
      assert forall p :: (multiset(r)[p] ==
          if MatchesName(p, query, fold) && InTab(p, tab, fold) then multiset(ps)[p] else 0) by {
        FilterMultiplicity(ps, both);
      }
    }
  }

  /** The "todos" tab keeps exactly the name matches. */
  lemma TodosKeepsNameMatches(ps: seq<Patient>, queryParam: Option<string>, fold: string -> string)
    ensures FilteredPatients(Some(ps), queryParam, Todos, fold)
      == Some(Filter(ps, (p: Patient) => MatchesName(p, QueryOf(queryParam), fold)))
  {
    var matches := Filter(ps, (p: Patient) => MatchesName(p, QueryOf(queryParam), fold));
    FilterAllPass(matches, (p: Patient) => InTab(p, Todos, fold));
  }

  /** Without a query (or with an empty one) the "todos" tab lists every
      patient, given that folding the empty text gives the empty text. */
  lemma NoQueryKeepsAll(ps: seq<Patient>, queryParam: Option<string>, fold: string -> string)
    requires queryParam.None? || queryParam == Some("")
    requires fold("") == ""
    ensures FilteredPatients(Some(ps), queryParam, Todos, fold) == Some(ps)
  {
    TodosKeepsNameMatches(ps, queryParam, fold);
    FilterAllPass(ps, (p: Patient) => MatchesName(p, QueryOf(queryParam), fold));
  }

  /** A patient without a sex appears under neither "masculino" nor
      "feminino", and no patient appears under both. */
  lemma SexTabsDisjoint(ps: seq<Patient>, queryParam: Option<string>, fold: string -> string)
    ensures forall p :: p in ps && p.sex.None? ==>
      p !in FilteredPatients(Some(ps), queryParam, Masculino, fold).value
      && p !in FilteredPatients(Some(ps), queryParam, Feminino, fold).value
    ensures forall p :: p in FilteredPatients(Some(ps), queryParam, Masculino, fold).value ==>
      p !in FilteredPatients(Some(ps), queryParam, Feminino, fold).value
  {
    var male := FilteredPatients(Some(ps), queryParam, Masculino, fold).value;
    var female := FilteredPatients(Some(ps), queryParam, Feminino, fold).value;
    assert forall p :: p in male ==> InTab(p, Masculino, fold);
    assert forall p :: p in female ==> InTab(p, Feminino, fold);
    assert "male" != "female" by {
      assert |"male"| != |"female"|;
    }
  }
}
