/** Removing every status with a given id from a status list
    (`statuses.filter(s => s.id !== id)`), shared by both status dialogs. */
module StatusLists {
  import opened JsArrays

  function WithoutId<S>(statuses: seq<S>, idOf: S -> string, id: string): seq<S>
  {
    Filter(statuses, s => idOf(s) != id)
  }

  /** The rest of the list in its order: no status with that id is left,
      and every other status is kept as often as it occurred. */
  lemma WithoutIdSpec<S>(statuses: seq<S>, idOf: S -> string, id: string)
    ensures var r := WithoutId(statuses, idOf, id);
      && IsSubsequence(r, statuses)
      && (forall i :: 0 <= i < |r| ==> idOf(r[i]) != id)
      && (forall s :: idOf(s) != id ==> multiset(r)[s] == multiset(statuses)[s])
  {
    var keep := s => idOf(s) != id;
    FilterIsSubsequence(statuses, keep);
    FilterMultiplicity(statuses, keep);
    var r := WithoutId(statuses, idOf, id);
    forall i | 0 <= i < |r|
      ensures idOf(r[i]) != id
    {
      assert r[i] in r;
    }
  }
}
