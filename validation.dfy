/** The part of zod the client's schemas use: a value is checked field by
    field and element by element, every failed check is reported as an
    issue at the path where it failed, and the value is accepted exactly
    when there is no issue. Lengths count characters. */
module Validation {

  /** One step of an issue's path: an object property or an array position. */
  datatype PathKey = Field(name: string) | Index(i: nat)

  /** What a failed check reports. */
  datatype Code =
    | TooSmall(minimum: nat)
    | TooBig(maximum: nat)
    | InvalidEnumValue
    | InvalidUnion
    | InvalidString
    | Custom(message: string)

  /** One failed check and where it failed. */
  datatype Issue = Issue(path: seq<PathKey>, code: Code)

  /** A failed check at the value itself, or nothing. */
  function Check(ok: bool, code: Code): (r: seq<Issue>)
    ensures r == [] <==> ok
    ensures forall i :: 0 <= i < |r| ==> r[i].path == []
  {
    if ok then [] else [Issue([], code)]
  }

  /** `.min(n)` on a string. */
  function MinLength(s: string, n: nat): (r: seq<Issue>)
    ensures r == [] <==> |s| >= n
  {
    Check(|s| >= n, TooSmall(n))
  }

  /** `.max(n)` on a string. */
  function MaxLength(s: string, n: nat): (r: seq<Issue>)
    ensures r == [] <==> |s| <= n
  {
    Check(|s| <= n, TooBig(n))
  }

  /** `.min(n)` on an array. */
  function MinItems<T>(xs: seq<T>, n: nat): (r: seq<Issue>)
    ensures r == [] <==> |xs| >= n
  {
    Check(|xs| >= n, TooSmall(n))
  }

  /** `z.enum(options)`. */
  function OneOf(s: string, options: seq<string>): (r: seq<Issue>)
    ensures r == [] <==> s in options
  {
    Check(s in options, InvalidEnumValue)
  }

  /** The issues of a nested value, reported under `key`. */
  function At(key: PathKey, issues: seq<Issue>): (r: seq<Issue>)
    ensures |r| == |issues|
    ensures forall i :: 0 <= i < |r| ==> r[i].path == [key] + issues[i].path && r[i].code == issues[i].code
  {
    seq(|issues|, i requires 0 <= i < |issues| => Issue([key] + issues[i].path, issues[i].code))
  }

  /** `z.array(element)` applied to every element: each element's issues
      under its position. */
  function Each<T>(xs: seq<T>, element: T -> seq<Issue>): (r: seq<Issue>)
    ensures r == [] <==> forall i :: 0 <= i < |xs| ==> element(xs[i]) == []
    ensures forall j :: 0 <= j < |r| ==> |r[j].path| > 0 && r[j].path[0].Index? && r[j].path[0].i < |xs|
  {
    if xs == [] then []
    else
      var init := xs[..|xs| - 1];
      var r := Each(init, element) + At(Index(|xs| - 1), element(xs[|xs| - 1]));
      assert forall i :: 0 <= i < |init| ==> xs[i] == init[i];
      r
  }
}
