/**
 * The two list lookups the key tables rely on: Python's `list.index`, which
 * finds the first occurrence and raises ValueError when there is none, and the
 * dictionary built by `{name: index for index, name in enumerate(names)}`,
 * where a later duplicate overwrites an earlier one.
 */
module Lists {
  import opened Wrappers

  ghost predicate Distinct<T>(s: seq<T>)
  {
    forall i, j :: 0 <= i < j < |s| ==> s[i] != s[j]
  }

  /** `s.index(x)`: the first position holding `x`, or None for ValueError. */
  function FirstIndex<T(==)>(s: seq<T>, x: T): (r: Option<nat>)
    ensures r.None? <==> x !in s
    ensures r.Some? ==> r.value < |s| && s[r.value] == x
    ensures r.Some? ==> forall j :: 0 <= j < r.value ==> s[j] != x
  {
    if s == [] then None
    else if s[0] == x then Some(0)
    else
      match FirstIndex(s[1..], x)
      case None => None
      case Some(i) => Some(i + 1)
  }

  /** The dictionary comprehension over `enumerate(names)`: the last position wins. */
  function IndexMap(names: seq<string>): (m: map<string, nat>)
    ensures forall x :: x in m <==> x in names
    ensures forall x :: x in m ==> m[x] < |names| && names[m[x]] == x
    ensures forall x :: x in m ==> forall j :: m[x] < j < |names| ==> names[j] != x
  {
    if names == [] then map[]
    else
      var front := names[..|names| - 1];
      assert forall x :: x in names <==> x in front || x == names[|names| - 1];
      IndexMap(front)[names[|names| - 1] := |names| - 1]
  }

  /** With no duplicates, the dictionary gives back each name's own position. */
  lemma IndexMapOfDistinct(names: seq<string>, i: nat)
    requires Distinct(names) && i < |names|
    ensures names[i] in IndexMap(names) && IndexMap(names)[names[i]] == i
  {
  }

  /** With no duplicates, `index` and the dictionary agree on every name. */
  lemma IndexMapAgreesWithFirstIndex(names: seq<string>, x: string)
    requires Distinct(names)
    ensures x in IndexMap(names) <==> FirstIndex(names, x).Some?
    ensures x in IndexMap(names) ==> IndexMap(names)[x] == FirstIndex(names, x).value
  {
    if x in names {
      var i := FirstIndex(names, x).value;
      IndexMapOfDistinct(names, i);
    }
  }

  /** With a duplicate, `index` finds the first copy while the dictionary keeps the last. */
  lemma DuplicateSplitsLookups(names: seq<string>, i: nat, j: nat)
    requires i < j < |names| && names[i] == names[j]
    ensures FirstIndex(names, names[i]).value <= i
    ensures IndexMap(names)[names[i]] >= j
  {
  }
}
