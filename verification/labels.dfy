/**
 * Objects paired with the label they were given in a scene file, and the
 * lookup by label shared by the wireframe programs (hw0 Part3 and hw1
 * wireframe.cpp find_object_with_label).
 */
module Labels {
  import opened Wrappers

  datatype Labeled<T> = Labeled(name: string, obj: T)

  /**
   * The position of the first element carrying the label, or nothing when
   * no element does.
   */
  function FirstWithLabel<T>(elems: seq<Labeled<T>>, name: string): (r: Option<nat>)
    ensures r.Some? ==> r.value < |elems| && elems[r.value].name == name
    ensures r.Some? ==> forall j :: 0 <= j < r.value ==> elems[j].name != name
    ensures r.None? <==> forall j :: 0 <= j < |elems| ==> elems[j].name != name
  {
    if elems == [] then None
    else if elems[0].name == name then Some(0)
    else
      match FirstWithLabel(elems[1..], name)
      case None => None
      case Some(k) => Some(k + 1)
  }

  /**
   * find_object_with_label: a copy of the first element whose label matches;
   * when none does, the source throws, modelled as None.
   */
  method FindObjectWithLabel<T>(elems: seq<Labeled<T>>, name: string) returns (r: Option<Labeled<T>>)
    ensures r.None? <==> FirstWithLabel(elems, name).None?
    ensures r.Some? ==> r.value == elems[FirstWithLabel(elems, name).value]
  {
    var i := 0;
    while i < |elems|
      invariant 0 <= i <= |elems|
      invariant forall j :: 0 <= j < i ==> elems[j].name != name
    {
      var elem := elems[i];
      if elem.name == name {
        FirstIsUnique(elems, name, i);
        return Some(elem);
      }
      i := i + 1;
    }
    return None;
  }

  /** An element with the label and none before it is the first one. */
  lemma FirstIsUnique<T>(elems: seq<Labeled<T>>, name: string, i: nat)
    requires i < |elems| && elems[i].name == name
    requires forall j :: 0 <= j < i ==> elems[j].name != name
    ensures FirstWithLabel(elems, name) == Some(i)
  {
    var r := FirstWithLabel(elems, name);
    assert r.Some?;
    assert !(r.value < i);
    assert !(r.value > i);
  }

  /** How many elements carry the label. */
  function Occurrences<T>(elems: seq<Labeled<T>>, name: string): nat
  {
    if elems == [] then 0
    else Occurrences(elems[..|elems| - 1], name) + (if elems[|elems| - 1].name == name then 1 else 0)
  }
}
