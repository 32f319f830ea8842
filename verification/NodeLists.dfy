/** Intrusive lists as sequences of what they link: an element is linked at most once, and erased wherever it is. */
module NodeLists {

  ghost predicate NoDup(list: seq<nat>)
  {
    forall i, j :: 0 <= i < j < |list| ==> list[i] != list[j]
  }

  function Erase(list: seq<nat>, i: nat): seq<nat>
  {
    if list == [] then [] else if list[0] == i then list[1..] else [list[0]] + Erase(list[1..], i)
  }

  lemma {:induction false} EraseOne(list: seq<nat>, i: nat)
    requires NoDup(list)
    ensures NoDup(Erase(list, i))
    ensures forall j :: j in Erase(list, i) <==> j in list && j != i
  {
    if list != [] && list[0] != i {
      var rest := Erase(list[1..], i);
      EraseOne(list[1..], i);
      assert list == [list[0]] + list[1..];
      assert list[0] !in list[1..];
      assert forall j :: 0 <= j < |rest| ==> rest[j] in rest;
    }
  }
}
