/**
 * Lists of ids that stand for sets: adding what is not there yet, and filtering out.
 */
module Lists {
  function Without(ids: seq<string>, id: string): (rest: seq<string>)
    ensures forall x :: x in rest <==> x in ids && x != id
  {
    if ids == [] then [] else (if ids[0] == id then [] else [ids[0]]) + Without(ids[1..], id)
  }

  function Track(ids: seq<string>, id: string, gone: bool): seq<string> {
    if gone then Without(ids, id) else if id in ids then ids else ids + [id]
  }

  ghost predicate Distinct(ids: seq<string>) {
    forall i, j :: 0 <= i < j < |ids| ==> ids[i] != ids[j]
  }

  lemma {:induction false} WithoutAbsent(ids: seq<string>, id: string)
    requires id !in ids
    ensures Without(ids, id) == ids
  {
    if ids != [] {
      WithoutAbsent(ids[1..], id);
    }
  }

  lemma {:induction false} WithoutDistinct(ids: seq<string>, id: string)
    requires Distinct(ids)
    ensures Distinct(Without(ids, id))
  {
    if ids != [] {
      WithoutDistinct(ids[1..], id);
      assert forall x :: x in ids[1..] ==> x != ids[0];
      var rest := Without(ids[1..], id);
      assert forall j :: 0 <= j < |rest| ==> rest[j] in rest;
    }
  }

  // As a set, the list loses the id or gains it, and stays free of duplicates.
  lemma TrackSets(ids: seq<string>, id: string, gone: bool)
    requires Distinct(ids)
    ensures Distinct(Track(ids, id, gone))
    ensures forall x :: x in Track(ids, id, gone) <==> if x == id then !gone else x in ids
  {
    WithoutDistinct(ids, id);
  }
}
