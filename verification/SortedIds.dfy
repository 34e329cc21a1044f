// Listing a set of stream ids in ascending order, as slices.Sort and sort.Slice
// do for map keys (pkg/importer/build.go:157-161, pkg/cluster/coordinator.go:362).
module SortedIds {

  ghost predicate Distinct(ids: seq<int>) {
    forall i, j :: 0 <= i < j < |ids| ==> ids[i] != ids[j]
  }

  ghost predicate IsLeast(m: int, s: set<int>) {
    m in s && forall x :: x in s ==> m <= x
  }

  lemma HasMember(s: set<int>)
    ensures s == {} || exists y :: y in s
  {
    if forall y :: y !in s {
      assert s == {};
    }
  }

  lemma {:induction false} LeastExists(s: set<int>)
    requires s != {}
    ensures exists m :: IsLeast(m, s)
  {
    HasMember(s);
    var y :| y in s;
    var rest := s - {y};
    assert forall x :: x in s ==> x == y || x in rest;
    if rest == {} {
      assert IsLeast(y, s);
    } else {
      LeastExists(rest);
      var m :| IsLeast(m, rest);
      assert IsLeast(if y < m then y else m, s);
    }
  }

  function Least(s: set<int>): (m: int)
    requires s != {}
    ensures IsLeast(m, s)
  {
    assert exists m :: m in s && forall x :: x in s ==> m <= x by {
      LeastExists(s);
      var m :| IsLeast(m, s);
    }
    var m :| m in s && forall x :: x in s ==> m <= x;
    m
  }

  function SortIds(ids: set<int>): seq<int> {
    if ids == {} then [] else [Least(ids)] + SortIds(ids - {Least(ids)})
  }

  // Every id once, in ascending order.
  lemma {:induction false} SortIdsLists(ids: set<int>)
    ensures forall s :: s in SortIds(ids) <==> s in ids
    ensures |SortIds(ids)| == |ids|
    ensures forall i, j :: 0 <= i < j < |SortIds(ids)| ==> SortIds(ids)[i] < SortIds(ids)[j]
    ensures Distinct(SortIds(ids))
  {
    if ids != {} {
      var m := Least(ids);
      var rest := SortIds(ids - {m});
      SortIdsLists(ids - {m});
      forall k | 0 <= k < |rest| ensures m < rest[k] {
        assert rest[k] in rest;
      }
    }
  }
}
