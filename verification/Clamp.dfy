// Making one stream's timestamps non-decreasing (pkg/importer/build.go:163-184):
// the clamp yields the prefix maximum, which is the least correction there is.
module Clamp {
  import opened Arithmetic

  function PrefixMax(ts: seq<int>): (r: seq<int>)
    ensures |r| == |ts|
  {
    if ts == [] then []
    else
      var front := PrefixMax(ts[..|ts|-1]);
      var last := ts[|ts|-1];
      front + [if front == [] then last else Max(front[|front|-1], last)]
  }

  // How many timestamps the clamp had to raise.
  function NumRaised(ts: seq<int>): nat {
    if ts == [] then 0
    else
      NumRaised(ts[..|ts|-1]) + if PrefixMax(ts)[|ts|-1] > ts[|ts|-1] then 1 else 0
  }

  ghost predicate NonDecreasing(ts: seq<int>) {
    forall i, j :: 0 <= i < j < |ts| ==> ts[i] <= ts[j]
  }

  // upper is at or above ts everywhere.
  ghost predicate Above(upper: seq<int>, ts: seq<int>) {
    |upper| == |ts| && forall i :: 0 <= i < |ts| ==> ts[i] <= upper[i]
  }

  lemma {:induction false} PrefixMaxPrefix(ts: seq<int>, n: nat)
    requires n <= |ts|
    ensures PrefixMax(ts)[..n] == PrefixMax(ts[..n])
  {
    if n == |ts| {
      assert ts[..n] == ts;
    } else {
      PrefixMaxPrefix(ts[..|ts|-1], n);
      assert ts[..|ts|-1][..n] == ts[..n];
    }
  }

  // One more timestamp, as the clamp loop sees it.
  lemma PrefixMaxStep(ts: seq<int>, i: nat)
    requires i < |ts|
    ensures PrefixMax(ts[..i+1])[..i] == PrefixMax(ts[..i])
    ensures forall k :: 0 <= k < i ==> PrefixMax(ts[..i+1])[k] == PrefixMax(ts[..i])[k]
    ensures PrefixMax(ts[..i+1])[i] == if i > 0 then Max(PrefixMax(ts[..i])[i-1], ts[i]) else ts[i]
    ensures NumRaised(ts[..i+1]) ==
            NumRaised(ts[..i]) + if i > 0 && ts[i] < PrefixMax(ts[..i])[i-1] then 1 else 0
  {
    assert ts[..i+1][..i] == ts[..i];
  }

  lemma StartsEmpty()
    ensures PrefixMax([]) == [] && NumRaised([]) == 0
  {
  }

  lemma {:induction false} PrefixMaxIsLeast(ts: seq<int>, other: seq<int>)
    ensures NonDecreasing(PrefixMax(ts)) && Above(PrefixMax(ts), ts)
    ensures NonDecreasing(other) && Above(other, ts) ==> Above(other, PrefixMax(ts))
  {
    hide PrefixMax, NumRaised;
    StartsEmpty();
    if ts != [] {
      var n := |ts| - 1;
      PrefixMaxIsLeast(ts[..n], if |other| == |ts| then other[..n] else []);
      var front := PrefixMax(ts[..n]);
      PrefixMaxStep(ts, n);
      assert ts[..n+1] == ts;
      if NonDecreasing(other) && Above(other, ts) {
        assert NonDecreasing(other[..n]) && Above(other[..n], ts[..n]);
        assert n > 0 ==> other[n - 1] <= other[n] && front[n - 1] <= other[..n][n - 1];
        forall i | 0 <= i < |ts| ensures PrefixMax(ts)[i] <= other[i] {
          assert i < n ==> front[i] <= other[..n][i];
        }
      }
    }
  }

  // The count is the number of positions the clamp changed.
  predicate ChangedAt(ts: seq<int>, i: int) {
    0 <= i < |ts| && PrefixMax(ts)[i] != ts[i]
  }

  function Changed(ts: seq<int>): set<int> {
    set i | 0 <= i < |ts| && ChangedAt(ts, i)
  }

  lemma ChangedAtPrefix(ts: seq<int>, n: nat, i: int)
    requires |ts| == n + 1
    ensures ChangedAt(ts, i) <==> ChangedAt(ts[..n], i) || (i == n && PrefixMax(ts)[n] > ts[n])
  {
    assert PrefixMax(ts)[n] >= ts[n];
    PrefixMaxPrefix(ts, n);
    hide PrefixMax;
    if 0 <= i < n {
      assert PrefixMax(ts)[i] == PrefixMax(ts)[..n][i];
    }
  }

  lemma ChangedStep(ts: seq<int>, n: nat)
    requires |ts| == n + 1
    ensures Changed(ts) == Changed(ts[..n]) + (if PrefixMax(ts)[n] > ts[n] then {n} else {})
  {
    forall i ensures ChangedAt(ts, i) <==> ChangedAt(ts[..n], i) || (i == n && PrefixMax(ts)[n] > ts[n]) {
      ChangedAtPrefix(ts, n, i);
    }
    hide ChangedAt;
  }

  lemma {:induction false} NumRaisedCountsChanges(ts: seq<int>)
    ensures NumRaised(ts) == |Changed(ts)|
  {
    if ts != [] {
      var n := |ts| - 1;
      NumRaisedCountsChanges(ts[..n]);
      ChangedStep(ts, n);
      assert n !in Changed(ts[..n]);
      hide PrefixMax, Changed;
    }
  }
}
