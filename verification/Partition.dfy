// Dividing a trace's streams among workers (pkg/cluster/coordinator.go:326-364):
// every operation is replayed by exactly one worker, in trace order.
module Partition {
  import opened Trace
  import opened SortedIds
  import opened Arithmetic
  import Replay

  // The distinct stream ids of a trace, ascending.
  method ParseTraceStreams(ops: seq<Op>) returns (ids: seq<int>)
    ensures ids == SortIds(StreamIds(ops))
  {
    var seen: set<int> := {};
    var found: seq<int> := [];
    for i := 0 to |ops|
      invariant seen == StreamIds(ops[..i]) == set s <- found
    {
      assert ops[..i+1] == ops[..i] + [ops[i]];
      if ops[i].s !in seen {
        seen := seen + {ops[i].s};
        found := found + [ops[i].s];
      }
    }
    assert ops[..|ops|] == ops;
    ids := SortIds(set s <- found);
  }

  // Worker w of n's share of ids dealt out in turn.
  function Dealt(ids: seq<int>, w: nat, n: nat): (r: seq<int>)
    requires n > 0
  {
    if ids == [] then []
    else Dealt(ids[..|ids|-1], w, n) + if (|ids| - 1) % n == w then [ids[|ids|-1]] else []
  }

  method PartitionStreams(ids: seq<int>, n: nat) returns (out: array<seq<int>>)
    requires n > 0
    ensures fresh(out) && out.Length == n
    ensures forall w :: 0 <= w < n ==> out[w] == Dealt(ids, w, n)
  {
    out := new seq<int>[n](_ => []);
    for i := 0 to |ids|
      invariant forall w :: 0 <= w < n ==> out[w] == Dealt(ids[..i], w, n)
    {
      var w := i % n;
      assert ids[..i+1][..i] == ids[..i];
      out[w] := out[w] + [ids[i]];
    }
    assert ids[..|ids|] == ids;
  }

  // The worker that position i is dealt to.
  function Dealer(i: nat, n: nat): nat
    requires n > 0
  {
    i % n
  }

  lemma {:induction false} DealtMembers(ids: seq<int>, w: nat, n: nat)
    requires n > 0
    ensures forall id :: id in Dealt(ids, w, n) <==> exists i :: 0 <= i < |ids| && ids[i] == id && Dealer(i, n) == w
  {
    if ids != [] {
      var k := |ids| - 1;
      var front := ids[..k];
      DealtMembers(front, w, n);
      forall id
        ensures id in Dealt(ids, w, n) <==> exists i :: 0 <= i < |ids| && ids[i] == id && Dealer(i, n) == w
      {
        if id in Dealt(front, w, n) {
          var i :| 0 <= i < |front| && front[i] == id && Dealer(i, n) == w;
          assert ids[i] == id;
        }
        if i :| 0 <= i < |ids| && ids[i] == id && Dealer(i, n) == w {
          assert i < k ==> front[i] == id;
        }
      }
    }
  }

  // How many of the first k positions are dealt to worker w.
  function ShareSize(k: nat, w: nat, n: nat): int
    requires w < n
  {
    (k + n - 1 - w) / n
  }

  // No worker has more than one stream above another's share.
  lemma {:induction false} SharesAreEven(ids: seq<int>, w: nat, n: nat)
    requires w < n
    ensures |Dealt(ids, w, n)| == ShareSize(|ids|, w, n)
  {
    if ids == [] {
      QuotientRemainder(n - 1 - w, n, 0, n - 1 - w);
    } else {
      var k := |ids| - 1;
      SharesAreEven(ids[..k], w, n);
      NextShare(k, w, n);
      hide ShareSize;
    }
  }

  lemma NextShare(k: nat, w: nat, n: nat)
    requires w < n
    ensures ShareSize(k + 1, w, n) == ShareSize(k, w, n) + if k % n == w then 1 else 0
  {
    var q, r := k / n, k % n;
    assert k == n * q + r;
    if r < w {
      QuotientRemainder(k + n - 1 - w, n, q, r + n - 1 - w);
      QuotientRemainder(k + n - w, n, q, r + n - w);
    } else if r == w {
      QuotientRemainder(k + n - 1 - w, n, q, n - 1);
      assert k + n - w == n * (q + 1) + 0;
      QuotientRemainder(k + n - w, n, q + 1, 0);
    } else {
      assert k + n - 1 - w == n * (q + 1) + (r - 1 - w);
      QuotientRemainder(k + n - 1 - w, n, q + 1, r - 1 - w);
      assert k + n - w == n * (q + 1) + (r - w);
      QuotientRemainder(k + n - w, n, q + 1, r - w);
    }
  }

  lemma QuotientAtLeast(y: int, n: int, k: int)
    requires n > 0
    ensures y / n >= k <==> y >= k * n
  {
    var q, r := y / n, y % n;
    assert y == n * q + r;
    ProductAtLeast(n, q - k);
    assert n * (q - k) == n * q - k * n;
  }

  // Worker w's share is the ids at positions w, w + n, w + 2n, and so on.
  lemma {:induction false} DealtInTurn(ids: seq<int>, w: nat, n: nat, k: nat)
    requires w < n
    ensures k < |Dealt(ids, w, n)| <==> w + k * n < |ids|
    ensures k < |Dealt(ids, w, n)| ==> Dealt(ids, w, n)[k] == ids[w + k * n]
  {
    SharesAreEven(ids, w, n);
    QuotientAtLeast(|ids| + n - 1 - w, n, k + 1);
    assert (k + 1) * n == k * n + n;
    assert k * n >= 0;
    if k < |Dealt(ids, w, n)| {
      var m := |ids| - 1;
      DealtInTurn(ids[..m], w, n, k);
      SharesAreEven(ids[..m], w, n);
      if k == |Dealt(ids[..m], w, n)| {
        LastTurn(m, w, n);
      }
    }
  }

  lemma LastTurn(m: nat, w: nat, n: nat)
    requires w < n && m % n == w
    ensures w + ShareSize(m, w, n) * n == m
  {
    var q := m / n;
    assert m == n * q + w;
    QuotientRemainder(m + n - 1 - w, n, q, n - 1);
  }

  // ----- Exactly once -----

  ghost predicate Assigned(ids: seq<int>, n: nat, w: nat, s: int)
    requires n > 0
  {
    w < n && s in Dealt(ids, w, n)
  }

  ghost predicate ExactlyOne(ids: seq<int>, n: nat, s: int)
    requires n > 0
  {
    && (exists w :: Assigned(ids, n, w, s))
    && (forall w, v :: Assigned(ids, n, w, s) && Assigned(ids, n, v, s) ==> w == v)
  }

  lemma ListedOnce(ids: seq<int>, n: nat, s: int)
    requires n > 0 && Distinct(ids) && s in ids
    ensures ExactlyOne(ids, n, s)
  {
    var i :| 0 <= i < |ids| && ids[i] == s;
    DealtMembers(ids, Dealer(i, n), n);
    assert Assigned(ids, n, Dealer(i, n), s);
    forall w, v | Assigned(ids, n, w, s) && Assigned(ids, n, v, s) ensures w == v {
      DealtMembers(ids, w, n);
      DealtMembers(ids, v, n);
      var j :| 0 <= j < |ids| && ids[j] == s && Dealer(j, n) == w;
      var k :| 0 <= k < |ids| && ids[k] == s && Dealer(k, n) == v;
      assert j == k;
    }
  }

  // Each operation of the trace belongs to exactly one worker's streams, and a
  // worker is given no stream the trace does not have.
  lemma EveryOpExactlyOnce(ops: seq<Op>, n: nat)
    requires n > 0
    ensures forall op :: op in ops ==> ExactlyOne(SortIds(StreamIds(ops)), n, op.s)
    ensures forall w, s :: Assigned(SortIds(StreamIds(ops)), n, w, s) ==> s in StreamIds(ops)
  {
    var ids := SortIds(StreamIds(ops));
    SortIdsLists(StreamIds(ops));
    forall op | op in ops ensures ExactlyOne(ids, n, op.s) {
      assert op.s in ids;
      ListedOnce(ids, n, op.s);
    }
    forall w, s | Assigned(ids, n, w, s) ensures s in StreamIds(ops) {
      DealtMembers(ids, w, n);
    }
  }

  // What one worker keeps of the trace: the streams dealt to it, each whole and
  // in trace order.
  method WorkerStreams(ops: seq<Op>, ids: seq<int>, w: nat, n: nat) returns (byStream: map<int, seq<Op>>)
    requires w < n && ids == SortIds(StreamIds(ops))
    ensures forall s :: s in byStream <==> Assigned(ids, n, w, s)
    ensures forall s :: s in byStream ==> byStream[s] == OnStream(ops, s)
  {
    EveryOpExactlyOnce(ops, n);
    var assignments := PartitionStreams(ids, n);
    byStream := Replay.GroupByStream(ops, set s <- assignments[w]);
  }
}
