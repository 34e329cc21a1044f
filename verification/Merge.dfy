// Merging per-stream operations into one trace, as the importer's Builder and
// the checkpoint generator both do it (pkg/importer/build.go:186-201,
// pkg/gen/checkpoint/generate.go:226-257).
module Merge {
  import opened Trace
  import opened TraceContract
  import opened SortedIds

  datatype StreamOp = StreamOp(streamId: int, localIdx: int, op: Op)

  // The order (t, stream, position in the stream).
  predicate LessEq(a: StreamOp, b: StreamOp) {
    if a.op.t != b.op.t then a.op.t < b.op.t
    else if a.streamId != b.streamId then a.streamId < b.streamId
    else a.localIdx <= b.localIdx
  }

  ghost predicate Sorted(xs: seq<StreamOp>) {
    forall i, j :: 0 <= i < j < |xs| ==> LessEq(xs[i], xs[j])
  }

  // slices.SortStableFunc by LessEq. Any sorting routine gives this result on the
  // lists that are merged; see AnySortGivesTheMerge.
  function Insert(x: StreamOp, xs: seq<StreamOp>): seq<StreamOp> {
    if xs == [] || LessEq(x, xs[0]) then [x] + xs else [xs[0]] + Insert(x, xs[1..])
  }

  function Sort(xs: seq<StreamOp>): seq<StreamOp> {
    if xs == [] then [] else Insert(xs[0], Sort(xs[1..]))
  }

  function Ops(xs: seq<StreamOp>): (r: seq<Op>)
    ensures |r| == |xs|
    ensures forall i :: 0 <= i < |xs| ==> r[i] == xs[i].op
  {
    seq(|xs|, i requires 0 <= i < |xs| => xs[i].op)
  }

  function Of(xs: seq<StreamOp>, s: int): seq<StreamOp> {
    if xs == [] then []
    else if xs[0].streamId == s then [xs[0]] + Of(xs[1..], s)
    else Of(xs[1..], s)
  }

  // ----- Sorting loses nothing and orders everything -----

  lemma {:induction false} InsertKeeps(x: StreamOp, xs: seq<StreamOp>)
    ensures multiset(Insert(x, xs)) == multiset{x} + multiset(xs)
  {
    if xs != [] && !LessEq(x, xs[0]) {
      InsertKeeps(x, xs[1..]);
      assert xs == [xs[0]] + xs[1..];
    }
  }

  lemma {:induction false} SortKeeps(xs: seq<StreamOp>)
    ensures multiset(Sort(xs)) == multiset(xs)
  {
    if xs != [] {
      SortKeeps(xs[1..]);
      InsertKeeps(xs[0], Sort(xs[1..]));
      assert xs == [xs[0]] + xs[1..];
    }
  }

  lemma SameMembers(a: seq<StreamOp>, b: seq<StreamOp>)
    requires multiset(a) == multiset(b)
    ensures forall x :: x in a <==> x in b
  {
    assert forall x :: x in a <==> x in multiset(a);
    assert forall x :: x in b <==> x in multiset(b);
  }

  lemma {:induction false} InsertSorts(x: StreamOp, xs: seq<StreamOp>)
    requires Sorted(xs)
    ensures Sorted(Insert(x, xs))
  {
    if xs != [] && !LessEq(x, xs[0]) {
      var tail := Insert(x, xs[1..]);
      InsertSorts(x, xs[1..]);
      InsertKeeps(x, xs[1..]);
      SameMembers(tail, [x] + xs[1..]);
      forall y | y in tail ensures LessEq(xs[0], y) {
        if y != x {
          var k :| 0 <= k < |xs[1..]| && xs[1..][k] == y;
          assert xs[k + 1] == y;
        }
      }
    } else if xs != [] {
      forall k | 0 <= k < |xs| ensures LessEq(x, xs[k]) {
        assert k > 0 ==> LessEq(xs[0], xs[k]);
      }
    }
  }

  lemma {:induction false} SortSorts(xs: seq<StreamOp>)
    ensures Sorted(Sort(xs))
  {
    if xs != [] {
      SortSorts(xs[1..]);
      InsertSorts(xs[0], Sort(xs[1..]));
    }
  }

  lemma FirstIsLeast(xs: seq<StreamOp>, x: StreamOp)
    requires Sorted(xs) && x in xs
    ensures LessEq(xs[0], x)
  {
    var k :| 0 <= k < |xs| && xs[k] == x;
  }

  // No two different elements tie.
  ghost predicate NoTies(xs: seq<StreamOp>) {
    forall x, y :: x in xs && y in xs && LessEq(x, y) && LessEq(y, x) ==> x == y
  }

  lemma SameFirst(a: seq<StreamOp>, b: seq<StreamOp>)
    requires Sorted(a) && Sorted(b) && multiset(a) == multiset(b) && NoTies(a) && a != [] && b != []
    ensures a[0] == b[0]
  {
    hide LessEq;
    SameMembers(a, b);
    assert a[0] in a && b[0] in b;
    FirstIsLeast(a, b[0]);
    FirstIsLeast(b, a[0]);
  }

  lemma WithoutFirst(a: seq<StreamOp>)
    requires a != []
    ensures multiset(a[1..]) == multiset(a) - multiset{a[0]}
    ensures Sorted(a) ==> Sorted(a[1..])
    ensures NoTies(a) ==> NoTies(a[1..])
  {
    hide LessEq;
    assert a == [a[0]] + a[1..];
  }

  lemma {:induction false} SortedArrangementIsUnique(a: seq<StreamOp>, b: seq<StreamOp>)
    requires Sorted(a) && Sorted(b) && multiset(a) == multiset(b) && NoTies(a)
    ensures a == b
  {
    hide Sorted, NoTies;
    assert |a| == |multiset(a)| && |b| == |multiset(b)|;
    if a != [] {
      SameFirst(a, b);
      WithoutFirst(a);
      WithoutFirst(b);
      SortedArrangementIsUnique(a[1..], b[1..]);
      assert a == [a[0]] + a[1..] && b == [b[0]] + b[1..];
    }
  }

  // ----- Each stream keeps its own order -----

  ghost predicate StreamsInOrder(xs: seq<StreamOp>) {
    forall i, j :: 0 <= i < j < |xs| && xs[i].streamId == xs[j].streamId ==> LessEq(xs[i], xs[j])
  }

  lemma {:induction false} InsertKeepsStream(x: StreamOp, xs: seq<StreamOp>, s: int)
    requires forall y :: y in xs && y.streamId == x.streamId ==> LessEq(x, y)
    ensures Of(Insert(x, xs), s) == (if x.streamId == s then [x] else []) + Of(xs, s)
  {
    if xs == [] || LessEq(x, xs[0]) {
      assert ([x] + xs)[1..] == xs;
    } else {
      InsertKeepsStream(x, xs[1..], s);
      var tail := Insert(x, xs[1..]);
      assert ([xs[0]] + tail)[1..] == tail;
      assert xs[0] in xs;
    }
  }

  lemma {:induction false} SortKeepsStream(xs: seq<StreamOp>, s: int)
    requires StreamsInOrder(xs)
    ensures Of(Sort(xs), s) == Of(xs, s)
  {
    if xs != [] {
      var rest := xs[1..];
      SortKeepsStream(rest, s);
      SortKeeps(rest);
      SameMembers(Sort(rest), rest);
      forall y | y in Sort(rest) && y.streamId == xs[0].streamId ensures LessEq(xs[0], y) {
        var k :| 0 <= k < |rest| && rest[k] == y;
        assert xs[k + 1] == y;
      }
      InsertKeepsStream(xs[0], Sort(rest), s);
    }
  }

  lemma OnStreamOne(op: Op, s: int)
    ensures OnStream([op], s) == if op.s == s then [op] else []
    ensures OnStream([], s) == []
  {
    OnStreamSnoc([], op, s);
    assert [] + [op] == [op];
  }

  lemma {:induction false} OfIsOnStream(xs: seq<StreamOp>, s: int)
    requires forall x :: x in xs ==> x.op.s == x.streamId
    ensures OnStream(Ops(xs), s) == Ops(Of(xs, s))
  {
    hide OnStream;
    if xs != [] {
      OfIsOnStream(xs[1..], s);
      assert Ops(xs) == [xs[0].op] + Ops(xs[1..]);
      OnStreamAppend([xs[0].op], Ops(xs[1..]), s);
      OnStreamOne(xs[0].op, s);
      assert xs[0].streamId == s ==> Ops(Of(xs, s)) == [xs[0].op] + Ops(Of(xs[1..], s));
    } else {
      OnStreamOne(BareOp(0, 0, OpOpen), s);
    }
  }

  // ----- Putting the streams' lists together -----

  // Stream s's operations, tagged with their place in it.
  function Tagged(s: int, ops: seq<Op>): (r: seq<StreamOp>)
    ensures |r| == |ops|
    ensures forall i :: 0 <= i < |ops| ==> r[i] == StreamOp(s, i, ops[i])
  {
    seq(|ops|, i requires 0 <= i < |ops| => StreamOp(s, i, ops[i]))
  }

  // The streams ids[0], ids[1], ... one after another.
  function Joined(ids: seq<int>, streams: map<int, seq<Op>>): seq<StreamOp>
    requires forall s :: s in ids ==> s in streams
  {
    if ids == [] then []
    else Joined(ids[..|ids|-1], streams) + Tagged(ids[|ids|-1], streams[ids[|ids|-1]])
  }

  lemma {:induction false} OfAppend(a: seq<StreamOp>, b: seq<StreamOp>, s: int)
    ensures Of(a + b, s) == Of(a, s) + Of(b, s)
  {
    if a == [] {
      assert a + b == b;
    } else {
      assert (a + b)[1..] == a[1..] + b;
      OfAppend(a[1..], b, s);
    }
  }

  lemma {:induction false} OfUniform(xs: seq<StreamOp>, owner: int, s: int)
    requires forall x :: x in xs ==> x.streamId == owner
    ensures Of(xs, s) == if owner == s then xs else []
  {
    if xs != [] {
      OfUniform(xs[1..], owner, s);
    }
  }

  lemma {:induction false} JoinedOf(ids: seq<int>, streams: map<int, seq<Op>>, s: int)
    requires Distinct(ids) && forall id :: id in ids ==> id in streams
    ensures Of(Joined(ids, streams), s) == if s in ids then Tagged(s, streams[s]) else []
    ensures forall x :: x in Joined(ids, streams) ==> x.streamId in ids
  {
    if ids != [] {
      var front, last := ids[..|ids|-1], ids[|ids|-1];
      JoinedOf(front, streams, s);
      OfAppend(Joined(front, streams), Tagged(last, streams[last]), s);
      OfUniform(Tagged(last, streams[last]), last, s);
      assert ids == front + [last];
      assert s in ids <==> s in front || s == last;
    }
  }

  lemma {:induction false} JoinedMembers(ids: seq<int>, streams: map<int, seq<Op>>)
    requires forall id :: id in ids ==> id in streams
    ensures forall x :: x in Joined(ids, streams) ==>
              x.streamId in ids && 0 <= x.localIdx < |streams[x.streamId]| && x.op == streams[x.streamId][x.localIdx]
  {
    if ids != [] {
      JoinedMembers(ids[..|ids|-1], streams);
    }
  }

  // Stream and position identify an element, so the merge order is total on what
  // is merged, and however it is sorted the result is the same.
  lemma JoinedNoTies(ids: seq<int>, streams: map<int, seq<Op>>)
    requires forall id :: id in ids ==> id in streams
    ensures NoTies(Joined(ids, streams))
  {
    JoinedMembers(ids, streams);
  }

  lemma AnySortGivesTheMerge(ids: seq<int>, streams: map<int, seq<Op>>, arranged: seq<StreamOp>)
    requires forall id :: id in ids ==> id in streams
    requires Sorted(arranged) && multiset(arranged) == multiset(Joined(ids, streams))
    ensures arranged == Sort(Joined(ids, streams))
  {
    var joined := Joined(ids, streams);
    JoinedNoTies(ids, streams);
    SortSorts(joined);
    SortKeeps(joined);
    hide Sort, Joined, LessEq;
    SameMembers(arranged, joined);
    SortedArrangementIsUnique(arranged, Sort(joined));
  }

  lemma {:induction false} JoinedInOrder(ids: seq<int>, streams: map<int, seq<Op>>)
    requires Distinct(ids) && forall id :: id in ids ==> id in streams && TimesOk(streams[id])
    ensures StreamsInOrder(Joined(ids, streams))
  {
    if ids != [] {
      var front, last := ids[..|ids|-1], ids[|ids|-1];
      var a, b := Joined(front, streams), Tagged(last, streams[last]);
      JoinedInOrder(front, streams);
      JoinedMembers(front, streams);
      var all := a + b;
      forall i, j | 0 <= i < j < |all| && all[i].streamId == all[j].streamId ensures LessEq(all[i], all[j]) {
        assert i < |a| ==> a[i] in a;
        assert j < |a| ==> LessEq(a[i], a[j]);
      }
    }
  }

  // The merged operations of all streams.
  function Merged(ids: seq<int>, streams: map<int, seq<Op>>): seq<Op>
    requires forall s :: s in ids ==> s in streams
  {
    Ops(Sort(Joined(ids, streams)))
  }

  ghost predicate StreamsLabelled(streams: map<int, seq<Op>>) {
    forall s, i :: s in streams && 0 <= i < |streams[s]| ==> streams[s][i].s == s
  }

  // Merging is an interleaving: globally ordered by time, and each stream's
  // operations are exactly its own, in its own order.
  lemma MergedInTime(ids: seq<int>, streams: map<int, seq<Op>>)
    requires forall id :: id in ids ==> id in streams
    ensures TimesOk(Merged(ids, streams))
  {
    SortSorts(Joined(ids, streams));
  }

  lemma MergedKeepsStream(ids: seq<int>, streams: map<int, seq<Op>>, s: int)
    requires Distinct(ids) && forall id :: id in ids ==> id in streams && TimesOk(streams[id])
    requires StreamsLabelled(streams)
    ensures OnStream(Merged(ids, streams), s) == if s in ids then streams[s] else []
  {
    var joined := Joined(ids, streams);
    SortKeeps(joined);
    SameMembers(Sort(joined), joined);
    JoinedMembers(ids, streams);
    JoinedInOrder(ids, streams);
    hide Sort, StreamsInOrder, TimesOk;
    SortKeepsStream(joined, s);
    JoinedOf(ids, streams, s);
    OfIsOnStream(Sort(joined), s);
  }

  lemma MergedMembers(ids: seq<int>, streams: map<int, seq<Op>>, op: Op)
    requires forall id :: id in ids ==> id in streams
    requires op in Merged(ids, streams)
    ensures exists s :: s in ids && op in streams[s]
  {
    var joined := Joined(ids, streams);
    SortKeeps(joined);
    SameMembers(Sort(joined), joined);
    JoinedMembers(ids, streams);
    var k :| 0 <= k < |Sort(joined)| && Sort(joined)[k].op == op;
    assert Sort(joined)[k] in joined;
    assert op in streams[Sort(joined)[k].streamId];
  }

  // ----- The merged trace is well formed -----

  ghost predicate StreamsSound(h: Header, streams: map<int, seq<Op>>) {
    && StreamsLabelled(streams)
    && (forall s :: s in streams ==> streams[s] != [] && TimesOk(streams[s]) && StreamHandlesOk(streams[s]))
    && (forall s, op :: s in streams && op in streams[s] ==> ShapeOk(h, op))
    && (forall s, s' :: s in streams && s' in streams && s != s' ==> Opened(streams[s]) !! Opened(streams[s']))
  }

  lemma MergedHandlesOk(h: Header, ids: seq<int>, streams: map<int, seq<Op>>)
    requires Distinct(ids) && (forall s :: s in ids <==> s in streams) && StreamsSound(h, streams)
    ensures HandlesOk(Merged(ids, streams))
  {
    var ops := Merged(ids, streams);
    forall s ensures OnStream(ops, s) == if s in streams then streams[s] else [] {
      MergedKeepsStream(ids, streams, s);
    }
    hide Merged;
    assert StreamHandlesOk([]);
    HandlesOkFromStreams(ops);
  }

  lemma MergedStreamIds(h: Header, ids: seq<int>, streams: map<int, seq<Op>>)
    requires Distinct(ids) && (forall s :: s in ids <==> s in streams) && StreamsSound(h, streams)
    ensures StreamIds(Merged(ids, streams)) == streams.Keys
  {
    var ops := Merged(ids, streams);
    forall s | s in streams ensures s in StreamIds(ops) {
      MergedKeepsStream(ids, streams, s);
      OnStreamOps(ops, s);
      assert streams[s][0] in OnStream(ops, s);
    }
    forall op | op in ops ensures op.s in streams {
      MergedMembers(ids, streams, op);
    }
  }

  lemma MergedIsClean(h: Header, ids: seq<int>, streams: map<int, seq<Op>>)
    requires Distinct(ids) && (forall s :: s in ids <==> s in streams) && StreamsSound(h, streams)
    requires HeaderOk(h) && SummaryAgrees(h.summary, Merged(ids, streams))
    ensures CleanTrace(h, Renumber(Merged(ids, streams)))
  {
    var ops := Merged(ids, streams);
    var out := Renumber(ops);
    MergedInTime(ids, streams);
    assert TimesOk(out);
    RenumberedIdsOk(ops);
    MergedHandlesOk(h, ids, streams);
    RenumberKeepsHandles(ops);
    RenumberKeepsSums(ops);
    forall i | 0 <= i < |out| ensures ShapeOk(h, out[i]) {
      assert ops[i] in ops;
      MergedMembers(ids, streams, ops[i]);
      assert ShapeOk(h, ops[i]);
    }
  }

  // ----- Merging moves the bytes of its streams -----

  lemma BytesOfOne(op: Op)
    ensures TotalBytes([op]) == if op.kind.CountsBytes() then op.Moved() else 0
  {
    SumsSnoc([], op);
    assert [] + [op] == [op];
  }

  lemma {:induction false} InsertKeepsBytes(x: StreamOp, xs: seq<StreamOp>)
    ensures TotalBytes(Ops(Insert(x, xs))) == TotalBytes([x.op]) + TotalBytes(Ops(xs))
  {
    hide TotalBytes, LessEq;
    if xs == [] || LessEq(x, xs[0]) {
      assert Ops([x] + xs) == [x.op] + Ops(xs);
      TotalBytesAppend([x.op], Ops(xs));
    } else {
      InsertKeepsBytes(x, xs[1..]);
      assert Ops(xs) == [xs[0].op] + Ops(xs[1..]);
      assert Ops([xs[0]] + Insert(x, xs[1..])) == [xs[0].op] + Ops(Insert(x, xs[1..]));
      TotalBytesAppend([xs[0].op], Ops(xs[1..]));
      TotalBytesAppend([xs[0].op], Ops(Insert(x, xs[1..])));
    }
  }

  lemma {:induction false} SortKeepsBytes(xs: seq<StreamOp>)
    ensures TotalBytes(Ops(Sort(xs))) == TotalBytes(Ops(xs))
  {
    hide TotalBytes;
    if xs != [] {
      SortKeepsBytes(xs[1..]);
      InsertKeepsBytes(xs[0], Sort(xs[1..]));
      assert Ops(xs) == [xs[0].op] + Ops(xs[1..]);
      TotalBytesAppend([xs[0].op], Ops(xs[1..]));
    }
  }

  lemma NoBytes()
    ensures TotalBytes([]) == 0
  {
  }

  lemma OpsAppend(a: seq<StreamOp>, b: seq<StreamOp>)
    ensures Ops(a + b) == Ops(a) + Ops(b)
  {
  }

  function BytesOfStreams(ids: seq<int>, streams: map<int, seq<Op>>): int
    requires forall s :: s in ids ==> s in streams
  {
    if ids == [] then 0
    else
      var last := ids[|ids|-1];
      assert last in ids;
      BytesOfStreams(ids[..|ids|-1], streams) + TotalBytes(streams[last])
  }

  lemma {:induction false} JoinedBytes(ids: seq<int>, streams: map<int, seq<Op>>)
    requires forall s :: s in ids ==> s in streams
    ensures TotalBytes(Ops(Joined(ids, streams))) == BytesOfStreams(ids, streams)
  {
    hide TotalBytes;
    if ids == [] {
      NoBytes();
    } else {
      var front, last := ids[..|ids|-1], ids[|ids|-1];
      assert ids == front + [last] && last in ids;
      JoinedBytes(front, streams);
      OpsAppend(Joined(front, streams), Tagged(last, streams[last]));
      assert Ops(Tagged(last, streams[last])) == streams[last];
      TotalBytesAppend(Ops(Joined(front, streams)), streams[last]);
    }
  }

  lemma MergedBytes(ids: seq<int>, streams: map<int, seq<Op>>)
    requires forall s :: s in ids ==> s in streams
    ensures TotalBytes(Merged(ids, streams)) == BytesOfStreams(ids, streams)
  {
    SortKeepsBytes(Joined(ids, streams));
    JoinedBytes(ids, streams);
  }
}
