// The importer's Builder (pkg/importer/build.go): interns targets, collects
// operations by stream, and writes one merged, validated trace.
module Builder {
  import opened Trace
  import opened TraceContract
  import opened Merge
  import opened SortedIds
  import Clamp
  import Validator

  datatype HeaderMeta = HeaderMeta(kind: TraceKind, captureMethod: CaptureMethod, captureLimitations: string)

  // Why an operation was skipped or recorded with a loss; each stands for the
  // string the report counts it under.
  datatype Reason =
    | UnparsedLine | FailedOpen | UnresolvedDirfd | UnresolvedFd | FailedSyscall
    | EofRead | AppendWriteUnmodeled | UnfinishedDropped | RequestedLenUnobservable
    | OtherReason(name: string)

  datatype Written = Written(header: Header, ops: seq<Op>) | Invalid

  // ----- What WriteTo computes, as functions of the collected streams -----

  function Times(ops: seq<Op>): (r: seq<int>)
    ensures |r| == |ops| && forall i :: 0 <= i < |ops| ==> r[i] == ops[i].t
  {
    seq(|ops|, i requires 0 <= i < |ops| => ops[i].t)
  }

  function Retimed(ops: seq<Op>, ts: seq<int>): (r: seq<Op>)
    requires |ops| == |ts|
    ensures |r| == |ops| && forall i :: 0 <= i < |ops| ==> r[i] == ops[i].(t := ts[i])
  {
    seq(|ops|, i requires 0 <= i < |ops| => ops[i].(t := ts[i]))
  }

  function Rebased(ops: seq<Op>, minT: int): seq<int> {
    seq(|ops|, i requires 0 <= i < |ops| => ops[i].t - minT)
  }

  // A stream after rebasing and clamping.
  function Timed(ops: seq<Op>, minT: int): seq<Op> {
    Retimed(ops, Clamp.PrefixMax(Rebased(ops, minT)))
  }

  function StreamMin(ops: seq<Op>): Option<int> {
    if ops == [] then None
    else
      match StreamMin(ops[..|ops|-1])
      case None => Some(ops[|ops|-1].t)
      case Some(m) => Some(if ops[|ops|-1].t < m then ops[|ops|-1].t else m)
  }

  function Lower(a: Option<int>, b: Option<int>): Option<int> {
    if a.None? then b else if b.None? then a else if b.value < a.value then b else a
  }

  // The earliest timestamp of all streams; None when there are no operations.
  function MinTime(ids: seq<int>, streams: map<int, seq<Op>>): Option<int>
    requires forall s :: s in ids ==> s in streams
  {
    if ids == [] then None
    else
      var last := ids[|ids|-1];
      assert last in ids;
      Lower(MinTime(ids[..|ids|-1], streams), StreamMin(streams[last]))
  }

  // An operation of some listed stream happened at m, and none before it.
  ghost predicate Earliest(m: Option<int>, ids: seq<int>, streams: map<int, seq<Op>>)
    requires forall s :: s in ids ==> s in streams
  {
    && (m.Some? ==> exists s :: s in ids && HappenedAt(m.value, streams[s]))
    && (forall s :: s in ids ==> NotAfter(m, streams[s]))
  }

  ghost predicate HappenedAt(t: int, ops: seq<Op>) {
    exists i :: 0 <= i < |ops| && ops[i].t == t
  }

  ghost predicate NotAfter(m: Option<int>, ops: seq<Op>) {
    forall i :: 0 <= i < |ops| ==> m.Some? && m.value <= ops[i].t
  }

  lemma {:induction false} StreamMinIsEarliest(ops: seq<Op>)
    ensures StreamMin(ops).Some? ==> HappenedAt(StreamMin(ops).value, ops)
    ensures NotAfter(StreamMin(ops), ops)
  {
    if ops != [] {
      var n := |ops| - 1;
      StreamMinIsEarliest(ops[..n]);
      var m, early := StreamMin(ops), StreamMin(ops[..n]);
      forall i | 0 <= i < |ops| ensures m.value <= ops[i].t {
        assert i < n ==> early.Some? && early.value <= ops[..n][i].t;
      }
      if m.value != ops[n].t {
        var i :| 0 <= i < n && ops[..n][i].t == m.value;
        assert ops[i].t == m.value;
      }
    }
  }

  lemma LowerIsEarlier(a: Option<int>, b: Option<int>, ops: seq<Op>)
    ensures NotAfter(a, ops) || NotAfter(b, ops) ==> NotAfter(Lower(a, b), ops)
  {
  }

  // The least timestamp is one that occurs, and no operation is before it.
  lemma {:induction false} MinTimeIsEarliest(ids: seq<int>, streams: map<int, seq<Op>>)
    requires forall s :: s in ids ==> s in streams
    ensures Earliest(MinTime(ids, streams), ids, streams)
  {
    hide HappenedAt, NotAfter;
    if ids != [] {
      var front, last := ids[..|ids|-1], ids[|ids|-1];
      assert ids == front + [last] && last in ids;
      MinTimeIsEarliest(front, streams);
      StreamMinIsEarliest(streams[last]);
      var m, early, own := MinTime(ids, streams), MinTime(front, streams), StreamMin(streams[last]);
      forall s | s in ids ensures NotAfter(m, streams[s]) {
        LowerIsEarlier(early, own, streams[s]);
      }
      if m.Some? && m != own {
        var s :| s in front && HappenedAt(early.value, streams[s]);
        assert s in ids;
      }
    }
  }

  function AllTimed(streams: map<int, seq<Op>>, minT: int): (r: map<int, seq<Op>>)
    ensures r.Keys == streams.Keys
  {
    map s | s in streams :: Timed(streams[s], minT)
  }

  function Raised(ids: seq<int>, streams: map<int, seq<Op>>, minT: int): nat
    requires forall s :: s in ids ==> s in streams
  {
    if ids == [] then 0
    else
      var last := ids[|ids|-1];
      assert last in ids;
      Raised(ids[..|ids|-1], streams, minT) + Clamp.NumRaised(Rebased(streams[last], minT))
  }

  function LastTime(ops: seq<Op>): int {
    if ops == [] then 0 else ops[|ops|-1].t
  }

  function HeaderOf(meta: HeaderMeta, targets: seq<TargetInfo>, ops: seq<Op>, numStreams: int): Header {
    Header(MinVersionForOps(ops), meta.kind, TIME_UNIT_NANOSECONDS, meta.captureMethod, meta.captureLimitations,
           targets,
           Summary(|ops|, numStreams, 0, TotalBytes(ops), LastTime(ops), NumPartial(ops)),
           [])
  }

  // The whole of WriteTo's output for the collected streams and targets.
  function Assembled(meta: HeaderMeta, targets: seq<TargetInfo>, streams: map<int, seq<Op>>): (r: Written)
    ensures r.Written?
  {
    SortIdsLists(streams.Keys);
    var ids := SortIds(streams.Keys);
    var timed := AllTimed(streams, MinTime(ids, streams).GetOr(0));
    var ops := Renumber(Merged(ids, timed));
    Written(HeaderOf(meta, targets, ops, |ids|), ops)
  }

  lemma AssembledIs(meta: HeaderMeta, targets: seq<TargetInfo>, streams: map<int, seq<Op>>, ids: seq<int>)
    requires ids == SortIds(streams.Keys) && forall s :: s in ids ==> s in streams
    requires forall s :: s in ids ==> s in AllTimed(streams, MinTime(ids, streams).GetOr(0))
    ensures var ops := Renumber(Ops(Sort(Joined(ids, AllTimed(streams, MinTime(ids, streams).GetOr(0))))));
            Assembled(meta, targets, streams) == Written(HeaderOf(meta, targets, ops, |ids|), ops)
  {
  }

  // ----- The class -----

  class Builder {
    var targets: seq<TargetInfo>
    var targetIdx: map<string, int>
    var perStream: map<int, seq<StreamOp>>
    var skippedOps: int
    var timestampClamped: int
    var skippedReasons: map<Reason, int>
    var lossy: map<Reason, int>

    function Streams(): map<int, seq<Op>>
      reads this
    {
      map s | s in perStream :: Ops(perStream[s])
    }

    // The target table is exactly the interned names, each at its own index.
    ghost predicate TargetsInterned()
      reads this
    {
      && (forall i :: 0 <= i < |targets| ==>
            && targets[i].id == i && targets[i].size == 0
            && targets[i].name in targetIdx && targetIdx[targets[i].name] == i)
      && (forall name :: name in targetIdx ==>
            0 <= targetIdx[name] < |targets| && targets[targetIdx[name]].name == name)
    }

    ghost predicate Valid()
      reads this
    {
      && TargetsInterned()
      && (forall s :: s in perStream ==> perStream[s] != [] && perStream[s] == Tagged(s, Ops(perStream[s])))
      && StreamsLabelled(Streams())
    }

    constructor ()
      ensures Valid() && targets == [] && Streams() == map[]
      ensures targetIdx == map[] && skippedReasons == map[] && lossy == map[]
      ensures timestampClamped == 0 && skippedOps == 0
    {
      targets, targetIdx, perStream := [], map[], map[];
      skippedOps, timestampClamped := 0, 0;
      skippedReasons, lossy := map[], map[];
    }

    // Repeated names keep the first id and the first kind.
    method Target(name: string, kind: TargetKind) returns (id: int)
      requires Valid()
      modifies this`targets, this`targetIdx
      ensures Valid()
      ensures 0 <= id < |targets| && targets[id].name == name
      ensures if name in old(targetIdx) then targets == old(targets) && targetIdx == old(targetIdx)
              else targets == old(targets) + [TargetInfo(id, name, kind, 0)]
                   && targetIdx == old(targetIdx)[name := id] && id == |old(targets)|
    {
      if name in targetIdx {
        return targetIdx[name];
      }
      id := |targets|;
      targetIdx := targetIdx[name := id];
      targets := targets + [TargetInfo(id, name, kind, 0)];
    }

    method Add(op: Op)
      requires Valid()
      modifies this`perStream
      ensures Valid()
      ensures Streams() == Appended(old(Streams()), op)
    {
      var s := op.s;
      ghost var before := Streams();
      var mine := if s in perStream then perStream[s] else [];
      perStream := perStream[s := mine + [StreamOp(s, |mine|, op)]];
      assert Ops(perStream[s]) == Ops(mine) + [op];
      assert Streams() == Appended(before, op);
    }

    method Skip(reason: Reason)
      requires Valid()
      modifies this`skippedReasons, this`skippedOps
      ensures Valid() && skippedOps == old(skippedOps) + 1
      ensures skippedReasons == Counted(old(skippedReasons), reason)
    {
      skippedReasons := Counted(skippedReasons, reason);
      skippedOps := skippedOps + 1;
    }

    method Note(reason: Reason)
      requires Valid()
      modifies this`lossy
      ensures Valid() && lossy == Counted(old(lossy), reason)
    {
      lossy := Counted(lossy, reason);
    }

    // The smallest timestamp across the listed streams.
    method MinTimestamp(ids: seq<int>) returns (min: int, found: bool)
      requires Valid() && forall s :: s in ids ==> s in perStream
      ensures !found ==> min == 0
      ensures forall s :: s in ids ==> s in Streams()
      ensures MinTime(ids, Streams()) == if found then Some(min) else None
      ensures Earliest(if found then Some(min) else None, ids, Streams())
    {
      min, found := 0, false;
      for k := 0 to |ids|
        invariant !found ==> min == 0
        invariant MinTime(ids[..k], Streams()) == if found then Some(min) else None
      {
        var s := ids[k];
        assert s in ids;
        var ops := perStream[s];
        ghost var before := MinTime(ids[..k], Streams());
        for i := 0 to |ops|
          invariant !found ==> min == 0
          invariant Lower(before, StreamMin(Ops(ops)[..i])) == if found then Some(min) else None
        {
          assert Ops(ops)[..i+1][..i] == Ops(ops)[..i];
          if !found || ops[i].op.t < min {
            min, found := ops[i].op.t, true;
          }
        }
        assert Ops(ops)[..|ops|] == Ops(ops);
        assert ids[..k+1][..k] == ids[..k];
      }
      assert ids[..|ids|] == ids;
      MinTimeIsEarliest(ids, Streams());
    }

    // Rebases and clamps every listed stream in place.
    method RebaseAndClamp(ids: seq<int>, minT: int, haveMin: bool)
      requires Valid() && Distinct(ids) && forall s :: s in ids <==> s in perStream
      requires !haveMin ==> minT == 0
      modifies this`perStream, this`timestampClamped
      ensures Valid() && Streams() == AllTimed(old(Streams()), minT)
      ensures timestampClamped == old(timestampClamped) + Raised(ids, old(Streams()), minT)
    {
      hide Valid, Timed, Rebased, TimedUpTo;
      ghost var start := Streams();
      NothingTimed(start, minT);
      for k := 0 to |ids|
        invariant Valid() && Streams() == TimedUpTo(start, ids[..k], minT)
        invariant forall j :: 0 <= j < k ==> ids[j] in start
        invariant timestampClamped == old(timestampClamped) + Raised(ids[..k], start, minT)
      {
        var s := ids[k];
        assert s in ids && s in start && s !in ids[..k];
        TimedUpToStep(start, ids[..k], s, minT);
        RaisedStep(start, ids[..k], s, minT);
        RetimeStream(s, minT, haveMin);
        assert ids[..k+1] == ids[..k] + [s];
      }
      assert ids[..|ids|] == ids;
      EverythingTimed(start, ids, minT);
    }

    method RetimeStream(s: int, minT: int, haveMin: bool)
      requires Valid() && s in Streams()
      requires !haveMin ==> minT == 0
      modifies this`perStream, this`timestampClamped
      ensures Valid() && Streams() == old(Streams())[s := Timed(old(Streams())[s], minT)]
      ensures timestampClamped == old(timestampClamped) + Clamp.NumRaised(Rebased(old(Streams())[s], minT))
    {
      ghost var before := Streams();
      var ops, raised := ClampStream(perStream[s], minT, haveMin);
      perStream := perStream[s := ops];
      timestampClamped := timestampClamped + raised;
      assert ops == Tagged(s, Ops(ops));
      assert Streams() == before[s := Ops(ops)];
    }

    lemma StreamsAreTagged()
      requires Valid()
      ensures Streams().Keys == perStream.Keys
      ensures forall s :: s in perStream ==> perStream[s] == Tagged(s, Ops(perStream[s]))
    {
    }

    // On any validation error nothing is written.
    method WriteTo(meta: HeaderMeta) returns (r: Written)
      requires Valid()
      modifies this`perStream, this`timestampClamped
      ensures Valid()
      ensures var all := Assembled(meta, targets, old(Streams()));
              r == if CleanTrace(all.header, all.ops) then all else Invalid
      ensures var ids := SortIds(old(Streams()).Keys);
              && (forall s :: s in ids ==> s in old(Streams()))
              && var minT := MinTime(ids, old(Streams())).GetOr(0);
                 && Streams() == AllTimed(old(Streams()), minT)
                 && timestampClamped == old(timestampClamped) + Raised(ids, old(Streams()), minT)
    {
      hide CleanTrace, Joined, Sort, AllTimed, SortIds, MinTime, Raised, HeaderOf, Valid, Earliest, Merged, Assembled;
      ghost var before := Streams();
      assert before.Keys == perStream.Keys;
      SortIdsLists(perStream.Keys);
      var ids := SortIds(perStream.Keys);
      var minT, haveMin := MinTimestamp(ids);
      RebaseAndClamp(ids, minT, haveMin);
      StreamsAreTagged();
      var all := JoinStreams(ids, perStream);
      var hdr, ops := Assemble(meta, targets, Sort(all), |ids|);
      AssembledIs(meta, targets, before, ids);
      var rep := Validator.ValidateWithOps(hdr, ops);
      r := if rep.OK() then Written(hdr, ops) else Invalid;
    }
  }

  function TimedUpTo(streams: map<int, seq<Op>>, done: seq<int>, minT: int): map<int, seq<Op>> {
    map s | s in streams :: if s in done then Timed(streams[s], minT) else streams[s]
  }

  lemma NothingTimed(streams: map<int, seq<Op>>, minT: int)
    ensures TimedUpTo(streams, [], minT) == streams
  {
  }

  lemma EverythingTimed(streams: map<int, seq<Op>>, ids: seq<int>, minT: int)
    requires forall s :: s in streams ==> s in ids
    ensures TimedUpTo(streams, ids, minT) == AllTimed(streams, minT)
  {
    var a, b := TimedUpTo(streams, ids, minT), AllTimed(streams, minT);
    assert a.Keys == b.Keys;
    forall s | s in a ensures a[s] == b[s] {
      assert s in streams && s in ids;
    }
  }

  lemma TimedUpToStep(streams: map<int, seq<Op>>, done: seq<int>, s: int, minT: int)
    requires s in streams && s !in done
    ensures s in TimedUpTo(streams, done, minT) && TimedUpTo(streams, done, minT)[s] == streams[s]
    ensures TimedUpTo(streams, done + [s], minT)
            == TimedUpTo(streams, done, minT)[s := Timed(streams[s], minT)]
  {
  }

  lemma RaisedStep(streams: map<int, seq<Op>>, done: seq<int>, s: int, minT: int)
    requires s in streams && forall x :: x in done ==> x in streams
    ensures Raised(done + [s], streams, minT)
            == Raised(done, streams, minT) + Clamp.NumRaised(Rebased(streams[s], minT))
  {
    assert (done + [s])[..|done|] == done;
  }

  // Concatenates the listed streams.
  method JoinStreams(ids: seq<int>, perStream: map<int, seq<StreamOp>>) returns (all: seq<StreamOp>)
    requires forall s :: s in ids ==> s in perStream
    requires forall s :: s in perStream ==> perStream[s] == Tagged(s, Ops(perStream[s]))
    ensures all == Joined(ids, map s | s in perStream :: Ops(perStream[s]))
  {
    ghost var streams := map s | s in perStream :: Ops(perStream[s]);
    all := [];
    for k := 0 to |ids|
      invariant forall s :: s in ids[..k] ==> s in streams
      invariant all == Joined(ids[..k], streams)
    {
      var s := ids[k];
      assert s in ids && ids[..k+1] == ids[..k] + [s];
      assert ids[..k+1][..k] == ids[..k];
      all := all + perStream[s];
    }
    assert ids[..|ids|] == ids;
  }

  // Numbers the merged operations and accumulates the summary and version.
  method Assemble(meta: HeaderMeta, targets: seq<TargetInfo>, all: seq<StreamOp>, numStreams: int)
      returns (hdr: Header, ops: seq<Op>)
    ensures ops == Renumber(Ops(all))
    ensures hdr == HeaderOf(meta, targets, ops, numStreams)
  {
    var totalBytes, durationNS, numPartial := 0, 0, 0;
    var version := TRACE_FORMAT_VERSION;
    ops := [];
    for i := 0 to |all|
      invariant ops == Renumber(Ops(all[..i]))
      invariant totalBytes == TotalBytes(ops) && numPartial == NumPartial(ops)
      invariant version == MinVersionForOps(ops)
    {
      var op := all[i].op.(opId := Some(i));
      assert Ops(all[..i+1]) == Ops(all[..i]) + [all[i].op];
      RenumberSnoc(Ops(all[..i]), all[i].op);
      SumsSnoc(ops, op);
      assert (ops + [op])[..|ops|] == ops;
      ops := ops + [op];
      var moved := op.TransferredBytes();
      if moved.Some? && op.kind.CountsBytes() {
        totalBytes := totalBytes + moved.value;
      }
      if op.IsPartialTransfer() {
        numPartial := numPartial + 1;
      }
      if op.MinVersion() > version {
        version := op.MinVersion();
      }
    }
    assert all[..|all|] == all;
    if |ops| > 0 {
      durationNS := ops[|ops|-1].t;
    }
    hdr := Header(version, meta.kind, TIME_UNIT_NANOSECONDS, meta.captureMethod, meta.captureLimitations,
                  targets, Summary(|ops|, numStreams, 0, totalBytes, durationNS, numPartial), []);
  }

  // The inner loop of the clamp, over one stream.
  method ClampStream(mine: seq<StreamOp>, minT: int, haveMin: bool) returns (ops: seq<StreamOp>, raised: nat)
    requires !haveMin ==> minT == 0
    ensures |ops| == |mine|
    ensures forall i :: 0 <= i < |mine| ==>
              ops[i].streamId == mine[i].streamId && ops[i].localIdx == mine[i].localIdx
    ensures Ops(ops) == Timed(Ops(mine), minT)
    ensures raised == Clamp.NumRaised(Rebased(Ops(mine), minT))
  {
    hide Clamp.PrefixMax, Clamp.NumRaised;
    ops, raised := mine, 0;
    ghost var ts := Rebased(Ops(mine), minT);
    Clamp.StartsEmpty();
    var prev := 0;
    for i := 0 to |mine|
      invariant |ops| == |mine|
      invariant i > 0 ==> prev == Clamp.PrefixMax(ts[..i])[i-1]
      invariant raised == Clamp.NumRaised(ts[..i])
      invariant forall k :: 0 <= k < i ==> ops[k] == mine[k].(op := mine[k].op.(t := Clamp.PrefixMax(ts[..i])[k]))
      invariant forall k :: i <= k < |mine| ==> ops[k] == mine[k]
    {
      assert ts[..i+1][..i] == ts[..i];
      if haveMin {
        ops := ops[i := ops[i].(op := ops[i].op.(t := ops[i].op.t - minT))];
      }
      assert ops[i].op.t == ts[i];
      if i > 0 && ops[i].op.t < prev {
        ops := ops[i := ops[i].(op := ops[i].op.(t := prev))];
        raised := raised + 1;
      }
      Clamp.PrefixMaxStep(ts, i);
      prev := ops[i].op.t;
    }
    assert ts[..|mine|] == ts;
  }

  function Counted(m: map<Reason, int>, reason: Reason): map<Reason, int> {
    m[reason := (if reason in m then m[reason] else 0) + 1]
  }

  function Appended(streams: map<int, seq<Op>>, op: Op): map<int, seq<Op>> {
    streams[op.s := (if op.s in streams then streams[op.s] else []) + [op]]
  }
}
