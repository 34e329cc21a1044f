// What the Builder promises of the trace it writes, whatever was added to it.
module BuilderTheorems {
  import opened Trace
  import opened TraceContract
  import opened Merge
  import opened SortedIds
  import opened Builder
  import Clamp
  import TraceMeaning

  // ----- Clamping: least correction, one stream at a time -----

  ghost predicate RaisesOnly(ops: seq<Op>, minT: int, ts: seq<int>) {
    |ts| == |ops| && Clamp.NonDecreasing(ts) && forall i :: 0 <= i < |ops| ==> ops[i].t - minT <= ts[i]
  }

  // A written stream is the added one with the least non-decreasing timestamps
  // at or above its rebased ones; nothing else of any operation changes.
  lemma TimedIsLeastCorrection(ops: seq<Op>, minT: int, other: seq<int>)
    ensures RaisesOnly(ops, minT, Times(Timed(ops, minT)))
    ensures RaisesOnly(ops, minT, other) ==> Clamp.Above(other, Times(Timed(ops, minT)))
    ensures Retimed(Timed(ops, minT), Times(ops)) == ops
    ensures Clamp.NumRaised(Rebased(ops, minT))
            == |set i | 0 <= i < |ops| && Timed(ops, minT)[i].t != ops[i].t - minT|
  {
    var ts := Rebased(ops, minT);
    Clamp.PrefixMaxIsLeast(ts, other);
    assert Times(Timed(ops, minT)) == Clamp.PrefixMax(ts);
    Clamp.NumRaisedCountsChanges(ts);
    assert Clamp.Changed(ts) == set i | 0 <= i < |ops| && Timed(ops, minT)[i].t != ops[i].t - minT;
  }

  // ----- Merging: nothing lost, nothing invented -----

  function Origin(streams: map<int, seq<Op>>): int {
    SortIdsLists(streams.Keys);
    MinTime(SortIds(streams.Keys), streams).GetOr(0)
  }

  // The written operations before numbering.
  function Unnumbered(streams: map<int, seq<Op>>): seq<Op> {
    SortIdsLists(streams.Keys);
    Merged(SortIds(streams.Keys), AllTimed(streams, Origin(streams)))
  }

  lemma TimedInTime(ops: seq<Op>, minT: int)
    ensures TimesOk(Timed(ops, minT))
  {
    Clamp.PrefixMaxIsLeast(Rebased(ops, minT), []);
  }

  lemma AllTimedInTime(streams: map<int, seq<Op>>, minT: int)
    requires StreamsLabelled(streams)
    ensures StreamsLabelled(AllTimed(streams, minT))
    ensures forall s :: s in streams ==> TimesOk(AllTimed(streams, minT)[s])
  {
    forall s | s in streams ensures TimesOk(AllTimed(streams, minT)[s]) {
      TimedInTime(streams[s], minT);
    }
  }

  // The output is in time order, and its restriction to each stream is exactly
  // that stream's added operations in Add order, clamped.
  lemma WritesEveryStream(meta: HeaderMeta, targets: seq<TargetInfo>, streams: map<int, seq<Op>>, s: int)
    requires StreamsLabelled(streams)
    ensures Assembled(meta, targets, streams).ops == Renumber(Unnumbered(streams))
    ensures TimesOk(Unnumbered(streams))
    ensures OnStream(Unnumbered(streams), s)
            == if s in streams then Timed(streams[s], Origin(streams)) else []
  {
    SortIdsLists(streams.Keys);
    AllTimedInTime(streams, Origin(streams));
    var ids := SortIds(streams.Keys);
    var timed := AllTimed(streams, Origin(streams));
    MergedInTime(ids, timed);
    MergedKeepsStream(ids, timed, s);
  }

  // ----- Rebasing: where the trace starts -----

  // Every stream the builder collects has an operation.
  ghost predicate NoneEmpty(streams: map<int, seq<Op>>) {
    forall s :: s in streams ==> streams[s] != []
  }

  // The origin is the time of some added operation, and of none later than any.
  lemma OriginIsEarliest(streams: map<int, seq<Op>>)
    requires NoneEmpty(streams) && streams != map[]
    ensures exists s :: s in streams && HappenedAt(Origin(streams), streams[s])
    ensures forall s :: s in streams ==> NotAfter(Some(Origin(streams)), streams[s])
  {
    SortIdsLists(streams.Keys);
    var ids := SortIds(streams.Keys);
    MinTimeIsEarliest(ids, streams);
    hide SortIds, MinTime, HappenedAt;
    var s :| s in streams;
    assert s in ids && NotAfter(MinTime(ids, streams), streams[s]) && streams[s] != [];
    assert MinTime(ids, streams).Some?;
    forall s | s in streams ensures NotAfter(MinTime(ids, streams), streams[s]) {
      assert s in ids;
    }
  }

  lemma TimedFirst(ops: seq<Op>, minT: int)
    requires ops != []
    ensures Timed(ops, minT)[0].t == ops[0].t - minT
  {
    var ts := Rebased(ops, minT);
    Clamp.PrefixMaxPrefix(ts, 1);
    assert ts[..1] == [ts[0]] && Clamp.PrefixMax(ts)[0] == Clamp.PrefixMax(ts)[..1][0];
    assert [ts[0]][..0] == [];
  }

  lemma WrittenOnStream(streams: map<int, seq<Op>>, op: Op)
    requires StreamsLabelled(streams) && op in Unnumbered(streams)
    ensures op.s in streams && op in Timed(streams[op.s], Origin(streams))
  {
    SortIdsLists(streams.Keys);
    AllTimedInTime(streams, Origin(streams));
    MergedMembers(SortIds(streams.Keys), AllTimed(streams, Origin(streams)), op);
  }

  // No written operation is before the first one of its own stream, as that was
  // rebased.
  lemma NotBeforeOwnFirst(streams: map<int, seq<Op>>, op: Op)
    requires StreamsLabelled(streams) && op in Unnumbered(streams)
    ensures op.s in streams && streams[op.s] != [] && streams[op.s][0].t - Origin(streams) <= op.t
  {
    WrittenOnStream(streams, op);
    var mine, minT := streams[op.s], Origin(streams);
    hide Unnumbered, Timed, Origin;
    TimedFirst(mine, minT);
    TimedInTime(mine, minT);
    var i :| 0 <= i < |mine| && Timed(mine, minT)[i] == op;
  }

  // A written trace starts with the earliest first operation of a stream. It
  // starts at zero exactly when an earliest operation of all is the first of its
  // stream; what follows a later one in its stream is clamped to that.
  lemma StartsAtZeroExactlyWhen(streams: map<int, seq<Op>>)
    requires StreamsLabelled(streams) && NoneEmpty(streams) && streams != map[]
    ensures Unnumbered(streams) != []
    ensures var start := Unnumbered(streams)[0].t;
            && 0 <= start
            && (exists s :: s in streams && streams[s][0].t - Origin(streams) == start)
            && (forall s :: s in streams ==> start <= streams[s][0].t - Origin(streams))
            && (start == 0 <==> exists s :: s in streams && streams[s][0].t == Origin(streams))
    ensures forall op :: op in Unnumbered(streams) ==> Unnumbered(streams)[0].t <= op.t
  {
    var ops := Unnumbered(streams);
    OriginIsEarliest(streams);
    forall s | s in streams
      ensures ops != [] && ops[0].t <= streams[s][0].t - Origin(streams) && Origin(streams) <= streams[s][0].t
    {
      FirstIsWritten(streams, s);
      assert NotAfter(Some(Origin(streams)), streams[s]);
    }
    hide Unnumbered, Origin;
    var any :| any in streams;
    assert ops != [] && ops[0] in ops;
    NotBeforeOwnFirst(streams, ops[0]);
    forall op | op in ops ensures ops[0].t <= op.t {
      NotBeforeOwnFirst(streams, op);
    }
  }

  lemma FirstIsWritten(streams: map<int, seq<Op>>, s: int)
    requires StreamsLabelled(streams) && s in streams && streams[s] != []
    ensures Unnumbered(streams) != [] && Unnumbered(streams)[0].t <= streams[s][0].t - Origin(streams)
  {
    var ops := Unnumbered(streams);
    AddedIsWritten(streams, s, 0);
    TimedFirst(streams[s], Origin(streams));
    WritesEveryStream(HeaderMeta(NoKind, NoMethod, ""), [], streams, s);
    hide Unnumbered, Timed;
    var op := Timed(streams[s], Origin(streams))[0];
    var k :| 0 <= k < |ops| && ops[k] == op;
  }

  lemma TimedStaysAfter(ops: seq<Op>, minT: Option<int>, op: Op)
    requires NotAfter(minT, ops) && op in Timed(ops, minT.GetOr(0))
    ensures op.t >= 0
  {
    var i :| 0 <= i < |ops| && Timed(ops, minT.GetOr(0))[i] == op;
    Clamp.PrefixMaxIsLeast(Rebased(ops, minT.GetOr(0)), []);
  }

  lemma StartsAtZero(streams: map<int, seq<Op>>, op: Op)
    requires StreamsLabelled(streams) && op in Unnumbered(streams)
    ensures op.t >= 0
  {
    WrittenOnStream(streams, op);
    SortIdsLists(streams.Keys);
    var ids := SortIds(streams.Keys);
    MinTimeIsEarliest(ids, streams);
    hide Timed, SortIds, MinTime;
    assert op.s in ids && NotAfter(MinTime(ids, streams), streams[op.s]);
    TimedStaysAfter(streams[op.s], MinTime(ids, streams), op);
  }

  // A clock that goes back right after the first call of the one stream: the
  // trace is accepted and starts two nanoseconds late.
  const LATE_START := [BareOp(5, 0, OpStat).(tgt := Some(0)), BareOp(3, 0, OpStat).(tgt := Some(0))]

  const LATE_STREAMS := map[0 := LATE_START]

  const LATE_TARGETS := [TargetInfo(0, "f", TargetFile, 0)]

  lemma LateIsSound()
    ensures Sound(LATE_STREAMS) && TargetsOk(LATE_TARGETS) && ShapesIn(LATE_TARGETS, LATE_STREAMS)
  {
    assert StreamHandlesOk(LATE_START);
    hide StreamHandlesOk;
  }

  lemma LateOrigin()
    ensures Origin(LATE_STREAMS) == 3
  {
    assert 0 in LATE_STREAMS && NoneEmpty(LATE_STREAMS);
    OriginIsEarliest(LATE_STREAMS);
    hide Origin;
    assert NotAfter(Some(Origin(LATE_STREAMS)), LATE_STREAMS[0]);
    assert LATE_STREAMS[0][1].t == 3;
    var s :| s in LATE_STREAMS && HappenedAt(Origin(LATE_STREAMS), LATE_STREAMS[s]);
  }

  lemma LateStart(meta: HeaderMeta)
    requires MetaOk(meta)
    ensures var all := Assembled(meta, LATE_TARGETS, LATE_STREAMS);
            CleanTrace(all.header, all.ops) && all.ops != [] && all.ops[0].t == 2
  {
    LateIsSound();
    SoundIsClean(meta, LATE_TARGETS, LATE_STREAMS);
    WritesEveryStream(meta, LATE_TARGETS, LATE_STREAMS, 0);
    StartsAtZeroExactlyWhen(LATE_STREAMS);
    LateOrigin();
    hide Unnumbered, Origin, CleanTrace, Sound, ShapesIn;
    assert LATE_STREAMS[0][0].t == 5;
  }

  // ----- The written trace is well formed -----

  // Operations of each stream use handles soundly, streams share none, and no
  // stream is listed without operations.
  ghost predicate Sound(streams: map<int, seq<Op>>) {
    && StreamsLabelled(streams)
    && (forall s :: s in streams ==> streams[s] != [] && StreamHandlesOk(streams[s]))
    && (forall s, s' :: s in streams && s' in streams && s != s' ==> Opened(streams[s]) !! Opened(streams[s']))
  }

  // The shape rules against a target table, for a version that allows ret.
  predicate ShapeIn(targets: seq<TargetInfo>, op: Op) {
    ShapeOk(HeaderOf(HeaderMeta(NoKind, NoMethod, ""), targets, [], 0).(version := VERSION_TRANSFORMED), op)
  }

  ghost predicate ShapesIn(targets: seq<TargetInfo>, streams: map<int, seq<Op>>) {
    forall s, op :: s in streams && op in streams[s] ==> ShapeIn(targets, op)
  }

  predicate MetaOk(meta: HeaderMeta) {
    meta.kind == Imported && meta.captureMethod.IsImport() && meta.captureLimitations != ""
  }

  ghost predicate TargetsOk(targets: seq<TargetInfo>) {
    forall i :: 0 <= i < |targets| ==> TargetOk(targets[i], i)
  }

  lemma {:induction false} SameHandleFields(a: seq<Op>, b: seq<Op>)
    requires |a| == |b| && forall i :: 0 <= i < |a| ==> a[i].kind == b[i].kind && a[i].h == b[i].h
    ensures Live(a) == Live(b) && Opened(a) == Opened(b)
  {
    if a != [] {
      var n := |a| - 1;
      SameHandleFields(a[..n], b[..n]);
      assert a == a[..n] + [a[n]] && b == b[..n] + [b[n]];
      OpenedSnoc(a[..n], a[n]);
      OpenedSnoc(b[..n], b[n]);
    }
  }

  lemma TimedKeepsHandles(ops: seq<Op>, minT: int)
    ensures StreamHandlesOk(Timed(ops, minT)) <==> StreamHandlesOk(ops)
    ensures Opened(Timed(ops, minT)) == Opened(ops)
  {
    var timed := Timed(ops, minT);
    SameHandleFields(timed, ops);
    forall i | 0 <= i < |ops| ensures LocalHandleOk(timed[..i], timed[i]) <==> LocalHandleOk(ops[..i], ops[i]) {
      SameHandleFields(timed[..i], ops[..i]);
    }
  }

  lemma TimedKeepsShape(h: Header, ops: seq<Op>, minT: int)
    ensures (forall op :: op in Timed(ops, minT) ==> ShapeOk(h, op)) <==> (forall op :: op in ops ==> ShapeOk(h, op))
  {
    var timed := Timed(ops, minT);
    assert forall i :: 0 <= i < |ops| ==> (ShapeOk(h, timed[i]) <==> ShapeOk(h, ops[i]));
    if forall op :: op in timed ==> ShapeOk(h, op) {
      forall op | op in ops ensures ShapeOk(h, op) {
        var i :| 0 <= i < |ops| && ops[i] == op;
        assert timed[i] in timed;
      }
    }
  }

  lemma VersionSuffices(h: Header, targets: seq<TargetInfo>, op: Op)
    requires h.targets == targets && TRACE_FORMAT_VERSION <= h.version && op.MinVersion() <= h.version
    ensures ShapeOk(h, op) <==> ShapeIn(targets, op)
  {
  }

  // The header WriteTo assembles.
  lemma AssembledHeaderOk(meta: HeaderMeta, targets: seq<TargetInfo>, streams: map<int, seq<Op>>)
    requires MetaOk(meta) && TargetsOk(targets) && StreamsLabelled(streams)
    requires TotalBytes(Unnumbered(streams)) >= 0
    ensures HeaderOk(Assembled(meta, targets, streams).header)
  {
    var ops := Unnumbered(streams);
    SortIdsLists(streams.Keys);
    RenumberKeepsSums(ops);
    MinVersionForOpsCovers(Renumber(ops));
    if ops != [] {
      StartsAtZero(streams, ops[|ops|-1]);
    }
  }

  lemma TimedSound(h: Header, streams: map<int, seq<Op>>, minT: int)
    requires Sound(streams)
    requires forall s, op :: s in streams && op in streams[s] ==> ShapeOk(h, op)
    ensures StreamsSound(h, AllTimed(streams, minT))
  {
    var timed := AllTimed(streams, minT);
    AllTimedInTime(streams, minT);
    forall s | s in streams
      ensures timed[s] != [] && StreamHandlesOk(timed[s]) && Opened(timed[s]) == Opened(streams[s])
      ensures forall op :: op in timed[s] ==> ShapeOk(h, op)
    {
      TimedKeepsHandles(streams[s], minT);
      TimedKeepsShape(h, streams[s], minT);
    }
  }

  // Every added operation is written, and carries at most the declared version.
  lemma AddedIsWritten(streams: map<int, seq<Op>>, s: int, i: nat)
    requires StreamsLabelled(streams) && s in streams && i < |streams[s]|
    ensures Timed(streams[s], Origin(streams))[i] in Unnumbered(streams)
    ensures streams[s][i].MinVersion() <= MinVersionForOps(Renumber(Unnumbered(streams)))
  {
    var ops := Unnumbered(streams);
    var op := Timed(streams[s], Origin(streams))[i];
    WritesEveryStream(HeaderMeta(NoKind, NoMethod, ""), [], streams, s);
    OnStreamOps(ops, s);
    assert op in OnStream(ops, s);
    var k :| 0 <= k < |ops| && ops[k] == op;
    MinVersionForOpsCovers(Renumber(ops));
    assert Renumber(ops)[k] in Renumber(ops);
  }

  lemma WrittenHeader(meta: HeaderMeta, targets: seq<TargetInfo>, streams: map<int, seq<Op>>)
    ensures var all := Assembled(meta, targets, streams);
            && all.Written?
            && all.ops == Renumber(Unnumbered(streams))
            && all.header.version == MinVersionForOps(all.ops) >= TRACE_FORMAT_VERSION
            && all.header.targets == targets
  {
    SortIdsLists(streams.Keys);
    MinVersionForOpsCovers(Assembled(meta, targets, streams).ops);
  }

  lemma AddedShape(h: Header, targets: seq<TargetInfo>, streams: map<int, seq<Op>>, s: int, op: Op)
    requires StreamsLabelled(streams) && s in streams && op in streams[s]
    requires h.targets == targets
    requires h.version == MinVersionForOps(Renumber(Unnumbered(streams))) >= TRACE_FORMAT_VERSION
    ensures ShapeOk(h, op) <==> ShapeIn(targets, op)
  {
    hide Unnumbered, ShapeOk, ShapeIn;
    var i :| 0 <= i < |streams[s]| && streams[s][i] == op;
    AddedIsWritten(streams, s, i);
    VersionSuffices(h, targets, op);
  }

  lemma AddedShapes(meta: HeaderMeta, targets: seq<TargetInfo>, streams: map<int, seq<Op>>)
    requires StreamsLabelled(streams)
    ensures var h := Assembled(meta, targets, streams).header;
            ShapesIn(targets, streams) <==> (forall s, op :: s in streams && op in streams[s] ==> ShapeOk(h, op))
  {
    hide Unnumbered, ShapeOk, ShapeIn, Assembled, StreamsLabelled;
    var h := Assembled(meta, targets, streams).header;
    WrittenHeader(meta, targets, streams);
    forall s, op | s in streams && op in streams[s] ensures ShapeOk(h, op) <==> ShapeIn(targets, op) {
      AddedShape(h, targets, streams, s, op);
    }
  }

  lemma SoundIsClean(meta: HeaderMeta, targets: seq<TargetInfo>, streams: map<int, seq<Op>>)
    requires MetaOk(meta) && Sound(streams) && TargetsOk(targets) && ShapesIn(targets, streams)
    ensures var all := Assembled(meta, targets, streams); CleanTrace(all.header, all.ops)
  {
    var h := Assembled(meta, targets, streams).header;
    SortIdsLists(streams.Keys);
    var ids, timed := SortIds(streams.Keys), AllTimed(streams, Origin(streams));
    var ops := Unnumbered(streams);
    AddedShapes(meta, targets, streams);
    TimedSound(h, streams, Origin(streams));
    forall op | op in ops ensures ShapeOk(h, op) {
      MergedMembers(ids, timed, op);
    }
    BytesNonNegative(h, ops);
    AssembledHeaderOk(meta, targets, streams);
    RenumberKeepsSums(ops);
    MergedStreamIds(h, ids, timed);
    MergedIsClean(h, ids, timed);
  }

  lemma ShapeIgnoresTimeAndId(h: Header, op: Op, t: int, id: Option<int>)
    ensures ShapeOk(h, op.(t := t, opId := id)) <==> ShapeOk(h, op)
  {
  }

  lemma CleanHasShape(h: Header, streams: map<int, seq<Op>>, s: int, op: Op)
    requires StreamsLabelled(streams) && s in streams && op in streams[s]
    requires forall written :: written in Renumber(Unnumbered(streams)) ==> ShapeOk(h, written)
    ensures ShapeOk(h, op)
  {
    hide Unnumbered, ShapeOk;
    var ops := Unnumbered(streams);
    var i :| 0 <= i < |streams[s]| && streams[s][i] == op;
    AddedIsWritten(streams, s, i);
    var timed := Timed(streams[s], Origin(streams))[i];
    var k :| 0 <= k < |ops| && ops[k] == timed;
    assert Renumber(ops)[k] in Renumber(ops);
    ShapeIgnoresTimeAndId(h, op, timed.t, Some(k));
  }

  lemma CleanHasShapes(meta: HeaderMeta, targets: seq<TargetInfo>, streams: map<int, seq<Op>>)
    requires StreamsLabelled(streams)
    requires var all := Assembled(meta, targets, streams); CleanTrace(all.header, all.ops)
    ensures TargetsOk(targets) && ShapesIn(targets, streams)
  {
    hide Unnumbered, ShapeOk, ShapeIn, Assembled, StreamsLabelled;
    var all := Assembled(meta, targets, streams);
    WrittenHeader(meta, targets, streams);
    forall s, op | s in streams && op in streams[s] ensures ShapeOk(all.header, op) {
      CleanHasShape(all.header, streams, s, op);
    }
    AddedShapes(meta, targets, streams);
  }

  // Self-validation accepts the assembled trace exactly when every target has a
  // name and every operation the shape its kind requires: order, ids, handles,
  // timestamps, summary and version can never be the reason for a rejection.
  lemma WriteToSucceedsExactlyWhen(meta: HeaderMeta, targets: seq<TargetInfo>, streams: map<int, seq<Op>>)
    requires MetaOk(meta) && Sound(streams)
    ensures var all := Assembled(meta, targets, streams);
            CleanTrace(all.header, all.ops) <==> TargetsOk(targets) && ShapesIn(targets, streams)
  {
    if TargetsOk(targets) && ShapesIn(targets, streams) {
      SoundIsClean(meta, targets, streams);
    }
    var all := Assembled(meta, targets, streams);
    if CleanTrace(all.header, all.ops) {
      CleanHasShapes(meta, targets, streams);
    }
  }

  // ----- The header tells the trace -----

  lemma TimedFront(ops: seq<Op>, minT: int)
    requires ops != []
    ensures Timed(ops, minT)[..|ops|-1] == Timed(ops[..|ops|-1], minT)
    ensures Timed(ops, minT)[|ops|-1].(t := 0) == ops[|ops|-1].(t := 0)
  {
    var n := |ops| - 1;
    Clamp.PrefixMaxPrefix(Rebased(ops, minT), n);
    assert Rebased(ops, minT)[..n] == Rebased(ops[..n], minT);
    hide Clamp.PrefixMax;
    forall i | 0 <= i < n ensures Timed(ops, minT)[i] == Timed(ops[..n], minT)[i] {
      assert Clamp.PrefixMax(Rebased(ops, minT))[i] == Clamp.PrefixMax(Rebased(ops, minT))[..n][i];
    }
  }

  lemma {:induction false} TimedKeepsBytes(ops: seq<Op>, minT: int)
    ensures TotalBytes(Timed(ops, minT)) == TotalBytes(ops)
  {
    if ops != [] {
      TimedKeepsBytes(ops[..|ops|-1], minT);
      TimedFront(ops, minT);
      hide Timed;
    }
  }

  lemma {:induction false} AllTimedKeepBytes(ids: seq<int>, streams: map<int, seq<Op>>, minT: int)
    requires forall s :: s in ids ==> s in streams
    ensures BytesOfStreams(ids, AllTimed(streams, minT)) == BytesOfStreams(ids, streams)
  {
    if ids != [] {
      var last := ids[|ids|-1];
      assert last in ids;
      AllTimedKeepBytes(ids[..|ids|-1], streams, minT);
      TimedKeepsBytes(streams[last], minT);
    }
  }

  // The duration is the time of some operation, and of none earlier than any.
  ghost predicate Latest(t: int, ops: seq<Op>) {
    (ops == [] ==> t == 0) && (forall op :: op in ops ==> op.t <= t) && (ops != [] ==> HappenedAt(t, ops))
  }

  // The header says how the recording was made and what was added: its bytes, the
  // partial results, the latest time, and the version they need.
  lemma HeaderTellsTheTrace(meta: HeaderMeta, targets: seq<TargetInfo>, streams: map<int, seq<Op>>)
    requires StreamsLabelled(streams) && forall s :: s in SortIds(streams.Keys) ==> s in streams
    ensures var all := Assembled(meta, targets, streams); var h, ops := all.header, all.ops;
            && h.kind == meta.kind && h.captureMethod == meta.captureMethod && h.targets == targets
            && h.captureLimitations == meta.captureLimitations && h.transformations == []
            && h.summary.numOps == |ops| && h.summary.numStreams == |streams.Keys|
            && h.summary.totalBytes == BytesOfStreams(SortIds(streams.Keys), streams)
            && h.summary.numPartialReads == |TraceMeaning.Partials(ops)|
            && Latest(h.summary.durationNS, ops)
            && h.version == if TraceMeaning.Partials(ops) == {} then 1 else 2
  {
    var ids, timed := SortIds(streams.Keys), AllTimed(streams, Origin(streams));
    var flat := Unnumbered(streams);
    SortIdsLists(streams.Keys);
    WritesEveryStream(meta, targets, streams, 0);
    RenumberKeepsSums(flat);
    MergedBytes(ids, timed);
    AllTimedKeepBytes(ids, streams, Origin(streams));
    TraceMeaning.PartialsAreCounted(Renumber(flat));
    TraceMeaning.VersionIsNeeded(Renumber(flat));
    LatestIsLast(flat);
  }

  lemma LatestIsLast(flat: seq<Op>)
    requires TimesOk(flat)
    ensures Latest(LastTime(Renumber(flat)), Renumber(flat))
  {
    var ops := Renumber(flat);
    forall op | op in ops ensures op.t <= LastTime(ops) {
      var i :| 0 <= i < |ops| && ops[i] == op;
      assert flat[i].t <= flat[|flat|-1].t;
    }
    assert ops != [] ==> ops[|ops|-1].t == LastTime(ops);
  }
}
