// PREPARE (pkg/replay/executor.go:88-194, 300-333): which traces a run accepts,
// and what it keeps of them.
module Preparation {
  import opened Trace
  import opened TraceContract
  import opened Replay
  import ObjectWrite
  import PrepMeta
  import Validator

  datatype Capabilities = Capabilities(seekable: bool, partialWrite: bool, durable: bool, objectAPI: bool)

  // The local file engine's and the S3 engine's.
  function CapsOf(engine: Engine): Capabilities {
    match engine
    case FileEngine(_) => Capabilities(true, true, true, false)
    case ObjectEngine => Capabilities(true, false, false, true)
  }

  predicate CheckOpCaps(op: Op, caps: Capabilities) {
    match op.kind
    case OpRead => caps.seekable
    case OpFsync => caps.durable || caps.objectAPI
    case OpWrite => op.off.Some? ==> caps.seekable && (caps.partialWrite || caps.objectAPI)
    case OpStat => caps.seekable
    case OpPut => caps.objectAPI
    case OpGet => caps.objectAPI
    case OpHead => caps.objectAPI
    case OpDelete => caps.objectAPI
    case _ => true
  }

  // What the callback demands of each operation by itself.
  predicate Admits(engine: Engine, op: Op) {
    op.GroupId() == 0 && CheckOpCaps(op, CapsOf(engine))
  }

  // A file engine is asked for no whole objects; an object engine, which reads at
  // offsets and coalesces offset writes, for anything.
  lemma AdmittedKinds(direct: bool, op: Op)
    requires !op.kind.OtherOp?
    ensures Admits(FileEngine(direct), op) <==>
              op.GroupId() == 0 && op.kind in {OpOpen, OpClose, OpRead, OpWrite, OpStat, OpFsync}
    ensures Admits(ObjectEngine, op) <==> op.GroupId() == 0
  {
  }

  ghost predicate AllAdmitted(engine: Engine, ops: seq<Op>) {
    forall op :: op in ops ==> Admits(engine, op)
  }

  // An object engine takes only writes it can coalesce.
  predicate Coalescible(h: Header, ops: seq<Op>, engine: Engine) {
    engine.ObjectEngine? ==> ObjectWrite.ObserveAll(ops, h.targets).Some?
  }

  ghost predicate AnyTimed(ops: seq<Op>) {
    exists op :: op in ops && op.dur.Some?
  }

  ghost predicate Preparable(h: Header, ops: seq<Op>, engine: Engine, think: bool) {
    && CleanTrace(h, ops)
    && AllAdmitted(engine, ops)
    && Coalescible(h, ops, engine)
    && (think ==> AnyTimed(ops))
  }

  datatype Prepared =
    | Prepared(byStream: map<int, seq<Op>>, extents: map<int, int>, backend: Backend)
    | Rejected

  // An object engine is told the sizes of the writes it can coalesce.
  function BackendFor(h: Header, ops: seq<Op>, engine: Engine): Backend
    requires Coalescible(h, ops, engine)
  {
    Backend(engine, if engine.FileEngine? then map[] else ObjectWrite.ObserveAll(ops, h.targets).value.sizes)
  }

  // The sizes it is told are lengths.
  lemma BackendIsValid(h: Header, ops: seq<Op>, engine: Engine)
    requires CleanTrace(h, ops) && Coalescible(h, ops, engine)
    ensures BackendFor(h, ops, engine).Valid()
  {
    if engine.ObjectEngine? {
      ObjectWrite.SizesAreLengths(h, ops);
    }
  }

  // The callback, over all operations: the run stops at the first one refused.
  method ObserveOps(h: Header, ops: seq<Op>, engine: Engine)
    returns (ok: bool, extents: map<int, int>, sizes: map<int, int>, timed: bool)
    ensures ok <==> AllAdmitted(engine, ops) && Coalescible(h, ops, engine)
    ensures ok ==> extents == PrepMeta.ObserveAll(ops).extents && (timed <==> AnyTimed(ops))
    ensures ok && engine.ObjectEngine? ==> sizes == ObjectWrite.ObserveAll(ops, h.targets).value.sizes
  {
    hide Admits, PrepMeta.Observe, ObjectWrite.Observe;
    var meta := new PrepMeta.Metadata();
    var eligibility := new ObjectWrite.Eligibility();
    timed := false;
    for i := 0 to |ops|
      invariant AllAdmitted(engine, ops[..i])
      invariant timed <==> AnyTimed(ops[..i])
      invariant meta.Value() == PrepMeta.ObserveAll(ops[..i])
      invariant engine.ObjectEngine? ==> ObjectWrite.ObserveAll(ops[..i], h.targets) == Some(eligibility.Value())
    {
      var op := ops[i];
      assert ops[..i+1] == ops[..i] + [op] && ops[..i+1][..i] == ops[..i] && ops[..i+1][i] == op;
      timed := timed || op.dur.Some?;
      if !Admits(engine, op) {
        return false, map[], map[], timed;
      }
      if engine.ObjectEngine? {
        var fine := eligibility.Update(op, h.targets);
        if !fine {
          ObjectWrite.RejectedForGood(ops, i + 1, h.targets);
          return false, map[], map[], timed;
        }
      }
      meta.Update(op);
    }
    assert ops[..|ops|] == ops;
    return true, meta.extents, eligibility.sizes, timed;
  }

  // The source runs the callback inside the validator's pass; one pass after the
  // other refuses the same traces. None for the wanted streams asks for all.
  method Prepare(h: Header, ops: seq<Op>, wanted: Option<set<int>>, engine: Engine, think: bool) returns (r: Prepared)
    ensures r.Prepared? <==> Preparable(h, ops, engine, think)
    ensures r.Prepared? ==>
              && Coalescible(h, ops, engine) && r.backend == BackendFor(h, ops, engine) && r.backend.Valid()
              && r.extents == PrepMeta.ObserveAll(ops).extents
              && r.byStream.Keys == (if wanted.Some? then Kept(ops, wanted.value) else StreamIds(ops))
              && forall s :: s in r.byStream ==> r.byStream[s] == OnStream(ops, s)
  {
    hide CleanTrace, AllAdmitted, AnyTimed, OnStream;
    var rep := Validator.ValidateWithOps(h, ops);
    if !rep.OK() {
      return Rejected;
    }
    var ok, extents, sizes, timed := ObserveOps(h, ops, engine);
    if !ok || (think && !timed) {
      return Rejected;
    }
    BackendIsValid(h, ops, engine);
    var byStream := GroupByStream(ops, if wanted.Some? then wanted.value else StreamIds(ops));
    r := Prepared(byStream, extents, Backend(engine, if engine.FileEngine? then map[] else sizes));
  }

  // A trace the validator accepts, and PREPARE does not.
  const GROUPED: seq<Op> := [BareOp(0, 0, OpStat).(opId := Some(0), group := Some(1), tgt := Some(0))]

  const GROUPED_HEADER := Header(TRACE_FORMAT_VERSION, Synthetic, TIME_UNIT_NANOSECONDS, NoMethod, "",
                                 [TargetInfo(0, "f", TargetFile, 0)], Summary(1, 1, 1, 0, 0, 0), [])

  lemma GroupedIsClean()
    ensures CleanTrace(GROUPED_HEADER, GROUPED)
  {
    var op := GROUPED[0];
    assert GROUPED == [] + [op];
    assert HandlesOk(GROUPED) by {
      HandlesOkStep([], op);
    }
    assert ShapeOk(GROUPED_HEADER, op);
    assert SummaryAgrees(GROUPED_HEADER.summary, GROUPED) by {
      SumsSnoc([], op);
      assert StreamIds(GROUPED) == {0};
    }
    assert HeaderOk(GROUPED_HEADER);
    hide HandlesOk, ShapeOk, SummaryAgrees, HeaderOk;
    assert TimesOk(GROUPED) && IdsOk(GROUPED);
  }

  lemma GroupedTraceIsRefused(engine: Engine, think: bool)
    ensures CleanTrace(GROUPED_HEADER, GROUPED)
    ensures !Preparable(GROUPED_HEADER, GROUPED, engine, think)
  {
    hide CleanTrace;
    GroupedIsClean();
    assert GROUPED[0] in GROUPED && !Admits(engine, GROUPED[0]);
  }
}
