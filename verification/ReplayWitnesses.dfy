// Concrete traces the validator accepts that show where replays fail, or do not.
module ReplayWitnesses {
  import opened Trace
  import opened TraceContract
  import opened Replay
  import opened TraceReplay
  import opened Preparation
  import W = ObjectWrite

  // ----- A READ through a write that became a PUT -----

  const READ_BACK: seq<Op> := [
    BareOp(0, 0, OpOpen).(opId := Some(0), h := Some(0), tgt := Some(0), mode := ModeWrite),
    BareOp(0, 0, OpRead).(opId := Some(1), h := Some(0), off := Some(0), len := Some(4)),
    BareOp(0, 0, OpClose).(opId := Some(2), h := Some(0))]

  const READ_BACK_HEADER := Header(TRACE_FORMAT_VERSION, Synthetic, TIME_UNIT_NANOSECONDS, NoMethod, "",
                                   [TargetInfo(0, "f", TargetFile, 0)], Summary(3, 1, 0, 4, 0, 0), [])

  lemma ReadBackHandles()
    ensures HandlesOk(READ_BACK)
  {
    hide SoundSoFar, HandlesOk;
    var ops := READ_BACK;
    NothingIsSound(0);
    SoundStep([], ops[0], {}, {}, {0}, {0});
    SoundStep([] + [ops[0]], ops[1], {0}, {0}, {0}, {0});
    SoundStep([] + [ops[0]] + [ops[1]], ops[2], {0}, {0}, {}, {0});
    assert ops == [] + [ops[0]] + [ops[1]] + [ops[2]];
    SoundIsOk(ops, 0, {}, {0});
  }

  lemma ReadBackSummary()
    ensures SummaryAgrees(READ_BACK_HEADER.summary, READ_BACK)
  {
    var ops := READ_BACK;
    var one, two := [ops[0]], [ops[0], ops[1]];
    assert one == [] + [ops[0]] && two == one + [ops[1]] && ops == two + [ops[2]];
    SumsSnoc([], ops[0]);
    SumsSnoc(one, ops[1]);
    SumsSnoc(two, ops[2]);
    assert StreamIds(ops) == {0};
  }

  lemma ReadBackIsClean()
    ensures CleanTrace(READ_BACK_HEADER, READ_BACK)
  {
    hide HandlesOk, SummaryAgrees;
    ReadBackHandles();
    ReadBackSummary();
  }

  // PREPARE accepts the trace for an object engine, and its READ, in the middle,
  // is the one operation that fails.
  lemma ReadBackFails()
    ensures Preparable(READ_BACK_HEADER, READ_BACK, ObjectEngine, false)
    ensures Failures(BackendFor(READ_BACK_HEADER, READ_BACK, ObjectEngine), READ_BACK) == {1}
  {
    var ops, b := READ_BACK, Backend(ObjectEngine, map[0 := 0]);
    ReadBackIsClean();
    ReadBackPasses();
    hide CleanTrace, W.ObserveAll;
    assert forall op :: op in ops ==> Admits(ObjectEngine, op);
    assert ops[..0] == [] && ops[..1] == [] + [ops[0]] && ops[..2] == [] + [ops[0]] + [ops[1]];
    BindingSnoc(b, [], ops[0], 0);
    FedSnoc([], ops[0], 0);
    BindingSnoc(b, [] + [ops[0]], ops[1], 0);
    FedSnoc([] + [ops[0]], ops[1], 0);
    assert Fed([], 0) == 0;
    hide BindingOf, Fed;
  }

  lemma ReadBackPasses()
    ensures W.ObserveAll(READ_BACK, READ_BACK_HEADER.targets) == Some(W.Tracking(map[], map[0 := 0]))
  {
    var ops, targets := READ_BACK, READ_BACK_HEADER.targets;
    var one, two := ops[..1], ops[..2];
    assert one[..0] == [] && two[..1] == one && ops[..2] == two;
    assert W.ObserveAll(one, targets) == Some(W.Tracking(map[0 := W.OpenWrite(0, ModeWrite, 0)], map[]));
    assert W.ObserveAll(two, targets) == W.ObserveAll(one, targets);
    assert map[0 := W.OpenWrite(0, ModeWrite, 0)] - {0} == map[];
  }

  // ----- An OPEN for writing that no CLOSE ever completed -----

  const UNFINISHED: seq<Op> := [
    BareOp(0, 0, OpOpen).(opId := Some(0), h := Some(0), tgt := Some(0), mode := ModeWrite),
    BareOp(0, 0, OpWrite).(opId := Some(1), h := Some(0), off := Some(0), len := Some(4))]

  const UNFINISHED_HEADER := Header(TRACE_FORMAT_VERSION, Synthetic, TIME_UNIT_NANOSECONDS, NoMethod, "",
                                    [TargetInfo(0, "f", TargetFile, 0)], Summary(2, 1, 0, 4, 0, 0), [])

  lemma UnfinishedHandles()
    ensures HandlesOk(UNFINISHED)
  {
    hide SoundSoFar, HandlesOk;
    var ops := UNFINISHED;
    NothingIsSound(0);
    SoundStep([], ops[0], {}, {}, {0}, {0});
    SoundStep([] + [ops[0]], ops[1], {0}, {0}, {0}, {0});
    assert ops == [] + [ops[0]] + [ops[1]];
    SoundIsOk(ops, 0, {0}, {0});
  }

  lemma UnfinishedSummary()
    ensures SummaryAgrees(UNFINISHED_HEADER.summary, UNFINISHED)
  {
    var ops := UNFINISHED;
    assert [ops[0]] == [] + [ops[0]] && ops == [ops[0]] + [ops[1]];
    SumsSnoc([], ops[0]);
    SumsSnoc([ops[0]], ops[1]);
    assert StreamIds(ops) == {0};
  }

  lemma UnfinishedIsClean()
    ensures CleanTrace(UNFINISHED_HEADER, UNFINISHED)
  {
    hide HandlesOk, SummaryAgrees;
    UnfinishedHandles();
    UnfinishedSummary();
  }

  // No size was kept for the target, so the OPEN reaches the object engine, which
  // refuses it, and the WRITE finds no handle.
  lemma UnfinishedWriteFails()
    ensures Preparable(UNFINISHED_HEADER, UNFINISHED, ObjectEngine, false)
    ensures Failures(BackendFor(UNFINISHED_HEADER, UNFINISHED, ObjectEngine), UNFINISHED) == {0, 1}
  {
    var ops, targets := UNFINISHED, UNFINISHED_HEADER.targets;
    UnfinishedIsClean();
    hide CleanTrace;
    var one := ops[..1];
    assert ops[..0] == [] && one[..0] == [] && ops[..1] == one;
    assert W.ObserveAll(one, targets) == Some(W.Tracking(map[0 := W.OpenWrite(0, ModeWrite, 0)], map[]));
    assert W.ObserveAll(ops, targets).value.sizes == map[];
    var b := BackendFor(UNFINISHED_HEADER, ops, ObjectEngine);
    assert BindingOf(b, one, 0) == Refused;
    assert forall op :: op in ops ==> Admits(ObjectEngine, op);
  }

  // ----- An empty WRITE -----

  // Through a handle opened for reading: a file engine performs it.
  const IDLE_WRITE: seq<Op> := [
    BareOp(0, 0, OpOpen).(opId := Some(0), h := Some(0), tgt := Some(0), mode := ModeRead),
    BareOp(0, 0, OpWrite).(opId := Some(1), h := Some(0), off := Some(0), len := Some(0))]

  const IDLE_HEADER := Header(TRACE_FORMAT_VERSION, Synthetic, TIME_UNIT_NANOSECONDS, NoMethod, "",
                              [TargetInfo(0, "f", TargetFile, 0)], Summary(2, 1, 0, 0, 0, 0), [])

  lemma IdleHandles()
    ensures HandlesOk(IDLE_WRITE)
  {
    hide SoundSoFar, HandlesOk;
    var ops := IDLE_WRITE;
    NothingIsSound(0);
    SoundStep([], ops[0], {}, {}, {0}, {0});
    SoundStep([] + [ops[0]], ops[1], {0}, {0}, {0}, {0});
    assert ops == [] + [ops[0]] + [ops[1]];
    SoundIsOk(ops, 0, {0}, {0});
  }

  lemma IdleSummary()
    ensures SummaryAgrees(IDLE_HEADER.summary, IDLE_WRITE)
  {
    var ops := IDLE_WRITE;
    assert [ops[0]] == [] + [ops[0]] && ops == [ops[0]] + [ops[1]];
    SumsSnoc([], ops[0]);
    SumsSnoc([ops[0]], ops[1]);
    assert StreamIds(ops) == {0};
  }

  lemma IdleIsClean()
    ensures CleanTrace(IDLE_HEADER, IDLE_WRITE)
  {
    hide HandlesOk, SummaryAgrees;
    IdleHandles();
    IdleSummary();
  }

  lemma IdleWriteSucceeds(direct: bool)
    ensures Preparable(IDLE_HEADER, IDLE_WRITE, FileEngine(direct), false)
    ensures Failures(Files(direct), IDLE_WRITE) == {} && AccessOk(direct, IDLE_WRITE)
  {
    var ops := IDLE_WRITE;
    IdleIsClean();
    hide CleanTrace;
    assert ops[..0] == [] && ops[..1] == [ops[0]] && [ops[0]][..0] == [];
    assert BindingOf(Files(direct), ops[..1], 0) == Bound(true, false);
    assert forall op :: op in ops ==> Admits(FileEngine(direct), op);
  }

  // ----- PUTs announced with the wrong length -----

  // One whole write after others, on a handle they do not use.
  lemma OneWriteFails(b: Backend, past: seq<Op>, id: int, x: int, n: nat)
    requires b.engine.ObjectEngine? && 0 in b.objSizes && Fed(past, x) == 0
    ensures var w, announced := W.OneWrite(id, x, n), b.objSizes[0];
            && !FailsAfter(b, past, w[0])
            && (FailsAfter(b, past + [w[0]], w[1]) <==> announced <= 0 || n > announced)
            && (FailsAfter(b, past + [w[0]] + [w[1]], w[2]) <==> n < announced)
  {
    var w := W.OneWrite(id, x, n);
    BindingSnoc(b, past, w[0], x);
    FedSnoc(past, w[0], x);
    BindingSnoc(b, past + [w[0]], w[1], x);
    FedSnoc(past + [w[0]], w[1], x);
    hide BindingOf, Fed;
  }

  lemma TwiceIsPreparable(m: nat, n: nat)
    ensures Preparable(W.TwiceHeader(m, n), W.TwiceWritten(m, n), ObjectEngine, false)
    ensures BackendFor(W.TwiceHeader(m, n), W.TwiceWritten(m, n), ObjectEngine) == Backend(ObjectEngine, map[0 := n])
  {
    W.TwiceIsClean(m, n);
    W.TwicePasses(m, n);
    var ops := W.TwiceWritten(m, n);
    hide CleanTrace, W.ObserveAll;
    assert forall op :: op in ops ==> Admits(ObjectEngine, op);
  }

  // A file of undeclared size written with m bytes and then with n is accepted,
  // and both PUTs are announced with n. If the first is shorter its CLOSE fails,
  // if it is longer its WRITE; and where nothing is announced both WRITEs fail,
  // even if they are empty.
  lemma TwiceWrittenFails(m: nat, n: nat)
    ensures var h, ops := W.TwiceHeader(m, n), W.TwiceWritten(m, n);
            && Preparable(h, ops, ObjectEngine, false)
            && Failures(BackendFor(h, ops, ObjectEngine), ops)
               == if m < n then {2} else if n == 0 then {1, 4} else if m > n then {1} else {}
  {
    var ops, b := W.TwiceWritten(m, n), Backend(ObjectEngine, map[0 := n]);
    assert |ops| == 6;
    hide FailsAfter, Preparable, BackendFor, W.TwiceWritten;
    TwiceIsPreparable(m, n);
    FirstWriteFails(m, n);
    SecondWriteFails(m, n);
  }

  lemma FirstWriteFails(m: nat, n: nat)
    ensures var ops, b := W.TwiceWritten(m, n), Backend(ObjectEngine, map[0 := n]);
            && !FailsAfter(b, ops[..0], ops[0])
            && (FailsAfter(b, ops[..1], ops[1]) <==> n == 0 || m > n)
            && (FailsAfter(b, ops[..2], ops[2]) <==> m < n)
  {
    var ops, half := W.TwiceWritten(m, n), W.OneWrite(0, 0, m);
    assert ops[..0] == [] && ops[..1] == [] + [half[0]] && ops[..2] == [] + [half[0]] + [half[1]];
    hide FailsAfter;
    OneWriteFails(Backend(ObjectEngine, map[0 := n]), [], 0, 0, m);
  }

  lemma SecondWriteFails(m: nat, n: nat)
    ensures var ops, b := W.TwiceWritten(m, n), Backend(ObjectEngine, map[0 := n]);
            && !FailsAfter(b, ops[..3], ops[3])
            && (FailsAfter(b, ops[..4], ops[4]) <==> n == 0)
            && !FailsAfter(b, ops[..5], ops[5])
  {
    var ops, half, w := W.TwiceWritten(m, n), W.OneWrite(0, 0, m), W.OneWrite(3, 1, n);
    assert ops[..3] == half && ops[..4] == half + [w[0]] && ops[..5] == half + [w[0]] + [w[1]];
    assert half == [] + [half[0]] + [half[1]] + [half[2]];
    FedSnoc([], half[0], 1);
    FedSnoc([] + [half[0]], half[1], 1);
    FedSnoc([] + [half[0]] + [half[1]], half[2], 1);
    hide FailsAfter, Fed;
    OneWriteFails(Backend(ObjectEngine, map[0 := n]), half, 3, 1, n);
  }
}
