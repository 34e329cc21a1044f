// What the dispatcher does with one stream (pkg/replay/scheduler.go:162-275,
// 582-699): every operation of a trace the validator accepts is dispatched with
// all its fields, and which of them the engine refuses is known beforehand.
module Replay {
  import opened Arithmetic
  import opened Trace
  import opened TraceContract

  // ----- PREPARE: which operations a worker keeps -----

  function Kept(ops: seq<Op>, wanted: set<int>): set<int> {
    StreamIds(ops) * wanted
  }

  // The grouping callback of prepareInternal for an assigned set of streams; a
  // single-node run wants every stream.
  method GroupByStream(ops: seq<Op>, wanted: set<int>) returns (byStream: map<int, seq<Op>>)
    ensures byStream.Keys == Kept(ops, wanted)
    ensures forall s :: s in byStream ==> byStream[s] == OnStream(ops, s)
  {
    byStream := map[];
    for i := 0 to |ops|
      invariant byStream.Keys == Kept(ops[..i], wanted)
      invariant forall s :: s in wanted ==>
                  OnStream(ops[..i], s) == if s in byStream then byStream[s] else []
    {
      var op := ops[i];
      assert ops[..i+1] == ops[..i] + [op];
      assert ops[..i+1][..i] == ops[..i];
      assert StreamIds(ops[..i+1]) == StreamIds(ops[..i]) + {op.s};
      if op.s in wanted {
        byStream := byStream[op.s := (if op.s in byStream then byStream[op.s] else []) + [op]];
      }
    }
    assert ops[..|ops|] == ops;
  }

  // ----- Dispatch -----

  // The two kinds of engine a replay has: one with offset writes, the local file
  // engine, which may or may not use O_DIRECT, and one with whole objects only,
  // the S3 engine. A replay against the second is given the sizes of the targets
  // whose writes are coalesced into a PUT.
  datatype Engine = FileEngine(direct: bool) | ObjectEngine

  datatype Backend = Backend(engine: Engine, objSizes: map<int, int>) {
    predicate Valid() {
      forall t :: t in objSizes ==> objSizes[t] >= 0
    }
  }

  // What the stream's handle map holds for an open handle: an engine handle, or
  // the pipe into the one PUT that a coalesced write feeds, with the size the PUT
  // was announced with and the bytes it has taken.
  datatype Slot =
    | EngineHandle(target: string, readable: bool, writable: bool)
    | ObjectWrite(target: string, announced: int, taken: int)

  // The first two would be a crash; the others are errors that are recorded.
  datatype Fault = AbsentField | TargetOutOfRange | UnknownHandle | BadAccess | Unsupported | PipeClosed | PutCutShort

  // The handle map afterwards, and what went wrong if anything did.
  datatype Outcome = Outcome(handles: map<int, Slot>, fault: Option<Fault>)

  predicate Coalesces(b: Backend, op: Op) {
    op.kind.OpOpen? && op.mode == ModeWrite && op.tgt.Some? && op.tgt.value in b.objSizes
  }

  // An object engine opens for reading only.
  predicate EngineOpens(engine: Engine, mode: Mode) {
    engine.FileEngine? || mode == ModeRead
  }

  // The access an engine's handle gives. A write-only file is opened for reading
  // as well when it goes through O_DIRECT, whose writes read first.
  predicate CanRead(engine: Engine, opener: Op) {
    opener.mode != ModeWrite || (engine.FileEngine? && engine.direct && "direct" in opener.flags)
  }

  predicate CanWrite(engine: Engine, opener: Op) {
    engine.FileEngine? && (opener.mode == ModeWrite || opener.mode == ModeReadWrite)
  }

  function LookUp(handles: map<int, Slot>, op: Op): Option<Slot> {
    if op.h.Some? && op.h.value in handles then Some(handles[op.h.value]) else None
  }

  function Done(handles: map<int, Slot>): Outcome {
    Outcome(handles, None)
  }

  function Failed(handles: map<int, Slot>, fault: Fault): Outcome {
    Outcome(handles, Some(fault))
  }

  function NeedTarget(h: Header, op: Op, handles: map<int, Slot>): Outcome {
    if op.tgt.None? then Failed(handles, AbsentField)
    else if !(0 <= op.tgt.value < |h.targets|) then Failed(handles, TargetOutOfRange)
    else Done(handles)
  }

  // A call through an engine handle that must allow it.
  function ThroughHandle(held: Option<Slot>, allowed: bool, handles: map<int, Slot>): Outcome {
    if held.None? || held.value.ObjectWrite? then Failed(handles, UnknownHandle)
    else if allowed then Done(handles)
    else Failed(handles, BadAccess)
  }

  // A PUT reads what it was announced with and no more. Once it has that, the pipe
  // is closed: a WRITE that goes on, or an empty one that comes later, fails.
  predicate PutTakes(announced: int, taken: int, len: int) {
    taken < announced && taken + len <= announced
  }

  function FeedPut(slot: Slot, x: int, len: int, handles: map<int, Slot>): Outcome
    requires slot.ObjectWrite?
  {
    var after := handles[x := slot.(taken := Min(slot.announced, slot.taken + len))];
    if PutTakes(slot.announced, slot.taken, len) then Done(after) else Failed(after, PipeClosed)
  }

  // A PUT that got less than it was announced with fails, and then its handle
  // stays in the map.
  function FinishPut(slot: Slot, x: int, handles: map<int, Slot>): Outcome
    requires slot.ObjectWrite?
  {
    if slot.taken == slot.announced then Done(handles - {x}) else Failed(handles, PutCutShort)
  }

  // One operation against an engine that refuses nothing it supports. A file
  // engine performs an empty WRITE without asking for access.
  function DispatchOp(h: Header, b: Backend, handles: map<int, Slot>, op: Op): Outcome {
    var held := LookUp(handles, op);
    match op.kind
    case OpOpen =>
      var needed := NeedTarget(h, op, handles);
      if needed.fault.Some? then needed
      else if op.h.None? then Failed(handles, AbsentField)
      else
        var name := h.targets[op.tgt.value].name;
        if Coalesces(b, op) then Done(handles[op.h.value := ObjectWrite(name, b.objSizes[op.tgt.value], 0)])
        else if !EngineOpens(b.engine, op.mode) then Failed(handles, Unsupported)
        else Done(handles[op.h.value := EngineHandle(name, CanRead(b.engine, op), CanWrite(b.engine, op))])
    case OpRead =>
      if op.h.None? || op.off.None? || op.len.None? then Failed(handles, AbsentField)
      else ThroughHandle(held, held.Some? && held.value.EngineHandle? && held.value.readable, handles)
    case OpWrite =>
      if op.h.None? || op.off.None? || op.len.None? then Failed(handles, AbsentField)
      else if held.Some? && held.value.ObjectWrite? then FeedPut(held.value, op.h.value, op.len.value, handles)
      else if b.engine.ObjectEngine? then Failed(handles, Unsupported)
      else
        var writable := held.Some? && held.value.EngineHandle? && held.value.writable;
        ThroughHandle(held, writable || op.len.value == 0, handles)
    case OpFsync =>
      if op.h.None? then Failed(handles, AbsentField)
      else if held.Some? && held.value.ObjectWrite? then Done(handles)
      else if b.engine.ObjectEngine? then Failed(handles, Unsupported)
      else ThroughHandle(held, true, handles)
    case OpClose =>
      if op.h.None? then Failed(handles, AbsentField)
      else if held.None? then Failed(handles, UnknownHandle)
      else if held.value.ObjectWrite? then FinishPut(held.value, op.h.value, handles)
      else Done(handles - {op.h.value})
    case OpStat => NeedTarget(h, op, handles)
    case OpHead => NeedTarget(h, op, handles)
    case OpDelete => NeedTarget(h, op, handles)
    case OpPut => if op.len.None? then Failed(handles, AbsentField) else NeedTarget(h, op, handles)
    case OpGet =>
      if op.off.None? || op.len.None? then Failed(handles, AbsentField) else NeedTarget(h, op, handles)
    case OtherOp(_) => Done(handles)
  }

  // ----- Which operations fail -----

  // How the OPEN of a handle came out.
  datatype Binding = Unopened | Bound(readable: bool, writable: bool) | Streamed(announced: int) | Refused

  function BindingAt(b: Backend, op: Op): Binding {
    if Coalesces(b, op) then Streamed(b.objSizes[op.tgt.value])
    else if EngineOpens(b.engine, op.mode) then Bound(CanRead(b.engine, op), CanWrite(b.engine, op))
    else Refused
  }

  function BindingOf(b: Backend, ops: seq<Op>, x: int): Binding {
    if ops == [] then Unopened
    else
      var last := ops[|ops|-1];
      if last.kind.OpOpen? && last.h == Some(x) then BindingAt(b, last) else BindingOf(b, ops[..|ops|-1], x)
  }

  // The bytes the WRITEs of a handle bring.
  function FedBy(op: Op, x: int): int {
    if op.kind.OpWrite? && op.h == Some(x) then op.len.GetOr(0) else 0
  }

  function Fed(ops: seq<Op>, x: int): int {
    if ops == [] then 0 else Fed(ops[..|ops|-1], x) + FedBy(ops[|ops|-1], x)
  }

  // An OPEN the engine refuses fails, and so does everything on its handle. A READ
  // needs an engine handle that reads; a WRITE that brings something one that
  // writes, or a PUT that takes it; a CLOSE a PUT that got all it was announced
  // with; and an object engine has no WRITE or FSYNC of its own.
  predicate Condemned(engine: Engine, how: Binding, fed: int, op: Op) {
    match op.kind
    case OpRead => how.Refused? || how.Streamed? || (how.Bound? && !how.readable)
    case OpWrite =>
      || how.Refused?
      || (how.Bound? && !how.writable && (engine.ObjectEngine? || op.len != Some(0)))
      || (how.Streamed? && !PutTakes(how.announced, fed, op.len.GetOr(0)))
    case OpFsync => how.Refused? || (how.Bound? && engine.ObjectEngine?)
    case OpClose => how.Refused? || (how.Streamed? && fed < how.announced)
    case _ => false
  }

  // The operation fails after those in past.
  predicate FailsAfter(b: Backend, past: seq<Op>, op: Op) {
    && op.h.Some?
    && if op.kind.OpOpen? then BindingAt(b, op).Refused?
       else Condemned(b.engine, BindingOf(b, past, op.h.value), Fed(past, op.h.value), op)
  }

  function Failures(b: Backend, mine: seq<Op>): set<int> {
    set i | 0 <= i < |mine| && FailsAfter(b, mine[..i], mine[i])
  }

  // The handles a stream still holds: those whose OPEN was not refused and that
  // are live or whose PUT got less than it was announced with.
  predicate Holds(how: Binding, live: bool, fed: int) {
    !how.Unopened? && !how.Refused? && (live || (how.Streamed? && fed < how.announced))
  }

  function Held(b: Backend, mine: seq<Op>): set<int> {
    set x | x in Opened(mine) && Holds(BindingOf(b, mine, x), x in Live(mine), Fed(mine, x))
  }

  // ----- The handle map -----

  predicate Reflects(slot: Slot, how: Binding, fed: int) {
    match slot
    case ObjectWrite(_, announced, taken) => how == Streamed(announced) && taken == Min(announced, fed)
    case EngineHandle(_, readable, writable) => how == Bound(readable, writable)
  }

  ghost predicate HandleMap(b: Backend, past: seq<Op>, handles: map<int, Slot>) {
    && handles.Keys == Held(b, past)
    && (forall x :: x in handles ==> Reflects(handles[x], BindingOf(b, past, x), Fed(past, x)))
  }

  lemma {:induction false} OpenedAreBound(b: Backend, ops: seq<Op>, x: int)
    ensures BindingOf(b, ops, x).Unopened? <==> x !in Opened(ops)
  {
    if ops != [] {
      var past, op := ops[..|ops|-1], ops[|ops|-1];
      OpenedAreBound(b, past, x);
      assert ops == past + [op];
      OpenedSnoc(past, op);
    }
  }

  lemma BindingSnoc(b: Backend, past: seq<Op>, op: Op, x: int)
    ensures BindingOf(b, past + [op], x) ==
            if op.kind.OpOpen? && op.h == Some(x) then BindingAt(b, op) else BindingOf(b, past, x)
  {
    assert (past + [op])[..|past|] == past;
  }

  lemma {:induction false} OnlyFilesAreWritten(b: Backend, ops: seq<Op>, x: int)
    ensures b.engine.ObjectEngine? && BindingOf(b, ops, x).Bound? ==> !BindingOf(b, ops, x).writable
  {
    if ops != [] {
      OnlyFilesAreWritten(b, ops[..|ops|-1], x);
    }
  }

  // A handle's binding does not change after its OPEN.
  lemma {:induction false} BindingStable(b: Backend, mine: seq<Op>, n: nat, x: int)
    requires n <= |mine| && StreamHandlesOk(mine) && x in Opened(mine[..n])
    ensures BindingOf(b, mine, x) == BindingOf(b, mine[..n], x)
  {
    if n == |mine| {
      assert mine[..n] == mine;
    } else {
      var k := |mine| - 1;
      StreamHandlesOkStep(mine[..k], mine[k]);
      assert mine == mine[..k] + [mine[k]];
      assert mine[..k][..n] == mine[..n];
      BindingStable(b, mine[..k], n, x);
      assert Opened(mine[..n]) <= Opened(mine[..k]);
    }
  }

  lemma FedSnoc(past: seq<Op>, op: Op, x: int)
    ensures Fed(past + [op], x) == Fed(past, x) + FedBy(op, x)
  {
    assert (past + [op])[..|past|] == past;
  }

  lemma HeldMeaning(b: Backend, past: seq<Op>, x: int)
    ensures x in Held(b, past) <==> Holds(BindingOf(b, past, x), x in Live(past), Fed(past, x))
    ensures BindingOf(b, past, x).Unopened? ==> x !in Live(past)
  {
    OpenedAreBound(b, past, x);
    LiveAreOpened(past);
  }

  // Dispatch succeeds or fails as the opening of the handle and the bytes it was
  // fed say, and never for want of a field or a target.
  lemma DispatchSucceeds(h: Header, b: Backend, past: seq<Op>, handles: map<int, Slot>, op: Op)
    requires ShapeOk(h, op) && LocalHandleOk(past, op) && HandleMap(b, past, handles)
    ensures var fault := DispatchOp(h, b, handles, op).fault;
            && (fault.Some? <==> FailsAfter(b, past, op))
            && (fault.Some? ==> fault.value in {UnknownHandle, BadAccess, Unsupported, PipeClosed, PutCutShort})
  {
    hide BindingOf, Live, Opened, Fed, Held;
    if op.kind.IsHandleOp() {
      HeldMeaning(b, past, op.h.value);
      OnlyFilesAreWritten(b, past, op.h.value);
      assert op.h.value in handles <==> op.h.value in Held(b, past);
    }
  }

  lemma HeldSnoc(b: Backend, past: seq<Op>, op: Op, x: int)
    requires LocalHandleOk(past, op)
    ensures x in Held(b, past + [op]) <==>
              if op.kind.OpOpen? && op.h == Some(x) then !BindingAt(b, op).Refused?
              else if op.kind.OpClose? && op.h == Some(x) then Holds(BindingOf(b, past, x), false, Fed(past, x))
              else x in Held(b, past)
  {
    HeldMeaning(b, past, x);
    HeldMeaning(b, past + [op], x);
    LiveSnoc(past, op, 0);
    BindingSnoc(b, past, op, x);
    FedSnoc(past, op, x);
    hide BindingOf, Live, Opened, Fed, Held;
  }

  // Nothing is written through a handle before its OPEN.
  lemma {:induction false} NothingFedYet(past: seq<Op>, x: int)
    requires StreamHandlesOk(past) && x !in Opened(past)
    ensures Fed(past, x) == 0
  {
    if past != [] {
      var front, op := past[..|past|-1], past[|past|-1];
      assert past == front + [op];
      StreamHandlesOkStep(front, op);
      LiveAreOpened(front);
      OpenedSnoc(front, op);
      NothingFedYet(front, x);
    }
  }

  // The slot of x after each kind of operation.
  lemma SlotAfterOpen(h: Header, b: Backend, handles: map<int, Slot>, op: Op, x: int)
    requires ShapeOk(h, op) && op.kind.OpOpen? && b.Valid()
    ensures var after := DispatchOp(h, b, handles, op).handles;
            if op.h != Some(x) || BindingAt(b, op).Refused?
            then (x in after <==> x in handles) && (x in after ==> after[x] == handles[x])
            else x in after && Reflects(after[x], BindingAt(b, op), 0)
  {
  }

  lemma SlotAfterWrite(h: Header, b: Backend, handles: map<int, Slot>, op: Op, x: int, how: Binding, fed: int)
    requires ShapeOk(h, op) && op.kind.OpWrite? && (x in handles ==> Reflects(handles[x], how, fed))
    ensures var after := DispatchOp(h, b, handles, op).handles;
            && (x in after <==> x in handles)
            && (x in after ==> Reflects(after[x], how, fed + FedBy(op, x)))
  {
  }

  lemma SlotAfterClose(h: Header, b: Backend, handles: map<int, Slot>, op: Op, x: int, how: Binding, fed: int)
    requires ShapeOk(h, op) && op.kind.OpClose? && (x in handles ==> Reflects(handles[x], how, fed))
    ensures var after := DispatchOp(h, b, handles, op).handles;
            && (x in after <==> x in handles && (op.h == Some(x) ==> Holds(how, false, fed)))
            && (x in after ==> after[x] == handles[x])
  {
  }

  lemma SlotAfterOther(h: Header, b: Backend, handles: map<int, Slot>, op: Op)
    requires !op.kind.OpOpen? && !op.kind.OpWrite? && !op.kind.OpClose?
    ensures DispatchOp(h, b, handles, op).handles == handles
  {
  }

  lemma SlotStep(h: Header, b: Backend, past: seq<Op>, handles: map<int, Slot>, op: Op, x: int)
    requires ShapeOk(h, op) && LocalHandleOk(past, op) && HandleMap(b, past, handles) && b.Valid()
    requires StreamHandlesOk(past)
    ensures var after := DispatchOp(h, b, handles, op).handles;
            && (x in after <==> x in Held(b, past + [op]))
            && (x in after ==> Reflects(after[x], BindingOf(b, past + [op], x), Fed(past + [op], x)))
  {
    hide BindingOf, Live, Opened, Fed, Held, DispatchOp, Reflects;
    HeldMeaning(b, past, x);
    HeldSnoc(b, past, op, x);
    BindingSnoc(b, past, op, x);
    FedSnoc(past, op, x);
    assert x in handles <==> x in Held(b, past);
    var how, fed := BindingOf(b, past, x), Fed(past, x);
    if op.kind.OpOpen? {
      SlotAfterOpen(h, b, handles, op, x);
      if op.h == Some(x) {
        OpenedAreBound(b, past, x);
        NothingFedYet(past, x);
      }
    } else if op.kind.OpWrite? {
      SlotAfterWrite(h, b, handles, op, x, how, fed);
    } else if op.kind.OpClose? {
      SlotAfterClose(h, b, handles, op, x, how, fed);
    } else {
      SlotAfterOther(h, b, handles, op);
    }
  }

  lemma DispatchKeepsMap(h: Header, b: Backend, past: seq<Op>, handles: map<int, Slot>, op: Op)
    requires ShapeOk(h, op) && LocalHandleOk(past, op) && HandleMap(b, past, handles) && b.Valid()
    requires StreamHandlesOk(past)
    ensures HandleMap(b, past + [op], DispatchOp(h, b, handles, op).handles)
  {
    hide BindingOf, Live, Opened, Fed, Held, DispatchOp, Reflects;
    var after, held := DispatchOp(h, b, handles, op).handles, Held(b, past + [op]);
    forall x ensures x in after.Keys <==> x in held {
      SlotStep(h, b, past, handles, op, x);
    }
    assert after.Keys == held;
    forall x | x in after ensures Reflects(after[x], BindingOf(b, past + [op], x), Fed(past + [op], x)) {
      SlotStep(h, b, past, handles, op, x);
    }
  }

  // A handle is known under the name of the target its OPEN gave.
  ghost predicate NamesTargets(h: Header, past: seq<Op>, handles: map<int, Slot>) {
    forall x, opener :: x in handles && opener in past && opener.kind.OpOpen? && opener.h == Some(x) ==>
      opener.tgt.Some? && 0 <= opener.tgt.value < |h.targets| && handles[x].target == h.targets[opener.tgt.value].name
  }

  // An operation leaves the name of a handle alone, unless it opens it.
  lemma NameAfter(h: Header, b: Backend, handles: map<int, Slot>, op: Op, x: int)
    requires ShapeOk(h, op)
    ensures var after := DispatchOp(h, b, handles, op).handles;
            && (x in after && !(op.kind.OpOpen? && op.h == Some(x)) ==>
                  x in handles && after[x].target == handles[x].target)
            && (x in after && op.kind.OpOpen? && op.h == Some(x) ==>
                  x in handles || after[x].target == h.targets[op.tgt.value].name)
  {
  }

  lemma DispatchKeepsNames(h: Header, b: Backend, past: seq<Op>, handles: map<int, Slot>, op: Op)
    requires ShapeOk(h, op) && LocalHandleOk(past, op) && HandleMap(b, past, handles) && NamesTargets(h, past, handles)
    ensures NamesTargets(h, past + [op], DispatchOp(h, b, handles, op).handles)
  {
    var after := DispatchOp(h, b, handles, op).handles;
    HandlesAreOpened(b, past, handles);
    hide DispatchOp, HandleMap, Reflects;
    forall x, opener | x in after && opener in past + [op] && opener.kind.OpOpen? && opener.h == Some(x)
      ensures opener.tgt.Some? && 0 <= opener.tgt.value < |h.targets|
      ensures after[x].target == h.targets[opener.tgt.value].name
    {
      NameAfter(h, b, handles, op, x);
      if opener in past {
        assert x in Opened(past);
      } else {
        assert opener == op;
      }
    }
  }

  lemma HandlesAreOpened(b: Backend, past: seq<Op>, handles: map<int, Slot>)
    requires HandleMap(b, past, handles)
    ensures handles.Keys <= Opened(past)
  {
  }

  // The replay loop of one stream. An operation that fails is recorded and the
  // loop goes on, so every operation is dispatched; which ones fail is decided by
  // how their handles were opened and what was written through them.
  method ReplayStream(h: Header, mine: seq<Op>, b: Backend)
      returns (handles: map<int, Slot>, dispatched: nat, failed: set<int>)
    requires StreamSound(h, mine) && b.Valid()
    ensures dispatched == |mine|
    ensures failed == Failures(b, mine)
    ensures handles.Keys == Held(b, mine)
    ensures NamesTargets(h, mine, handles)
  {
    hide HandleMap, DispatchOp, FailsAfter, Held, Opened, ShapeOk, NamesTargets;
    EmptyHandleMap(h, b);
    handles, dispatched, failed := map[], 0, {};
    while dispatched < |mine|
      invariant 0 <= dispatched <= |mine|
      invariant StreamHandlesOk(mine[..dispatched]) && HandleMap(b, mine[..dispatched], handles)
      invariant NamesTargets(h, mine[..dispatched], handles)
      invariant failed == set i | 0 <= i < dispatched && FailsAfter(b, mine[..i], mine[i])
    {
      var op := mine[dispatched];
      ghost var past := mine[..dispatched];
      assert LocalHandleOk(past, op);
      assert mine[..dispatched + 1] == past + [op];
      StreamHandlesOkStep(past, op);
      DispatchSucceeds(h, b, past, handles, op);
      DispatchKeepsMap(h, b, past, handles, op);
      DispatchKeepsNames(h, b, past, handles, op);
      var outcome := DispatchOp(h, b, handles, op);
      handles := outcome.handles;
      if outcome.fault.Some? {
        failed := failed + {dispatched};
      }
      dispatched := dispatched + 1;
    }
    assert mine[..|mine|] == mine;
    HandleMapKeys(b, mine, handles);
  }

  lemma EmptyHandleMap(h: Header, b: Backend)
    ensures HandleMap(b, [], map[]) && NamesTargets(h, [], map[])
  {
  }

  lemma HandleMapKeys(b: Backend, past: seq<Op>, handles: map<int, Slot>)
    requires HandleMap(b, past, handles)
    ensures handles.Keys == Held(b, past)
  {
  }

  // One stream of a trace the validator accepts, whatever worker it went to.
  ghost predicate StreamSound(h: Header, mine: seq<Op>) {
    StreamHandlesOk(mine) && forall op :: op in mine ==> ShapeOk(h, op)
  }

  lemma StreamIsSound(h: Header, ops: seq<Op>, s: int)
    requires CleanOps(h, ops)
    ensures StreamSound(h, OnStream(ops, s))
  {
    HandlesOkOnStream(ops, s);
    OnStreamOps(ops, s);
  }

  // ----- An engine with offset writes opens everything -----

  function Files(direct: bool): Backend {
    Backend(FileEngine(direct), map[])
  }

  lemma {:induction false} FilesRefuseNone(direct: bool, ops: seq<Op>, x: int)
    ensures BindingOf(Files(direct), ops, x).Unopened? || BindingOf(Files(direct), ops, x).Bound?
  {
    if ops != [] {
      FilesRefuseNone(direct, ops[..|ops|-1], x);
    }
  }

  lemma FilesHoldLiveHandles(direct: bool, mine: seq<Op>)
    ensures Held(Files(direct), mine) == Live(mine)
  {
    hide BindingOf, Live, Opened, Fed, Held, Files;
    forall x ensures x in Held(Files(direct), mine) <==> x in Live(mine) {
      FilesRefuseNone(direct, mine, x);
      HeldMeaning(Files(direct), mine, x);
    }
  }
}
