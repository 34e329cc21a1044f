// Which write lifecycles may be replayed as one PUT (pkg/replay/objectwrite.go:
// 17-98), and that doing so writes the same bytes.
module ObjectWrite {
  import opened Trace
  import opened TraceContract
  import opened Files

  // ----- The PREPARE pass -----

  datatype OpenWrite = OpenWrite(target: int, mode: Mode, nextOff: int)

  datatype Tracking = Tracking(handles: map<int, OpenWrite>, sizes: map<int, int>)

  const EMPTY := Tracking(map[], map[])

  function DeclaredSize(targets: seq<TargetInfo>, target: int): int {
    if 0 <= target < |targets| then targets[target].size else 0
  }

  // None is the error that makes Prepare fail.
  function Observe(st: Tracking, op: Op, targets: seq<TargetInfo>): Option<Tracking> {
    match op.kind
    case OpOpen =>
      if op.h.None? || op.tgt.None? then Some(st)
      else Some(st.(handles := st.handles[op.h.value := OpenWrite(op.tgt.value, op.mode, 0)]))
    case OpWrite =>
      if op.h.None? || op.h.value !in st.handles then Some(st)
      else
        var w := st.handles[op.h.value];
        if w.mode != ModeWrite then None
        else if op.off.None? || op.len.None? then Some(st)
        else if op.off.value != w.nextOff then None
        else Some(st.(handles := st.handles[op.h.value := w.(nextOff := w.nextOff + op.len.value)]))
    case OpClose =>
      if op.h.None? || op.h.value !in st.handles then Some(st)
      else
        var w := st.handles[op.h.value];
        var closed := st.(handles := st.handles - {op.h.value});
        if w.mode != ModeWrite then Some(closed)
        else if !(0 <= w.target < |targets|) then Some(closed)
        else if targets[w.target].size > 0 && w.nextOff != targets[w.target].size then None
        else Some(closed.(sizes := closed.sizes[w.target := w.nextOff]))
    case _ => Some(st)
  }

  function ObserveAll(ops: seq<Op>, targets: seq<TargetInfo>): Option<Tracking> {
    if ops == [] then Some(EMPTY)
    else
      match ObserveAll(ops[..|ops|-1], targets)
      case None => None
      case Some(st) => Observe(st, ops[|ops|-1], targets)
  }

  class Eligibility {
    var handles: map<int, OpenWrite>
    var sizes: map<int, int>

    function Value(): Tracking
      reads this
    {
      Tracking(handles, sizes)
    }

    constructor ()
      ensures Value() == EMPTY
    {
      handles, sizes := map[], map[];
    }

    method Update(op: Op, targets: seq<TargetInfo>) returns (ok: bool)
      modifies this
      ensures ok <==> Observe(old(Value()), op, targets).Some?
      ensures ok ==> Value() == Observe(old(Value()), op, targets).value
    {
      match op.kind {
        case OpOpen =>
          if op.h.None? || op.tgt.None? {
            return true;
          }
          handles := handles[op.h.value := OpenWrite(op.tgt.value, op.mode, 0)];
        case OpWrite =>
          if op.h.None? || op.h.value !in handles {
            return true;
          }
          var w := handles[op.h.value];
          if w.mode != ModeWrite {
            return false;
          }
          if op.off.None? || op.len.None? {
            return true;
          }
          if op.off.value != w.nextOff {
            return false;
          }
          handles := handles[op.h.value := w.(nextOff := w.nextOff + op.len.value)];
        case OpClose =>
          if op.h.None? || op.h.value !in handles {
            return true;
          }
          var w := handles[op.h.value];
          handles := handles - {op.h.value};
          if w.mode != ModeWrite || !(0 <= w.target < |targets|) {
            return true;
          }
          var size := targets[w.target].size;
          if size > 0 && w.nextOff != size {
            return false;
          }
          sizes := sizes[w.target := w.nextOff];
        case _ =>
      }
      ok := true;
    }

    // The callback over a whole trace, stopping at the first ineligible write.
    method UpdateAll(ops: seq<Op>, targets: seq<TargetInfo>) returns (ok: bool)
      requires Value() == EMPTY
      modifies this
      ensures ok <==> ObserveAll(ops, targets).Some?
      ensures ok ==> Value() == ObserveAll(ops, targets).value
    {
      for i := 0 to |ops|
        invariant ObserveAll(ops[..i], targets) == Some(Value())
      {
        assert ops[..i+1][..i] == ops[..i] && ops[..i+1][i] == ops[i];
        var fine := Update(ops[i], targets);
        if !fine {
          RejectedForGood(ops, i + 1, targets);
          return false;
        }
      }
      assert ops[..|ops|] == ops;
      ok := true;
    }
  }

  lemma {:induction false} RejectedForGood(ops: seq<Op>, n: nat, targets: seq<TargetInfo>)
    requires n <= |ops| && ObserveAll(ops[..n], targets).None?
    ensures ObserveAll(ops, targets).None?
  {
    if n == |ops| {
      assert ops[..n] == ops;
    } else {
      assert ops[..|ops|-1][..n] == ops[..n];
      RejectedForGood(ops[..|ops|-1], n, targets);
    }
  }

  ghost predicate Lengths(st: Tracking) {
    && (forall h :: h in st.handles ==> st.handles[h].nextOff >= 0)
    && (forall t :: t in st.sizes ==> st.sizes[t] >= 0)
  }

  lemma ObserveKeepsLengths(hdr: Header, st: Tracking, op: Op)
    requires Lengths(st) && ShapeOk(hdr, op) && Observe(st, op, hdr.targets).Some?
    ensures Lengths(Observe(st, op, hdr.targets).value)
  {
    if op.h.Some? && op.h.value in st.handles {
      var x := op.h.value;
      assert st.handles[x].nextOff >= 0;
    }
  }

  // The sizes kept of a clean trace are lengths.
  lemma {:induction false} SizesAreLengths(hdr: Header, ops: seq<Op>)
    requires CleanOps(hdr, ops) && ObserveAll(ops, hdr.targets).Some?
    ensures Lengths(ObserveAll(ops, hdr.targets).value)
  {
    hide CleanOps, Observe;
    if ops != [] {
      var past, op := ops[..|ops|-1], ops[|ops|-1];
      assert ops == past + [op];
      CleanOpsPrefix(hdr, past, op);
      LastShape(hdr, past, op);
      SizesAreLengths(hdr, past);
      ObserveKeepsLengths(hdr, ObserveAll(past, hdr.targets).value, op);
    }
  }

  lemma LastShape(hdr: Header, past: seq<Op>, op: Op)
    requires CleanOps(hdr, past + [op])
    ensures ShapeOk(hdr, op)
  {
    assert (past + [op])[|past|] == op;
  }

  // ----- What a handle's lifecycle writes, two ways -----

  // The bytes written at their offsets into an empty file, and the same writes
  // streamed one after another into a PUT.
  datatype Life =
    | NoLife
    | Life(target: int, mode: Mode, closed: bool, file: seq<Byte>, streamed: seq<Byte>)

  // chunks[i] is what operation i writes.
  ghost predicate Chunked(ops: seq<Op>, chunks: seq<seq<Byte>>) {
    |chunks| == |ops| && forall i :: 0 <= i < |ops| && ops[i].kind.OpWrite? ==> ops[i].len == Some(|chunks[i]|)
  }

  function LifeAfter(life: Life, op: Op, chunk: seq<Byte>, h: int): Life {
    if op.h != Some(h) then life
    else if op.kind.OpOpen? && op.tgt.Some? then Life(op.tgt.value, op.mode, false, [], [])
    else if life.NoLife? then life
    else if op.kind.OpWrite? && op.off.Some? && op.off.value >= 0 then
      life.(file := Written(life.file, op.off.value, chunk), streamed := life.streamed + chunk)
    else if op.kind.OpClose? then life.(closed := true)
    else life
  }

  function LifeOf(ops: seq<Op>, chunks: seq<seq<Byte>>, h: int): Life
    requires |ops| == |chunks|
  {
    if ops == [] then NoLife
    else LifeAfter(LifeOf(ops[..|ops|-1], chunks[..|ops|-1], h), ops[|ops|-1], chunks[|ops|-1], h)
  }

  lemma LifeSnoc(past: seq<Op>, op: Op, chunks: seq<seq<Byte>>, chunk: seq<Byte>, h: int)
    requires |past| == |chunks|
    ensures LifeOf(past + [op], chunks + [chunk], h) == LifeAfter(LifeOf(past, chunks, h), op, chunk, h)
  {
    assert (past + [op])[..|past|] == past && (chunks + [chunk])[..|past|] == chunks;
  }

  // ----- In a clean trace, an operation's handle has a life in progress -----

  predicate InProgress(life: Life) {
    life.Life? && !life.closed
  }

  ghost predicate LiveInProgress(ops: seq<Op>, chunks: seq<seq<Byte>>)
    requires |ops| == |chunks|
  {
    && (forall s, h :: h in Live(OnStream(ops, s)) ==> InProgress(LifeOf(ops, chunks, h)))
    && (forall s, s', h :: h in Live(OnStream(ops, s)) && h in Live(OnStream(ops, s')) ==> s == s')
    && (forall s, h :: h in Live(OnStream(ops, s)) ==> h in Opened(ops))
  }

  lemma LiveInProgressStep(past: seq<Op>, op: Op, chunks: seq<seq<Byte>>, chunk: seq<Byte>)
    requires |past| == |chunks| && LiveInProgress(past, chunks)
    requires HandleOk(past, op) && (op.kind.OpOpen? ==> op.tgt.Some?)
    ensures LiveInProgress(past + [op], chunks + [chunk])
  {
    hide OnStream, Live, Opened, LifeOf;
    var all, more := past + [op], chunks + [chunk];
    OpenedSnoc(past, op);
    forall s, h | h in Live(OnStream(all, s))
      ensures InProgress(LifeOf(all, more, h)) && h in Opened(all)
      ensures h in Live(OnStream(past, s)) || (op.s == s && op.kind.OpOpen? && op.h == Some(h))
    {
      LiveSnoc(past, op, s);
      LifeSnoc(past, op, chunks, chunk, h);
    }
    forall s, s', h | h in Live(OnStream(all, s)) && h in Live(OnStream(all, s')) ensures s == s' {
      assert h in Live(OnStream(past, s)) ==> h in Opened(past);
      assert h in Live(OnStream(past, s')) ==> h in Opened(past);
    }
  }

  lemma {:induction false} CleanIsInProgress(h: Header, ops: seq<Op>, chunks: seq<seq<Byte>>)
    requires |ops| == |chunks| && HandlesOk(ops) && forall i :: 0 <= i < |ops| ==> ShapeOk(h, ops[i])
    ensures LiveInProgress(ops, chunks)
  {
    if ops != [] {
      var n := |ops| - 1;
      HandlesOkPrefix(ops, n);
      CleanIsInProgress(h, ops[..n], chunks[..n]);
      assert HandleOk(ops[..n], ops[n]) && ShapeOk(h, ops[n]);
      LiveInProgressStep(ops[..n], ops[n], chunks[..n], chunks[n]);
      assert ops == ops[..n] + [ops[n]] && chunks == chunks[..n] + [chunks[n]];
    }
  }

  // ----- What the pass knows of each life -----

  predicate Known(w: OpenWrite, life: Life) {
    InProgress(life) && w.target == life.target && w.mode == life.mode
    && (w.mode == ModeWrite ==> w.nextOff == |life.streamed|)
  }

  // Both ways of writing give the same bytes, as many as were declared.
  predicate Faithful(targets: seq<TargetInfo>, life: Life) {
    life.Life? && life.mode == ModeWrite ==>
      && life.file == life.streamed
      && (life.closed && DeclaredSize(targets, life.target) > 0 ==>
            |life.streamed| == DeclaredSize(targets, life.target))
  }

  predicate ClosedWrite(life: Life, target: int) {
    life.Life? && life.closed && life.mode == ModeWrite && life.target == target
  }

  ghost predicate Tracked(st: Tracking, ops: seq<Op>, chunks: seq<seq<Byte>>)
    requires |ops| == |chunks|
  {
    && (forall h :: h in st.handles ==> Known(st.handles[h], LifeOf(ops, chunks, h)))
    && (forall h :: InProgress(LifeOf(ops, chunks, h)) ==> h in st.handles)
  }

  ghost predicate AllFaithful(targets: seq<TargetInfo>, ops: seq<Op>, chunks: seq<seq<Byte>>)
    requires |ops| == |chunks|
  {
    forall h :: Faithful(targets, LifeOf(ops, chunks, h))
  }

  // The handle whose CLOSE was the last to complete a write of target t.
  function LastCloser(ops: seq<Op>, chunks: seq<seq<Byte>>, t: int): Option<int>
    requires |ops| == |chunks|
  {
    if ops == [] then None
    else
      var n := |ops| - 1;
      var op := ops[n];
      if op.kind.OpClose? && op.h.Some? && CompletesWrite(LifeOf(ops[..n], chunks[..n], op.h.value), t) then op.h
      else LastCloser(ops[..n], chunks[..n], t)
  }

  predicate CompletesWrite(life: Life, t: int) {
    InProgress(life) && life.mode == ModeWrite && life.target == t
  }

  lemma LastCloserSnoc(past: seq<Op>, op: Op, chunks: seq<seq<Byte>>, chunk: seq<Byte>, t: int)
    requires |past| == |chunks|
    ensures LastCloser(past + [op], chunks + [chunk], t) ==
            if op.kind.OpClose? && op.h.Some? && CompletesWrite(LifeOf(past, chunks, op.h.value), t) then op.h
            else LastCloser(past, chunks, t)
  {
    assert (past + [op])[..|past|] == past && (chunks + [chunk])[..|past|] == chunks;
  }

  // A size is kept for every target some write closed on, and it is what the last
  // of those writes to close streamed.
  ghost predicate SizesKept(st: Tracking, targets: seq<TargetInfo>, ops: seq<Op>, chunks: seq<seq<Byte>>)
    requires |ops| == |chunks|
  {
    && (forall t :: t in st.sizes <==> 0 <= t < |targets| && LastCloser(ops, chunks, t).Some?)
    && (forall t :: t in st.sizes ==> StreamedTo(ops, chunks, LastCloser(ops, chunks, t).value, t, st.sizes[t]))
    && (forall h, t :: ClosedWrite(LifeOf(ops, chunks, h), t) ==> LastCloser(ops, chunks, t).Some?)
  }

  ghost predicate StreamedTo(ops: seq<Op>, chunks: seq<seq<Byte>>, h: int, t: int, size: int)
    requires |ops| == |chunks|
  {
    var life := LifeOf(ops, chunks, h);
    ClosedWrite(life, t) && |life.streamed| == size
  }

  // The operation is one the pass lets by, in terms of the bytes so far.
  predicate Acceptable(targets: seq<TargetInfo>, life: Life, op: Op) {
    && (op.kind.OpWrite? && InProgress(life) ==>
          life.mode == ModeWrite && op.off == Some(|life.streamed|))
    && (op.kind.OpClose? && InProgress(life) && life.mode == ModeWrite && DeclaredSize(targets, life.target) > 0 ==>
          |life.streamed| == DeclaredSize(targets, life.target))
  }

  // ----- One step -----

  ghost predicate Ready(op: Op, life: Life) {
    && (op.kind.OpOpen? ==> op.h.Some? && op.tgt.Some? && life.NoLife?)
    && (op.kind.IsHandleOp() ==> op.h.Some? && InProgress(life))
    && (op.kind.OpWrite? ==> NonNegative(op.off) && NonNegative(op.len))
  }

  lemma ObserveAccepts(st: Tracking, targets: seq<TargetInfo>, op: Op, life: Life)
    requires op.kind.IsHandleOp() ==> op.h.Some? && op.h.value in st.handles && Known(st.handles[op.h.value], life)
    requires Ready(op, life)
    ensures Observe(st, op, targets).Some? <==> Acceptable(targets, life, op)
  {
  }

  lemma ObserveTracksHandle(st: Tracking, targets: seq<TargetInfo>, op: Op, chunk: seq<Byte>, life: Life, h: int)
    requires Observe(st, op, targets).Some? && (op.h == Some(h) ==> Ready(op, life))
    requires h in st.handles <==> InProgress(life)
    requires h in st.handles ==> Known(st.handles[h], life)
    requires op.kind.OpWrite? ==> op.len == Some(|chunk|)
    ensures var after, life' := Observe(st, op, targets).value, LifeAfter(life, op, chunk, h);
            && (h in after.handles <==> InProgress(life'))
            && (h in after.handles ==> Known(after.handles[h], life'))
  {
  }

  lemma StaysFaithful(st: Tracking, targets: seq<TargetInfo>, op: Op, chunk: seq<Byte>, life: Life, h: int)
    requires Observe(st, op, targets).Some? && (op.h == Some(h) ==> Ready(op, life))
    requires h in st.handles <==> InProgress(life)
    requires h in st.handles ==> Known(st.handles[h], life)
    requires op.kind.OpWrite? ==> op.len == Some(|chunk|)
    requires Faithful(targets, life)
    ensures Faithful(targets, LifeAfter(life, op, chunk, h))
  {
    if op.h == Some(h) && op.kind.OpWrite? && life.mode == ModeWrite {
      assert Written(life.file, |life.file|, chunk) == life.file + chunk;
    }
  }

  // What a clean trace offers about its next operation.
  lemma NextIsReady(hdr: Header, past: seq<Op>, chunks: seq<seq<Byte>>, op: Op)
    requires |past| == |chunks| && LiveInProgress(past, chunks) && HandleOk(past, op) && ShapeOk(hdr, op)
    requires forall h :: LifeOf(past, chunks, h).Life? ==> h in Opened(past)
    ensures op.h.Some? ==> Ready(op, LifeOf(past, chunks, op.h.value))
    ensures op.kind.IsHandleOp() || op.kind.OpOpen? ==> op.h.Some?
  {
  }

  lemma {:induction false} LivesAreOpened(ops: seq<Op>, chunks: seq<seq<Byte>>, h: int)
    requires |ops| == |chunks|
    ensures LifeOf(ops, chunks, h).Life? ==> h in Opened(ops)
  {
    if ops != [] {
      var n := |ops| - 1;
      LivesAreOpened(ops[..n], chunks[..n], h);
      assert ops == ops[..n] + [ops[n]];
      OpenedSnoc(ops[..n], ops[n]);
    }
  }

  lemma TrackedStep(st: Tracking, targets: seq<TargetInfo>, past: seq<Op>, chunks: seq<seq<Byte>>, op: Op,
                    chunk: seq<Byte>)
    requires |past| == |chunks| && Tracked(st, past, chunks) && Observe(st, op, targets).Some?
    requires op.h.Some? ==> Ready(op, LifeOf(past, chunks, op.h.value))
    requires op.kind.OpWrite? ==> op.len == Some(|chunk|)
    ensures Tracked(Observe(st, op, targets).value, past + [op], chunks + [chunk])
    ensures AllFaithful(targets, past, chunks) ==> AllFaithful(targets, past + [op], chunks + [chunk])
  {
    hide LifeOf, Observe, LifeAfter, Known, InProgress, Faithful, Ready;
    var after := Observe(st, op, targets).value;
    forall h
      ensures h in after.handles <==> InProgress(LifeOf(past + [op], chunks + [chunk], h))
      ensures h in after.handles ==> Known(after.handles[h], LifeOf(past + [op], chunks + [chunk], h))
      ensures Faithful(targets, LifeOf(past, chunks, h)) ==>
                Faithful(targets, LifeOf(past + [op], chunks + [chunk], h))
    {
      LifeSnoc(past, op, chunks, chunk, h);
      KnownIsInProgress(st, past, chunks, h);
      ObserveTracksHandle(st, targets, op, chunk, LifeOf(past, chunks, h), h);
      if Faithful(targets, LifeOf(past, chunks, h)) {
        StaysFaithful(st, targets, op, chunk, LifeOf(past, chunks, h), h);
      }
    }
  }

  lemma KnownIsInProgress(st: Tracking, ops: seq<Op>, chunks: seq<seq<Byte>>, h: int)
    requires |ops| == |chunks| && Tracked(st, ops, chunks)
    ensures h in st.handles <==> InProgress(LifeOf(ops, chunks, h))
    ensures h in st.handles ==> Known(st.handles[h], LifeOf(ops, chunks, h))
  {
  }

  // The size recorded is what the closing handle streamed; every other life and
  // every other size is untouched.
  lemma SizesStep(st: Tracking, targets: seq<TargetInfo>, past: seq<Op>, chunks: seq<seq<Byte>>, op: Op,
                  chunk: seq<Byte>)
    requires |past| == |chunks| && Tracked(st, past, chunks) && Observe(st, op, targets).Some?
    requires op.h.Some? ==> Ready(op, LifeOf(past, chunks, op.h.value))
    requires SizesKept(st, targets, past, chunks)
    ensures SizesKept(Observe(st, op, targets).value, targets, past + [op], chunks + [chunk])
  {
    hide LifeOf, LastCloser;
    var after := Observe(st, op, targets).value;
    var all, more := past + [op], chunks + [chunk];
    forall h ensures LifeOf(all, more, h) == LifeAfter(LifeOf(past, chunks, h), op, chunk, h) {
      LifeSnoc(past, op, chunks, chunk, h);
    }
    forall t
      ensures t in after.sizes <==> 0 <= t < |targets| && LastCloser(all, more, t).Some?
      ensures t in after.sizes ==> StreamedTo(all, more, LastCloser(all, more, t).value, t, after.sizes[t])
    {
      LastCloserSnoc(past, op, chunks, chunk, t);
      if op.h.Some? {
        KnownIsInProgress(st, past, chunks, op.h.value);
      }
      if t in st.sizes {
        assert StreamedTo(past, chunks, LastCloser(past, chunks, t).value, t, st.sizes[t]);
      }
    }
    forall h, t | ClosedWrite(LifeOf(all, more, h), t) ensures LastCloser(all, more, t).Some? {
      LastCloserSnoc(past, op, chunks, chunk, t);
      assert ClosedWrite(LifeOf(past, chunks, h), t) || (op.kind.OpClose? && op.h == Some(h));
    }
  }

  // ----- Whole traces -----

  // Every operation is acceptable where it stands.
  ghost predicate AllAcceptable(targets: seq<TargetInfo>, ops: seq<Op>, chunks: seq<seq<Byte>>)
    requires |ops| == |chunks|
  {
    forall i :: 0 <= i < |ops| && ops[i].h.Some? ==>
      Acceptable(targets, LifeOf(ops[..i], chunks[..i], ops[i].h.value), ops[i])
  }

  lemma AllAcceptableStep(targets: seq<TargetInfo>, ops: seq<Op>, chunks: seq<seq<Byte>>)
    requires |ops| == |chunks| > 0
    ensures var n := |ops| - 1;
            AllAcceptable(targets, ops, chunks) <==>
              && AllAcceptable(targets, ops[..n], chunks[..n])
              && (ops[n].h.Some? ==> Acceptable(targets, LifeOf(ops[..n], chunks[..n], ops[n].h.value), ops[n]))
  {
    hide LifeOf, Acceptable;
    var n := |ops| - 1;
    var past, early := ops[..n], chunks[..n];
    assert forall i :: 0 <= i < n ==> past[i] == ops[i] && past[..i] == ops[..i] && early[..i] == chunks[..i];
    if AllAcceptable(targets, ops, chunks) {
      forall i | 0 <= i < n && past[i].h.Some?
        ensures Acceptable(targets, LifeOf(past[..i], early[..i], past[i].h.value), past[i])
      {
        assert ops[i].h.Some?;
      }
    }
  }

  ghost predicate PassKnows(st: Tracking, targets: seq<TargetInfo>, ops: seq<Op>, chunks: seq<seq<Byte>>)
    requires |ops| == |chunks|
  {
    && Tracked(st, ops, chunks)
    && AllFaithful(targets, ops, chunks)
    && SizesKept(st, targets, ops, chunks)
  }

  lemma PassStep(hdr: Header, ops: seq<Op>, chunks: seq<seq<Byte>>, st: Tracking)
    requires |ops| > 0 && CleanOps(hdr, ops) && Chunked(ops, chunks)
    requires PassKnows(st, hdr.targets, ops[..|ops|-1], chunks[..|ops|-1])
    ensures var n := |ops| - 1; var op := ops[n];
            Observe(st, op, hdr.targets).Some? <==>
              (op.h.Some? ==> Acceptable(hdr.targets, LifeOf(ops[..n], chunks[..n], op.h.value), op))
    ensures Observe(st, ops[|ops|-1], hdr.targets).Some? ==>
              PassKnows(Observe(st, ops[|ops|-1], hdr.targets).value, hdr.targets, ops, chunks)
  {
    var n := |ops| - 1;
    var past, early, op, chunk := ops[..n], chunks[..n], ops[n], chunks[n];
    HandlesOkPrefix(ops, n);
    assert HandleOk(ops[..n], ops[n]) && ShapeOk(hdr, ops[n]);
    CleanIsInProgress(hdr, past, early);
    forall h ensures LifeOf(past, early, h).Life? ==> h in Opened(past) {
      LivesAreOpened(past, early, h);
    }
    NextIsReady(hdr, past, early, op);
    assert ops == past + [op] && chunks == early + [chunk];
    hide CleanOps, HandlesOk, LiveInProgress, LifeOf, Observe, Acceptable, Ready, Opened, HandleOk, ShapeOk, Known,
         InProgress, Faithful, SizesKept, OnStream, Live;
    if op.h.Some? {
      HandleInProgress(st, op, past, early);
      ObserveAccepts(st, hdr.targets, op, LifeOf(past, early, op.h.value));
    } else {
      ObserveIgnores(st, op, hdr.targets);
    }
    if Observe(st, op, hdr.targets).Some? {
      TrackedStep(st, hdr.targets, past, early, op, chunk);
      SizesStep(st, hdr.targets, past, early, op, chunk);
    }
  }

  lemma HandleInProgress(st: Tracking, op: Op, ops: seq<Op>, chunks: seq<seq<Byte>>)
    requires |ops| == |chunks| && Tracked(st, ops, chunks) && op.h.Some? && Ready(op, LifeOf(ops, chunks, op.h.value))
    ensures op.kind.IsHandleOp() ==>
              op.h.value in st.handles && Known(st.handles[op.h.value], LifeOf(ops, chunks, op.h.value))
  {
  }

  lemma ObserveIgnores(st: Tracking, op: Op, targets: seq<TargetInfo>)
    requires op.h.None?
    ensures Observe(st, op, targets) == Some(st)
  {
  }

  lemma NothingKnown(targets: seq<TargetInfo>)
    ensures AllAcceptable(targets, [], []) && PassKnows(EMPTY, targets, [], [])
  {
  }

  // The pass accepts a clean trace exactly when every write through a handle
  // continues a write-only stream where it left off, and every such stream
  // closes at the declared size; and then it knows what each stream wrote.
  lemma {:induction false} EligibleExactlyWhen(hdr: Header, ops: seq<Op>, chunks: seq<seq<Byte>>)
    requires CleanOps(hdr, ops) && Chunked(ops, chunks)
    ensures ObserveAll(ops, hdr.targets).Some? <==> AllAcceptable(hdr.targets, ops, chunks)
    ensures ObserveAll(ops, hdr.targets).Some? ==>
              PassKnows(ObserveAll(ops, hdr.targets).value, hdr.targets, ops, chunks)
  {
    hide CleanOps, AllAcceptable, PassKnows, Observe, LifeOf, Acceptable;
    if ops == [] {
      NothingKnown(hdr.targets);
    } else {
      var n := |ops| - 1;
      assert ops == ops[..n] + [ops[n]];
      CleanOpsPrefix(hdr, ops[..n], ops[n]);
      EligibleExactlyWhen(hdr, ops[..n], chunks[..n]);
      AllAcceptableStep(hdr.targets, ops, chunks);
      hide Chunked;
      if ObserveAll(ops[..n], hdr.targets).Some? {
        PassStep(hdr, ops, chunks, ObserveAll(ops[..n], hdr.targets).value);
      }
    }
  }

  // Streaming a handle's writes into one PUT stores the bytes that writing them
  // at their offsets would; a closed write to a target of declared size streams
  // exactly the size the PUT was announced with.
  lemma CoalescingPreservesBytes(hdr: Header, ops: seq<Op>, chunks: seq<seq<Byte>>, h: int)
    requires CleanOps(hdr, ops) && Chunked(ops, chunks) && ObserveAll(ops, hdr.targets).Some?
    ensures var life, sizes := LifeOf(ops, chunks, h), ObserveAll(ops, hdr.targets).value.sizes;
            life.Life? && life.mode == ModeWrite ==>
              && life.file == life.streamed
              && (life.closed && 0 <= life.target < |hdr.targets| ==>
                    && life.target in sizes
                    && (hdr.targets[life.target].size > 0 ==>
                          |life.streamed| == hdr.targets[life.target].size == sizes[life.target]))
  {
    EligibleExactlyWhen(hdr, ops, chunks);
    var life, st := LifeOf(ops, chunks, h), ObserveAll(ops, hdr.targets).value;
    hide CleanOps, ObserveAll, LifeOf, LastCloser;
    assert Faithful(hdr.targets, life);
    if life.Life? && ClosedWrite(life, life.target) && 0 <= life.target < |hdr.targets| {
      assert LastCloser(ops, chunks, life.target).Some?;
      assert Faithful(hdr.targets, LifeOf(ops, chunks, LastCloser(ops, chunks, life.target).value));
    }
  }

  // Every completed PUT to t is announced with the number of bytes it streams.
  ghost predicate AnnouncedRight(ops: seq<Op>, chunks: seq<seq<Byte>>, t: int, size: int)
    requires |ops| == |chunks|
  {
    forall h :: ClosedWrite(LifeOf(ops, chunks, h), t) ==> StreamedTo(ops, chunks, h, t, size)
  }

  ghost predicate EquallyLong(ops: seq<Op>, chunks: seq<seq<Byte>>, t: int)
    requires |ops| == |chunks|
  {
    forall h, h' :: ClosedWrite(LifeOf(ops, chunks, h), t) && ClosedWrite(LifeOf(ops, chunks, h'), t) ==>
      |LifeOf(ops, chunks, h).streamed| == |LifeOf(ops, chunks, h').streamed|
  }

  // The size kept for a target is what its last write to close streamed.
  lemma LastCloseWins(hdr: Header, ops: seq<Op>, chunks: seq<seq<Byte>>, t: int)
    requires CleanOps(hdr, ops) && Chunked(ops, chunks) && ObserveAll(ops, hdr.targets).Some?
    ensures var sizes, last := ObserveAll(ops, hdr.targets).value.sizes, LastCloser(ops, chunks, t);
            && (t in sizes <==> 0 <= t < |hdr.targets| && last.Some?)
            && (t in sizes ==> StreamedTo(ops, chunks, last.value, t, sizes[t]))
  {
    EligibleExactlyWhen(hdr, ops, chunks);
    hide CleanOps, ObserveAll, LifeOf, LastCloser, Chunked;
  }

  // For a target whose size is not declared only one size is kept, so every
  // completed PUT is announced correctly exactly when all its closed writes are
  // equally long.
  lemma AnnouncedRightExactlyWhen(hdr: Header, ops: seq<Op>, chunks: seq<seq<Byte>>, t: int)
    requires CleanOps(hdr, ops) && Chunked(ops, chunks) && ObserveAll(ops, hdr.targets).Some?
    requires t in ObserveAll(ops, hdr.targets).value.sizes
    ensures AnnouncedRight(ops, chunks, t, ObserveAll(ops, hdr.targets).value.sizes[t]) <==> EquallyLong(ops, chunks, t)
  {
    EligibleExactlyWhen(hdr, ops, chunks);
    var st := ObserveAll(ops, hdr.targets).value;
    hide CleanOps, ObserveAll, LifeOf, LastCloser;
    var last := LastCloser(ops, chunks, t).value;
    if AnnouncedRight(ops, chunks, t, st.sizes[t]) {
      forall h, h' | ClosedWrite(LifeOf(ops, chunks, h), t) && ClosedWrite(LifeOf(ops, chunks, h'), t)
        ensures |LifeOf(ops, chunks, h).streamed| == |LifeOf(ops, chunks, h').streamed|
      {
        assert StreamedTo(ops, chunks, h, t, st.sizes[t]) && StreamedTo(ops, chunks, h', t, st.sizes[t]);
      }
    }
    if EquallyLong(ops, chunks, t) {
      forall h | ClosedWrite(LifeOf(ops, chunks, h), t) ensures StreamedTo(ops, chunks, h, t, st.sizes[t]) {
        assert |LifeOf(ops, chunks, h).streamed| == |LifeOf(ops, chunks, last).streamed|;
      }
    }
  }

  // ----- A PUT announced with another write's length -----

  function OneWrite(id: int, h: int, n: int): seq<Op> {
    [BareOp(0, 0, OpOpen).(opId := Some(id), h := Some(h), tgt := Some(0), mode := ModeWrite),
     BareOp(0, 0, OpWrite).(opId := Some(id + 1), h := Some(h), off := Some(0), len := Some(n)),
     BareOp(0, 0, OpClose).(opId := Some(id + 2), h := Some(h))]
  }

  // A file of undeclared size, written with m bytes and then with n.
  function TwiceWritten(m: int, n: int): seq<Op> {
    OneWrite(0, 0, m) + OneWrite(3, 1, n)
  }

  function TwiceChunks(m: nat, n: nat): seq<seq<Byte>> {
    [[], Zeros(m), []] + [[], Zeros(n), []]
  }

  function TwiceHeader(m: nat, n: nat): Header {
    Header(TRACE_FORMAT_VERSION, Synthetic, TIME_UNIT_NANOSECONDS, NoMethod, "", [TargetInfo(0, "f", TargetFile, 0)],
           Summary(6, 1, 0, m + n, 0, 0), [])
  }

  lemma TwiceHandles(m: nat, n: nat)
    ensures HandlesOk(TwiceWritten(m, n))
  {
    hide SoundSoFar, HandlesOk;
    var ops := TwiceWritten(m, n);
    NothingIsSound(0);
    SoundStep([], ops[0], {}, {}, {0}, {0});
    SoundStep([] + [ops[0]], ops[1], {0}, {0}, {0}, {0});
    SoundStep([] + [ops[0]] + [ops[1]], ops[2], {0}, {0}, {}, {0});
    var half := [] + [ops[0]] + [ops[1]] + [ops[2]];
    SoundStep(half, ops[3], {}, {0}, {1}, {0, 1});
    SoundStep(half + [ops[3]], ops[4], {1}, {0, 1}, {1}, {0, 1});
    SoundStep(half + [ops[3]] + [ops[4]], ops[5], {1}, {0, 1}, {}, {0, 1});
    assert ops == half + [ops[3]] + [ops[4]] + [ops[5]];
    SoundIsOk(ops, 0, {}, {0, 1});
  }

  lemma TwiceSummary(m: nat, n: nat)
    ensures SummaryAgrees(TwiceHeader(m, n).summary, TwiceWritten(m, n))
  {
    hide NumPartial, TotalBytes;
    var ops := TwiceWritten(m, n);
    NoPartialsInNothing();
    SumsSnoc([], ops[0]);
    SumsSnoc([] + [ops[0]], ops[1]);
    SumsSnoc([] + [ops[0]] + [ops[1]], ops[2]);
    var half := [] + [ops[0]] + [ops[1]] + [ops[2]];
    SumsSnoc(half, ops[3]);
    SumsSnoc(half + [ops[3]], ops[4]);
    SumsSnoc(half + [ops[3]] + [ops[4]], ops[5]);
    assert ops == half + [ops[3]] + [ops[4]] + [ops[5]];
    assert StreamIds(ops) == {0} by {
      assert ops[0] in ops;
    }
  }

  lemma NoPartialsInNothing()
    ensures NumPartial([]) == 0
  {
  }

  lemma TwiceIsClean(m: nat, n: nat)
    ensures CleanTrace(TwiceHeader(m, n), TwiceWritten(m, n))
  {
    hide HandlesOk, SummaryAgrees;
    TwiceHandles(m, n);
    TwiceSummary(m, n);
  }

  // One write through a handle nothing else uses: what it streams, and what the
  // pass records when it closes.
  lemma {:induction false} OneWriteLives(past: seq<Op>, chunks: seq<seq<Byte>>, id: int, h: int, chunk: seq<Byte>)
    requires |past| == |chunks|
    ensures var ops, all := past + OneWrite(id, h, |chunk|), chunks + [[], chunk, []];
            && LifeOf(ops, all, h) == Life(0, ModeWrite, true, chunk, chunk)
            && forall x :: x != h ==> LifeOf(ops, all, x) == LifeOf(past, chunks, x)
  {
    var w := OneWrite(id, h, |chunk|);
    var one, two := past + [w[0]], past + [w[0]] + [w[1]];
    assert past + w == two + [w[2]] && chunks + [[], chunk, []] == chunks + [[]] + [chunk] + [[]];
    assert Written([], 0, chunk) == chunk;
    hide LifeOf;
    forall x
      ensures x == h ==>
                LifeOf(two + [w[2]], chunks + [[]] + [chunk] + [[]], x) == Life(0, ModeWrite, true, chunk, chunk)
      ensures x != h ==> LifeOf(two + [w[2]], chunks + [[]] + [chunk] + [[]], x) == LifeOf(past, chunks, x)
    {
      LifeSnoc(past, w[0], chunks, [], x);
      LifeSnoc(one, w[1], chunks + [[]], chunk, x);
      LifeSnoc(two, w[2], chunks + [[]] + [chunk], [], x);
    }
  }

  lemma {:induction false} OneWritePasses(past: seq<Op>, targets: seq<TargetInfo>, id: int, h: int, n: nat,
                                          sizes: map<int, int>)
    requires |targets| > 0 && targets[0].size == 0 && ObserveAll(past, targets) == Some(Tracking(map[], sizes))
    ensures ObserveAll(past + OneWrite(id, h, n), targets) == Some(Tracking(map[], sizes[0 := n]))
  {
    var w := OneWrite(id, h, n);
    var one, two := past + [w[0]], past + [w[0]] + [w[1]];
    assert past + w == two + [w[2]];
    assert one[..|past|] == past && two[..|one|] == one && (two + [w[2]])[..|two|] == two;
    var opening, written := map[h := OpenWrite(0, ModeWrite, 0)], map[h := OpenWrite(0, ModeWrite, n)];
    assert ObserveAll(one, targets) == Some(Tracking(opening, sizes));
    assert opening[h := OpenWrite(0, ModeWrite, n)] == written && written - {h} == map[];
    assert ObserveAll(two, targets) == Some(Tracking(written, sizes));
  }

  lemma TwicePasses(m: nat, n: nat)
    ensures ObserveAll(TwiceWritten(m, n), TwiceHeader(m, n).targets) == Some(Tracking(map[], map[0 := n]))
  {
    var targets, half := TwiceHeader(m, n).targets, OneWrite(0, 0, m);
    assert [] + half == half && ObserveAll([], targets) == Some(EMPTY);
    assert map[0 := m][0 := n] == map[0 := n];
    hide ObserveAll, OneWrite;
    OneWritePasses([], targets, 0, 0, m, map[]);
    OneWritePasses(half, targets, 3, 1, n, map[0 := m]);
  }

  lemma TwiceIsChunked(m: nat, n: nat)
    ensures Chunked(TwiceWritten(m, n), TwiceChunks(m, n))
  {
  }

  lemma TwiceLives(m: nat, n: nat)
    ensures LifeOf(TwiceWritten(m, n), TwiceChunks(m, n), 0) == Life(0, ModeWrite, true, Zeros(m), Zeros(m))
  {
    var half, early: seq<seq<Byte>> := OneWrite(0, 0, m), [[], Zeros(m), []];
    assert [] + half == half && [] + early == early;
    hide LifeOf, OneWrite, Zeros;
    OneWriteLives([], [], 0, 0, Zeros(m));
    OneWriteLives(half, early, 3, 1, Zeros(n));
  }

  // The validator and the pass accept the trace, and the first PUT, of m bytes, is
  // announced with n.
  lemma RewriteIsAnnouncedWrong(m: nat, n: nat)
    requires m != n
    ensures CleanTrace(TwiceHeader(m, n), TwiceWritten(m, n)) && Chunked(TwiceWritten(m, n), TwiceChunks(m, n))
    ensures ObserveAll(TwiceWritten(m, n), TwiceHeader(m, n).targets) == Some(Tracking(map[], map[0 := n]))
    ensures !AnnouncedRight(TwiceWritten(m, n), TwiceChunks(m, n), 0, n)
  {
    TwiceIsClean(m, n);
    TwicePasses(m, n);
    TwiceIsChunked(m, n);
    TwiceLives(m, n);
    var ops, chunks := TwiceWritten(m, n), TwiceChunks(m, n);
    hide CleanTrace, ObserveAll, LifeOf, TwiceWritten;
    assert ClosedWrite(LifeOf(ops, chunks, 0), 0) && !StreamedTo(ops, chunks, 0, 0, n);
  }
}
