// What a split-reads transformation promises of a whole trace.
module SplitTheorems {
  import opened Arithmetic
  import opened Trace
  import opened TraceContract
  import opened SplitReads
  import PrepMeta

  // ----- The output is well formed and moves the same bytes -----

  lemma SplitHeaderOk(h: Header, out: seq<Op>, block: int, digest: string)
    requires HeaderOk(h) && block > 0
    requires TotalBytes(out) >= 0
    ensures HeaderOk(SplitHeader(h, out, block, digest))
    ensures SplitHeader(h, out, block, digest).version == VERSION_TRANSFORMED
    ensures SummaryAgrees(SplitHeader(h, out, block, digest).summary, out)
  {
    MinVersionForOpsCovers(out);
  }

  // The new header is the old one, with the split added to its ledger, the bytes
  // that were moved, and counts of its own.
  predicate TellsSplit(h: Header, h': Header, block: int, digest: string, bytes: int) {
    && h'.transformations == h.transformations + [SplitReadsDone(block, digest)] && h'.version == 3
    && h'.kind == h.kind && h'.timeUnit == h.timeUnit && h'.targets == h.targets
    && h'.captureMethod == h.captureMethod && h'.captureLimitations == h.captureLimitations
    && h'.summary.totalBytes == bytes
    && h'.summary.durationNS == h.summary.durationNS && h'.summary.numGroups == h.summary.numGroups
  }

  lemma SplitIsClean(h: Header, ops: seq<Op>, block: int, digest: string)
    requires CleanTrace(h, ops) && block > 0
    ensures Splitting(ops, block).Pieces?
    ensures var out := Splitting(ops, block).ops;
            CleanTrace(SplitHeader(h, out, block, digest), out)
            && TellsSplit(h, SplitHeader(h, out, block, digest), block, digest, TotalBytes(ops))
  {
    hide HandlesOk, IdsOk, HeaderOk, SummaryAgrees, TotalBytes, Flatten;
    FlattenSucceeds(h, ops, block);
    var flat := Flatten(ops, block).ops;
    var out := Renumber(flat);
    FlattenBytes(ops, block);
    BytesNonNegative(h, ops);
    RenumberKeepsSums(flat);
    SplitHeaderOk(h, out, block, digest);
    var h' := SplitHeader(h, out, block, digest);
    forall i | 0 <= i < |out| ensures ShapeOk(h', out[i]) {
      SplitShape(h, h', ops, block, flat[i]);
    }
    FlattenTimes(ops, block);
    assert TimesOk(out);
    RenumberedIdsOk(flat);
    FlattenHandles(ops, block);
    RenumberKeepsHandles(flat);
    assert TellsSplit(h, h', block, digest, TotalBytes(ops));
  }

  lemma SplitShape(h: Header, h': Header, ops: seq<Op>, block: int, p: Op)
    requires block > 0 && Flatten(ops, block).Pieces? && p in Flatten(ops, block).ops
    requires forall op :: op in ops ==> ShapeOk(h, op)
    requires h'.targets == h.targets && h'.version == VERSION_TRANSFORMED
    ensures ShapeOk(h', p)
  {
    FlattenMembers(ops, block);
    var op :| op in ops && IsPieceOf(p, op, block);
    PieceShape(h, h', op, p, block);
  }

  lemma PieceMovesAtMostBlock(op: Op, p: Op, block: int)
    requires block > 0 && IsPieceOf(p, op, block) && IsRead(p)
    ensures p.Moved() <= block
  {
    if IsLarge(op, block) && op.Moved() > 0 {
      CutShape(op, op.off.value, op.Moved(), block);
      assert IsCutOf(p, op, op.off.value, block);
    }
  }

  lemma SplitMovesTheSameBytes(ops: seq<Op>, block: int)
    requires block > 0 && Splitting(ops, block).Pieces?
    ensures TotalBytes(Splitting(ops, block).ops) == TotalBytes(ops)
    ensures forall p :: p in Splitting(ops, block).ops && IsRead(p) ==> p.Moved() <= block
  {
    hide TotalBytes, Flatten, IsPieceOf;
    var flat := Flatten(ops, block).ops;
    FlattenBytes(ops, block);
    RenumberKeepsSums(flat);
    FlattenMembers(ops, block);
    forall p | p in Renumber(flat) && IsRead(p) ensures p.Moved() <= block {
      var i :| 0 <= i < |flat| && p == flat[i].(opId := Some(i));
      assert flat[i] in flat;
      var op :| op in ops && IsPieceOf(flat[i], op, block);
      PieceMovesAtMostBlock(op, flat[i], block);
    }
  }

  // ----- The derived extents do not change -----

  lemma GrowTwice(extents: map<int, int>, target: int, x: int, y: int)
    requires x <= y
    ensures PrepMeta.Grow(PrepMeta.Grow(extents, target, x), target, y) == PrepMeta.Grow(extents, target, y)
  {
    if x > PrepMeta.Extent(extents, target) {
      assert extents[target := x][target := y] == extents[target := y];
    }
  }

  // The target a read touches, whatever range it asks for.
  function TargetOf(st: PrepMeta.State, op: Op): Option<int> {
    if op.kind.OpRead? then
      if op.h.Some? && op.h.value in st.handleToTarget then Some(st.handleToTarget[op.h.value]) else None
    else op.tgt
  }

  function Reached(st: PrepMeta.State, op: Op, end: int): PrepMeta.State {
    match TargetOf(st, op)
    case Some(target) => st.(extents := PrepMeta.Grow(st.extents, target, end))
    case None => st
  }

  lemma PieceReaches(st: PrepMeta.State, op: Op, off: int, size: int)
    requires IsRead(op)
    ensures PrepMeta.Observe(st, Piece(op, off, size)) == Reached(st, op, off + size)
  {
  }

  lemma {:induction false} CutReaches(st: PrepMeta.State, op: Op, off: int, rest: int, block: int)
    requires block > 0 && rest > 0 && IsRead(op)
    ensures PrepMeta.ObserveMore(st, Cut(op, off, rest, block)) == Reached(st, op, off + rest)
    decreases rest
  {
    var size := Min(block, rest);
    PieceReaches(st, op, off, size);
    hide PrepMeta.Observe, Piece;
    var first, tail := Piece(op, off, size), Cut(op, off + block, rest - block, block);
    var cut := Cut(op, off, rest, block);
    assert cut[0] == first && cut[1..] == tail;
    var st' := Reached(st, op, off + size);
    if rest > block {
      CutReaches(st', op, off + block, rest - block, block);
      if TargetOf(st, op).Some? {
        GrowTwice(st.extents, TargetOf(st, op).value, off + size, off + rest);
      }
    }
  }

  lemma PiecesReach(st: PrepMeta.State, op: Op, block: int)
    requires block > 0 && PiecesOf(op, block).Pieces?
    requires op.ret.Some? ==> op.len.Some?
    ensures PrepMeta.ObserveMore(st, PiecesOf(op, block).ops) == PrepMeta.Observe(st, op)
  {
    if IsLarge(op, block) && op.Moved() > 0 {
      CutReaches(st, op, op.off.value, op.Moved(), block);
      assert PrepMeta.Observe(st, op) == Reached(st, op, op.off.value + op.Moved());
    } else {
      assert [op][1..] == [];
    }
  }

  lemma {:induction false} FlattenKeepsExtents(ops: seq<Op>, block: int)
    requires block > 0 && Flatten(ops, block).Pieces?
    requires forall op :: op in ops ==> (op.ret.Some? ==> op.len.Some?)
    ensures PrepMeta.ObserveAll(Flatten(ops, block).ops) == PrepMeta.ObserveAll(ops)
  {
    if ops != [] {
      var past, op := ops[..|ops|-1], ops[|ops|-1];
      FlattenKeepsExtents(past, block);
      PrepMeta.ObserveAppend(Flatten(past, block).ops, PiecesOf(op, block).ops);
      PiecesReach(PrepMeta.ObserveAll(past), op, block);
    }
  }

  lemma SplitKeepsExtents(h: Header, ops: seq<Op>, block: int)
    requires CleanTrace(h, ops) && block > 0 && Splitting(ops, block).Pieces?
    ensures PrepMeta.ObserveAll(Splitting(ops, block).ops) == PrepMeta.ObserveAll(ops)
  {
    forall op | op in ops ensures op.ret.Some? ==> op.len.Some? {
      assert ShapeOk(h, op);
    }
    FlattenKeepsExtents(ops, block);
    RenumberKeepsExtents(Flatten(ops, block).ops);
  }

  // ----- What the output requests, as opposed to what it moves -----

  // A short read already within the block keeps its large request.
  predicate KeepsLargeRequest(op: Op, block: int) {
    IsRead(op) && op.len.Some? && op.Moved() <= block < op.len.value
  }

  lemma PieceRequest(op: Op, p: Op, block: int)
    requires block > 0 && IsPieceOf(p, op, block) && IsRead(p) && p.len.Some?
    ensures p.len.value <= block || (p == op && KeepsLargeRequest(op, block))
  {
    if IsLarge(op, block) && op.Moved() > 0 {
      CutShape(op, op.off.value, op.Moved(), block);
      assert IsCutOf(p, op, op.off.value, block);
    }
  }

  lemma OutputMembers(ops: seq<Op>, block: int)
    requires block > 0 && Flatten(ops, block).Pieces?
    ensures forall p :: p in Splitting(ops, block).ops ==>
              exists q, op :: op in ops && IsPieceOf(q, op, block) && p == q.(opId := p.opId)
    ensures forall op :: op in ops && IsPieceOf(op, op, block) ==>
              exists p :: p in Splitting(ops, block).ops && p == op.(opId := p.opId)
  {
    var flat := Flatten(ops, block).ops;
    var out := Renumber(flat);
    FlattenMembers(ops, block);
    forall p | p in out ensures exists q, op :: op in ops && IsPieceOf(q, op, block) && p == q.(opId := p.opId) {
      var i :| 0 <= i < |flat| && p == flat[i].(opId := Some(i));
      assert flat[i] in flat;
      var op :| op in ops && IsPieceOf(flat[i], op, block);
    }
    forall op | op in ops && IsPieceOf(op, op, block) ensures exists p :: p in out && p == op.(opId := p.opId) {
      assert op in flat;
      var i :| 0 <= i < |flat| && flat[i] == op;
      assert out[i] in out;
    }
  }

  ghost predicate RequestsWithin(ops: seq<Op>, block: int) {
    forall p :: p in ops && IsRead(p) && p.len.Some? ==> p.len.value <= block
  }

  // No output operation asks for more than block bytes exactly when no source
  // read asked for more and received no more.
  lemma RequestsAreBounded(ops: seq<Op>, block: int)
    requires block > 0 && Splitting(ops, block).Pieces?
    ensures RequestsWithin(Splitting(ops, block).ops, block)
            <==> !(exists op :: op in ops && KeepsLargeRequest(op, block))
  {
    var out := Splitting(ops, block).ops;
    OutputMembers(ops, block);
    FlattenMembers(ops, block);
    hide Splitting, Flatten;
    if op :| op in ops && KeepsLargeRequest(op, block) {
      assert IsPieceOf(op, op, block);
      var p :| p in out && p == op.(opId := p.opId);
      assert p.len.value > block;
    } else {
      forall p | p in out && IsRead(p) && p.len.Some? ensures p.len.value <= block {
        var q, op :| op in ops && IsPieceOf(q, op, block) && p == q.(opId := p.opId);
        PieceRequest(op, q, block);
      }
    }
  }

  // The documentation says no output operation requests more than block bytes.
  // A 10-byte read that received 3 bytes still asks for 10 after a split at 5.
  const SHORT_READ: seq<Op> := [
    BareOp(0, 0, OpOpen).(opId := Some(0), h := Some(0), tgt := Some(0), mode := ModeRead),
    BareOp(0, 0, OpRead).(opId := Some(1), h := Some(0), off := Some(0), len := Some(10), ret := Some(3))]

  const SHORT_READ_HEADER: Header := Header(
    VERSION_PARTIAL_TRANSFER, Synthetic, TIME_UNIT_NANOSECONDS, NoMethod, "", [TargetInfo(0, "f", TargetFile, 3)],
    Summary(2, 1, 0, 3, 0, 1), [])

  lemma ShortReadHandles()
    ensures HandlesOk(SHORT_READ)
  {
    hide SoundSoFar, HandlesOk;
    var ops := SHORT_READ;
    NothingIsSound(0);
    SoundStep([], ops[0], {}, {}, {0}, {0});
    SoundStep([] + [ops[0]], ops[1], {0}, {0}, {0}, {0});
    assert ops == [] + [ops[0]] + [ops[1]];
    SoundIsOk(ops, 0, {0}, {0});
  }

  lemma ShortReadSummary()
    ensures SummaryAgrees(SHORT_READ_HEADER.summary, SHORT_READ)
  {
    var ops := SHORT_READ;
    assert [ops[0]] == [] + [ops[0]] && ops == [ops[0]] + [ops[1]];
    SumsSnoc([], ops[0]);
    SumsSnoc([ops[0]], ops[1]);
    assert StreamIds(ops) == {0};
  }

  lemma ShortReadIsClean()
    ensures CleanTrace(SHORT_READ_HEADER, SHORT_READ)
  {
    hide HandlesOk, SummaryAgrees;
    ShortReadHandles();
    ShortReadSummary();
  }

  lemma ShortReadKeepsItsRequest()
    ensures CleanTrace(SHORT_READ_HEADER, SHORT_READ)
    ensures Splitting(SHORT_READ, 5).Pieces? && !RequestsWithin(Splitting(SHORT_READ, 5).ops, 5)
  {
    ShortReadIsClean();
    SplitIsClean(SHORT_READ_HEADER, SHORT_READ, 5, "");
    hide CleanTrace, Splitting;
    assert SHORT_READ[1] in SHORT_READ && KeepsLargeRequest(SHORT_READ[1], 5);
    RequestsAreBounded(SHORT_READ, 5);
  }
}
