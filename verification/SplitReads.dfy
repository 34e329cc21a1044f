// Splitting large reads into blocks (pkg/transform/splitreads.go): the output
// is again a well-formed trace, moves the same bytes over the same extents, and
// splitting twice composes exactly when the blocks divide.
module SplitReads {
  import opened Arithmetic
  import opened Trace
  import opened TraceContract
  import PrepMeta

  datatype Split = Pieces(ops: seq<Op>) | NoOffset

  function Piece(op: Op, off: int, size: int): Op {
    op.(off := Some(off), len := Some(size), ret := None, dur := None)
  }

  // The consecutive pieces of at most block bytes covering [off, off + rest).
  function Cut(op: Op, off: int, rest: int, block: int): seq<Op>
    requires block > 0
    decreases rest
  {
    if rest <= 0 then []
    else [Piece(op, off, Min(block, rest))] + Cut(op, off + block, rest - block, block)
  }

  // A read that must become several.
  predicate IsLarge(op: Op, block: int) {
    IsRead(op) && op.Moved() > block
  }

  function PiecesOf(op: Op, block: int): Split
    requires block > 0
  {
    if !IsRead(op) || op.Moved() <= 0 then Pieces([op])
    else if op.off.None? then NoOffset
    else if op.Moved() <= block then Pieces([op])
    else Pieces(Cut(op, op.off.value, op.Moved(), block))
  }

  // Every operation replaced by its pieces, before renumbering.
  function Flatten(ops: seq<Op>, block: int): Split
    requires block > 0
  {
    if ops == [] then Pieces([])
    else
      match Flatten(ops[..|ops|-1], block)
      case NoOffset => NoOffset
      case Pieces(front) =>
        match PiecesOf(ops[|ops|-1], block)
        case NoOffset => NoOffset
        case Pieces(back) => Pieces(front + back)
  }

  function Splitting(ops: seq<Op>, block: int): Split
    requires block > 0
  {
    match Flatten(ops, block)
    case NoOffset => NoOffset
    case Pieces(out) => Pieces(Renumber(out))
  }

  lemma CutStep(op: Op, done: seq<Op>, off: int, rest: int, block: int)
    requires block > 0 && rest > 0
    ensures done + Cut(op, off, rest, block)
            == done + [Piece(op, off, Min(block, rest))] + Cut(op, off + block, rest - block, block)
  {
  }

  // ----- The code's loops -----

  method SplitOne(op: Op, block: int) returns (r: Split)
    requires block > 0
    ensures r == PiecesOf(op, block)
  {
    if !op.kind.OpRead? && !op.kind.OpGet? {
      return Pieces([op]);
    }
    var moved := op.TransferredBytes();
    if moved.None? || moved.value <= 0 {
      return Pieces([op]);
    }
    if op.off.None? {
      return NoOffset;
    }
    if moved.value <= block {
      return Pieces([op]);
    }
    var pieces, covered := [], 0;
    ghost var whole := Cut(op, op.off.value, moved.value, block);
    while covered < moved.value
      invariant pieces + Cut(op, op.off.value + covered, moved.value - covered, block) == whole
    {
      hide Cut;
      CutStep(op, pieces, op.off.value + covered, moved.value - covered, block);
      var size := block;
      if moved.value - covered < size {
        size := moved.value - covered;
      }
      var piece := op.(off := Some(op.off.value + covered), len := Some(size), ret := None, dur := None);
      pieces := pieces + [piece];
      covered := covered + block;
    }
    return Pieces(pieces);
  }

  // None for a block that is not positive.
  method Run(ops: seq<Op>, block: int) returns (r: Option<Split>)
    ensures r == if block <= 0 then None else Some(Splitting(ops, block))
  {
    if block <= 0 {
      return None;
    }
    var out: seq<Op> := [];
    for i := 0 to |ops|
      invariant Flatten(ops[..i], block) == Pieces(out)
    {
      assert ops[..i+1][..i] == ops[..i] && ops[..i+1][i] == ops[i];
      var pieces := SplitOne(ops[i], block);
      if pieces.NoOffset? {
        FlattenFails(ops, i, block);
        return Some(NoOffset);
      }
      out := out + pieces.ops;
    }
    assert ops[..|ops|] == ops;
    ghost var flat := out;
    for i := 0 to |out|
      invariant |out| == |flat|
      invariant forall k :: 0 <= k < i ==> out[k] == flat[k].(opId := Some(k))
      invariant forall k :: i <= k < |out| ==> out[k] == flat[k]
    {
      out := out[i := out[i].(opId := Some(i))];
    }
    assert out == Renumber(flat);
    return Some(Pieces(out));
  }

  lemma {:induction false} FlattenFails(ops: seq<Op>, i: nat, block: int)
    requires block > 0 && i < |ops| && PiecesOf(ops[i], block).NoOffset?
    ensures Flatten(ops, block).NoOffset?
  {
    if i < |ops| - 1 {
      FlattenFails(ops[..|ops|-1], i, block);
    }
  }

  // ----- One operation's pieces -----

  // Contiguous runs from off, of total length size: whole blocks and what is left.
  ghost predicate Tiles(pieces: seq<Op>, off: int, size: int, block: int) {
    if pieces == [] then size == 0
    else
      var first := pieces[0];
      && first.off == Some(off)
      && 0 < first.Moved() == Min(block, size)
      && Tiles(pieces[1..], off + first.Moved(), size - first.Moved(), block)
  }

  lemma {:induction false} CutTiles(op: Op, off: int, rest: int, block: int)
    requires block > 0 && rest >= 0
    ensures Tiles(Cut(op, off, rest, block), off, rest, block)
    decreases rest
  {
    if rest > 0 {
      var tail := Cut(op, off + block, rest - block, block);
      assert ([Piece(op, off, Min(block, rest))] + tail)[1..] == tail;
      if rest > block {
        CutTiles(op, off + block, rest - block, block);
      }
    }
  }

  predicate IsCutOf(p: Op, op: Op, off: int, block: int) {
    p.off.Some? && p.len.Some? && p == Piece(op, p.off.value, p.len.value)
    && off <= p.off.value && 0 < p.len.value <= block
  }

  lemma {:induction false} CutShape(op: Op, off: int, rest: int, block: int)
    requires block > 0
    ensures forall p :: p in Cut(op, off, rest, block) ==> IsCutOf(p, op, off, block)
    decreases rest
  {
    if rest > 0 {
      CutShape(op, off + block, rest - block, block);
      forall p | p in Cut(op, off + block, rest - block, block) ensures IsCutOf(p, op, off, block) {
        assert IsCutOf(p, op, off + block, block);
      }
    }
  }

  // The pieces of a read tile exactly the extent it moved.
  lemma PiecesTile(op: Op, block: int)
    requires block > 0 && IsRead(op) && op.Moved() > 0 && op.off.Some?
    ensures PiecesOf(op, block).Pieces?
    ensures Tiles(PiecesOf(op, block).ops, op.off.value, op.Moved(), block)
  {
    if op.Moved() <= block {
      assert [op][1..] == [];
    } else {
      CutTiles(op, op.off.value, op.Moved(), block);
    }
  }

  // What a piece shares with its source.
  predicate Derived(op: Op, p: Op) {
    && p.t == op.t && p.s == op.s && p.kind == op.kind && p.group == op.group
    && p.tgt == op.tgt && p.h == op.h && p.mode == op.mode && p.flags == op.flags
  }

  // A piece gets all it asks for, and no duration is made up for it.
  predicate WholeRead(p: Op) {
    p.len.Some? && p.ret.None? && p.dur.None?
  }

  lemma PiecesDerived(op: Op, block: int)
    requires block > 0 && PiecesOf(op, block).Pieces?
    ensures PiecesOf(op, block).ops != []
    ensures forall p :: p in PiecesOf(op, block).ops ==> Derived(op, p)
    ensures |PiecesOf(op, block).ops| == 1 ==> PiecesOf(op, block).ops == [op]
    ensures |PiecesOf(op, block).ops| > 1 <==> IsLarge(op, block)
    ensures IsLarge(op, block) ==> forall p :: p in PiecesOf(op, block).ops ==> WholeRead(p)
  {
    if IsLarge(op, block) && op.Moved() > 0 {
      CutShape(op, op.off.value, op.Moved(), block);
      assert |Cut(op, op.off.value + block, op.Moved() - block, block)| > 0;
    }
  }

  lemma {:induction false} CutBytes(op: Op, off: int, rest: int, block: int)
    requires block > 0 && rest >= 0 && IsRead(op)
    ensures TotalBytes(Cut(op, off, rest, block)) == rest
    decreases rest
  {
    if rest > 0 {
      var first, tail := Piece(op, off, Min(block, rest)), Cut(op, off + block, rest - block, block);
      if rest > block {
        CutBytes(op, off + block, rest - block, block);
      }
      TotalBytesAppend([first], tail);
      assert TotalBytes([first]) == TotalBytes([]) + first.Moved();
    }
  }

  // ----- The output is a well-formed trace -----

  // Two lists of operations that leave every stream holding the same handles.
  ghost predicate SameHandles(a: seq<Op>, b: seq<Op>) {
    Opened(a) == Opened(b) && forall s :: Live(OnStream(a, s)) == Live(OnStream(b, s))
  }

  lemma SameHandlesStep(a: seq<Op>, b: seq<Op>, op: Op)
    requires SameHandles(a, b)
    ensures SameHandles(a + [op], b + [op])
  {
    hide Live, OnStream, Opened;
    OpenedSnoc(a, op);
    OpenedSnoc(b, op);
    forall s ensures Live(OnStream(a + [op], s)) == Live(OnStream(b + [op], s)) {
      LiveSnoc(a, op, s);
      LiveSnoc(b, op, s);
      assert Live(OnStream(a, s)) == Live(OnStream(b, s));
    }
  }

  lemma ReadKeepsHandles(a: seq<Op>, op: Op)
    requires IsRead(op)
    ensures SameHandles(a + [op], a)
  {
    hide Live, OnStream, Opened;
    OpenedSnoc(a, op);
    forall s ensures Live(OnStream(a + [op], s)) == Live(OnStream(a, s)) {
      LiveSnoc(a, op, s);
    }
  }

  // Replacing a read by reads of the same handle.
  lemma {:induction false} AppendReads(out: seq<Op>, op: Op, pieces: seq<Op>)
    requires IsRead(op) && HandlesOk(out) && HandleOk(out, op)
    requires forall p :: p in pieces ==> Derived(op, p)
    ensures HandlesOk(out + pieces) && SameHandles(out + pieces, out)
  {
    if pieces == [] {
      assert out + pieces == out;
    } else {
      var front, last := pieces[..|pieces|-1], pieces[|pieces|-1];
      AppendReads(out, op, front);
      assert out + pieces == (out + front) + [last];
      assert Derived(op, last);
      assert HandleOk(out + front, last);
      HandlesOkStep(out + front, last);
      ReadKeepsHandles(out + front, last);
    }
  }

  lemma AppendPieces(past: seq<Op>, out: seq<Op>, op: Op, block: int)
    requires block > 0 && PiecesOf(op, block).Pieces?
    requires HandlesOk(out) && SameHandles(out, past) && HandleOk(past, op)
    ensures HandlesOk(out + PiecesOf(op, block).ops)
    ensures SameHandles(out + PiecesOf(op, block).ops, past + [op])
  {
    var pieces := PiecesOf(op, block).ops;
    PiecesDerived(op, block);
    assert HandleOk(out, op);
    if |pieces| > 1 {
      AppendReads(out, op, pieces);
      ReadKeepsHandles(past, op);
    } else {
      HandlesOkStep(out, op);
      SameHandlesStep(out, past, op);
    }
  }

  lemma FlattenStep(past: seq<Op>, op: Op, block: int)
    requires block > 0 && Flatten(past, block).Pieces? && PiecesOf(op, block).Pieces?
    ensures Flatten(past + [op], block) == Pieces(Flatten(past, block).ops + PiecesOf(op, block).ops)
  {
    assert (past + [op])[..|past|] == past;
  }

  lemma {:induction false} FlattenHandles(ops: seq<Op>, block: int)
    requires block > 0 && Flatten(ops, block).Pieces? && HandlesOk(ops)
    ensures HandlesOk(Flatten(ops, block).ops) && SameHandles(Flatten(ops, block).ops, ops)
  {
    if ops != [] {
      var past, op := ops[..|ops|-1], ops[|ops|-1];
      assert ops == past + [op];
      HandlesOkStep(past, op);
      FlattenHandles(past, block);
      AppendPieces(past, Flatten(past, block).ops, op, block);
    }
  }

  // Each output operation is a piece of some source operation, in source order.
  lemma {:induction false} FlattenTimes(ops: seq<Op>, block: int)
    requires block > 0 && Flatten(ops, block).Pieces? && TimesOk(ops)
    ensures TimesOk(Flatten(ops, block).ops)
    ensures forall p :: p in Flatten(ops, block).ops ==> p.t <= ops[|ops|-1].t
    ensures ops != [] ==> Flatten(ops, block).ops != []
  {
    if ops != [] {
      var past, op := ops[..|ops|-1], ops[|ops|-1];
      assert ops == past + [op];
      assert TimesOk(past) && (past != [] ==> past[|past|-1].t <= op.t);
      FlattenTimes(past, block);
      PiecesDerived(op, block);
      hide TimesOk, PiecesOf;
      AppendInTime(Flatten(past, block).ops, PiecesOf(op, block).ops, op.t);
    }
  }

  lemma {:induction false} FlattenSucceeds(h: Header, ops: seq<Op>, block: int)
    requires block > 0 && forall op :: op in ops ==> ShapeOk(h, op)
    ensures Flatten(ops, block).Pieces?
  {
    if ops != [] {
      FlattenSucceeds(h, ops[..|ops|-1], block);
      assert ShapeOk(h, ops[|ops|-1]);
    }
  }

  predicate IsPieceOf(p: Op, op: Op, block: int)
    requires block > 0
  {
    PiecesOf(op, block).Pieces? && p in PiecesOf(op, block).ops
  }

  lemma {:induction false} FlattenMembers(ops: seq<Op>, block: int)
    requires block > 0 && Flatten(ops, block).Pieces?
    ensures forall p :: p in Flatten(ops, block).ops ==> exists op :: op in ops && IsPieceOf(p, op, block)
    ensures forall p, op :: op in ops && IsPieceOf(p, op, block) ==> p in Flatten(ops, block).ops
    ensures forall op :: op in ops ==> PiecesOf(op, block).Pieces?
  {
    if ops != [] {
      var past, op := ops[..|ops|-1], ops[|ops|-1];
      FlattenMembers(past, block);
      assert ops == past + [op];
      assert Flatten(ops, block).ops == Flatten(past, block).ops + PiecesOf(op, block).ops;
      forall p | p in Flatten(ops, block).ops ensures exists o :: o in ops && IsPieceOf(p, o, block) {
        if p in PiecesOf(op, block).ops {
          assert IsPieceOf(p, op, block);
        } else {
          var o :| o in past && IsPieceOf(p, o, block);
          assert o in ops;
        }
      }
    }
  }

  // ----- The header -----

  function MinVersionForHeader(h: Header): int {
    if h.transformations != [] then VERSION_TRANSFORMED else TRACE_FORMAT_VERSION
  }

  function HeaderVersion(h: Header, ops: seq<Op>): int {
    var v := MinVersionForOps(ops);
    if MinVersionForHeader(h) > v then MinVersionForHeader(h) else v
  }

  function Recomputed(s: Summary, ops: seq<Op>): Summary {
    s.(numOps := |ops|, numStreams := |StreamIds(ops)|, totalBytes := TotalBytes(ops),
       numPartialReads := NumPartial(ops))
  }

  method RecomputeSummary(s: Summary, ops: seq<Op>) returns (r: Summary)
    ensures r == Recomputed(s, ops)
  {
    var totalBytes, partial, streams: set<int> := 0, 0, {};
    for i := 0 to |ops|
      invariant totalBytes == TotalBytes(ops[..i])
      invariant partial == NumPartial(ops[..i])
      invariant streams == StreamIds(ops[..i])
    {
      var op := ops[i];
      assert ops[..i+1][..i] == ops[..i] && ops[..i+1] == ops[..i] + [op];
      streams := streams + {op.s};
      var moved := op.TransferredBytes();
      if moved.Some? && op.kind.CountsBytes() {
        totalBytes := totalBytes + moved.value;
      }
      if op.IsPartialTransfer() {
        partial := partial + 1;
      }
    }
    assert ops[..|ops|] == ops;
    r := s.(numOps := |ops|, numStreams := |streams|, totalBytes := totalBytes, numPartialReads := partial);
  }

  function SplitHeader(h: Header, ops: seq<Op>, block: int, sourceDigest: string): Header {
    var h' := h.(transformations := h.transformations + [SplitReadsDone(block, sourceDigest)],
                 summary := Recomputed(h.summary, ops));
    h'.(version := HeaderVersion(h', ops))
  }

  lemma PieceShape(h: Header, h': Header, op: Op, p: Op, block: int)
    requires block > 0 && ShapeOk(h, op) && IsPieceOf(p, op, block)
    requires h'.targets == h.targets && h'.version == VERSION_TRANSFORMED
    ensures ShapeOk(h', p)
  {
    if IsLarge(op, block) {
      CutShape(op, op.off.value, op.Moved(), block);
    }
  }

  lemma {:induction false} FlattenStreams(ops: seq<Op>, block: int)
    requires block > 0 && Flatten(ops, block).Pieces?
    ensures StreamIds(Flatten(ops, block).ops) == StreamIds(ops)
  {
    if ops != [] {
      var past, op := ops[..|ops|-1], ops[|ops|-1];
      FlattenStreams(past, block);
      PiecesDerived(op, block);
      var out, pieces := Flatten(past, block).ops, PiecesOf(op, block).ops;
      assert StreamIds(out + pieces) == StreamIds(out) + StreamIds(pieces);
      assert StreamIds(pieces) == {op.s} by {
        assert pieces[0] in pieces;
      }
      assert ops == past + [op];
    }
  }

  lemma PiecesBytes(op: Op, block: int)
    requires block > 0 && PiecesOf(op, block).Pieces?
    ensures TotalBytes(PiecesOf(op, block).ops) == if op.kind.CountsBytes() then op.Moved() else 0
  {
    if IsLarge(op, block) && op.Moved() > 0 {
      CutBytes(op, op.off.value, op.Moved(), block);
    } else {
      assert PiecesOf(op, block).ops == [] + [op];
      SumsSnoc([], op);
      hide Cut;
    }
    hide TotalBytes, NumPartial;
  }

  lemma {:induction false} FlattenBytes(ops: seq<Op>, block: int)
    requires block > 0 && Flatten(ops, block).Pieces?
    ensures TotalBytes(Flatten(ops, block).ops) == TotalBytes(ops)
  {
    if ops != [] {
      var past, op := ops[..|ops|-1], ops[|ops|-1];
      FlattenBytes(past, block);
      PiecesBytes(op, block);
      TotalBytesAppend(Flatten(past, block).ops, PiecesOf(op, block).ops);
      hide PiecesOf;
    }
  }

  lemma {:induction false} RenumberKeepsExtents(ops: seq<Op>)
    ensures PrepMeta.ObserveAll(Renumber(ops)) == PrepMeta.ObserveAll(ops)
  {
    if ops != [] {
      var past, op := ops[..|ops|-1], ops[|ops|-1];
      RenumberKeepsExtents(past);
      RenumberSnoc(past, op);
      assert ops == past + [op];
      assert Renumber(ops)[..|past|] == Renumber(past);
    }
  }
}
