// Splitting twice: by b1 and then by b2 is splitting by b2 alone, on every
// well-formed trace, exactly when b2 divides b1.
module SplitComposition {
  import opened Arithmetic
  import opened Trace
  import opened TraceContract
  import opened SplitReads

  // ----- Ids do not influence splitting -----

  ghost predicate SameButIds(a: seq<Op>, b: seq<Op>) {
    |a| == |b| && forall i :: 0 <= i < |a| ==> a[i].(opId := None) == b[i].(opId := None)
  }

  lemma SameButIdsRenumber(a: seq<Op>, b: seq<Op>)
    requires SameButIds(a, b)
    ensures Renumber(a) == Renumber(b)
  {
    forall i | 0 <= i < |a| ensures Renumber(a)[i] == Renumber(b)[i] {
      assert a[i].(opId := Some(i)) == a[i].(opId := None).(opId := Some(i));
      assert a[i].(opId := None) == b[i].(opId := None);
    }
  }

  ghost predicate SameSplit(a: Split, b: Split) {
    if a.NoOffset? then b.NoOffset? else b.Pieces? && SameButIds(a.ops, b.ops)
  }

  lemma {:induction false} CutIgnoresId(a: Op, b: Op, off: int, rest: int, block: int)
    requires block > 0 && a.(opId := None) == b.(opId := None)
    ensures SameButIds(Cut(a, off, rest, block), Cut(b, off, rest, block))
    decreases rest
  {
    if rest > 0 {
      CutIgnoresId(a, b, off + block, rest - block, block);
      var size := Min(block, rest);
      assert Piece(a, off, size).(opId := None) == Piece(b, off, size).(opId := None);
    }
  }

  lemma {:induction false} FlattenIgnoresIds(a: seq<Op>, b: seq<Op>, block: int)
    requires block > 0 && SameButIds(a, b)
    ensures SameSplit(Flatten(a, block), Flatten(b, block))
  {
    if a != [] {
      var n := |a| - 1;
      FlattenIgnoresIds(a[..n], b[..n], block);
      assert a[n].(opId := None) == b[n].(opId := None);
      PiecesIgnoreId(a[n], b[n], block);
      hide PiecesOf;
    }
  }

  lemma PiecesIgnoreId(a: Op, b: Op, block: int)
    requires block > 0 && a.(opId := None) == b.(opId := None)
    ensures SameSplit(PiecesOf(a, block), PiecesOf(b, block))
  {
    if IsLarge(a, block) && a.off.Some? {
      CutIgnoresId(a, b, a.off.value, a.Moved(), block);
    }
  }

  // ----- Cutting along a coarser grid first -----

  predicate Multiple(x: int, block: int)
    requires block > 0
  {
    x % block == 0
  }

  lemma MultipleShift(x: int, block: int)
    requires block > 0
    ensures Multiple(x, block) <==> Multiple(x - block, block)
    ensures Multiple(x, block) && x > 0 ==> x >= block
    ensures Multiple(0, block)
  {
    var q, r := x / block, x % block;
    assert x == block * q + r;
    assert x - block == block * (q - 1) + r;
    QuotientRemainder(x - block, block, q - 1, r);
    QuotientRemainder(0, block, 0, 0);
    if 0 < x < block {
      QuotientRemainder(x, block, 0, x);
    }
  }

  lemma {:induction false} CutConcat(op: Op, off: int, whole: int, rest: int, block: int)
    requires block > 0 && whole >= 0 && rest >= 0 && Multiple(whole, block)
    ensures Cut(op, off, whole + rest, block) == Cut(op, off, whole, block) + Cut(op, off + whole, rest, block)
    decreases whole
  {
    hide Multiple, Piece;
    if whole > 0 {
      MultipleShift(whole, block);
      CutConcat(op, off + block, whole - block, rest, block);
      var first := [Piece(op, off, block)];
      assert Cut(op, off, whole + rest, block) == first + Cut(op, off + block, whole - block + rest, block);
      assert Cut(op, off, whole, block) == first + Cut(op, off + block, whole - block, block);
    }
  }

  lemma {:induction false} CutForgets(op: Op, o: int, n: int, off: int, rest: int, block: int)
    requires block > 0
    ensures Cut(Piece(op, o, n), off, rest, block) == Cut(op, off, rest, block)
    decreases rest
  {
    if rest > 0 {
      CutForgets(op, o, n, off + block, rest - block, block);
    }
  }

  lemma PieceIsCut(op: Op, off: int, size: int, block: int)
    requires block > 0 && size > 0 && IsRead(op)
    ensures PiecesOf(Piece(op, off, size), block) == Pieces(Cut(op, off, size, block))
  {
    if size <= block {
      assert Cut(op, off + block, size - block, block) == [];
    } else {
      CutForgets(op, off, size, off, size, block);
    }
  }

  lemma {:induction false} FlattenAppend(a: seq<Op>, b: seq<Op>, block: int)
    requires block > 0 && Flatten(a, block).Pieces? && Flatten(b, block).Pieces?
    ensures Flatten(a + b, block) == Pieces(Flatten(a, block).ops + Flatten(b, block).ops)
  {
    if b == [] {
      assert a + b == a;
    } else {
      var init, last := b[..|b|-1], b[|b|-1];
      assert a + b == (a + init) + [last];
      FlattenAppend(a, init, block);
      FlattenStep(a + init, last, block);
    }
  }

  lemma FlattenOne(op: Op, block: int)
    requires block > 0
    ensures Flatten([op], block) == PiecesOf(op, block)
  {
    assert [op][..0] == [];
    assert Flatten([], block) == Pieces([]);
  }

  lemma {:induction false} FlattenCut(op: Op, off: int, rest: int, b1: int, b2: int)
    requires b1 > 0 && b2 > 0 && Multiple(b1, b2) && IsRead(op)
    ensures Flatten(Cut(op, off, rest, b1), b2) == Pieces(Cut(op, off, rest, b2))
    decreases rest
  {
    if rest > 0 {
      var size := Min(b1, rest);
      var first, tail := Piece(op, off, size), Cut(op, off + b1, rest - b1, b1);
      FlattenCut(op, off + b1, rest - b1, b1, b2);
      FlattenOne(first, b2);
      PieceIsCut(op, off, size, b2);
      FlattenAppend([first], tail, b2);
      CutInTwo(op, off, rest, b1, b2);
      hide Flatten, PiecesOf, Multiple, Piece;
      assert Cut(op, off, rest, b1) == [first] + tail;
    }
  }

  lemma CutInTwo(op: Op, off: int, rest: int, b1: int, b2: int)
    requires b1 > 0 && b2 > 0 && rest > 0 && Multiple(b1, b2)
    ensures Cut(op, off, rest, b2) == Cut(op, off, Min(b1, rest), b2) + Cut(op, off + b1, rest - b1, b2)
  {
    hide Multiple;
    if rest > b1 {
      CutConcat(op, off, b1, rest - b1, b2);
    } else {
      assert Cut(op, off + b1, rest - b1, b2) == [];
    }
  }

  lemma FlattenPieces(op: Op, b1: int, b2: int)
    requires b1 > 0 && b2 > 0 && b1 % b2 == 0 && PiecesOf(op, b1).Pieces?
    ensures Flatten(PiecesOf(op, b1).ops, b2) == PiecesOf(op, b2)
  {
    if IsLarge(op, b1) && op.Moved() > 0 {
      assert b2 <= b1;
      FlattenCut(op, op.off.value, op.Moved(), b1, b2);
    } else {
      FlattenOne(op, b2);
    }
  }

  lemma {:induction false} FlattenTwice(ops: seq<Op>, b1: int, b2: int)
    requires b1 > 0 && b2 > 0 && b1 % b2 == 0 && Flatten(ops, b1).Pieces?
    ensures Flatten(Flatten(ops, b1).ops, b2) == Flatten(ops, b2) && Flatten(ops, b2).Pieces?
  {
    if ops != [] {
      var past, op := ops[..|ops|-1], ops[|ops|-1];
      FlattenTwice(past, b1, b2);
      FlattenPieces(op, b1, b2);
      FlattenAppend(Flatten(past, b1).ops, PiecesOf(op, b1).ops, b2);
      hide PiecesOf;
    }
  }

  lemma SplitTwice(ops: seq<Op>, b1: int, b2: int)
    requires b1 > 0 && b2 > 0 && b1 % b2 == 0 && Splitting(ops, b1).Pieces?
    ensures Splitting(Splitting(ops, b1).ops, b2) == Splitting(ops, b2)
  {
    var flat := Flatten(ops, b1).ops;
    FlattenTwice(ops, b1, b2);
    assert SameButIds(flat, Renumber(flat));
    FlattenIgnoresIds(flat, Renumber(flat), b2);
    SameButIdsRenumber(Flatten(flat, b2).ops, Flatten(Renumber(flat), b2).ops);
  }

  // Splitting again by the same block changes nothing.
  lemma SplitIsIdempotent(ops: seq<Op>, block: int)
    requires block > 0 && Splitting(ops, block).Pieces?
    ensures Splitting(Splitting(ops, block).ops, block) == Splitting(ops, block)
  {
    SplitTwice(ops, block, block);
  }

  // ----- Blocks that do not divide -----

  ghost predicate Composes(b1: int, b2: int)
    requires b1 > 0 && b2 > 0
  {
    forall h, ops :: CleanTrace(h, ops) && Splitting(ops, b1).Pieces? ==>
      Splitting(Splitting(ops, b1).ops, b2) == Splitting(ops, b2)
  }

  // One file, opened and read once from its start.
  const WITNESS_OPEN := BareOp(0, 0, OpOpen).(opId := Some(0), h := Some(0), tgt := Some(0), mode := ModeRead)

  function WitnessRead(size: int): Op {
    BareOp(0, 0, OpRead).(opId := Some(1), h := Some(0), off := Some(0), len := Some(size))
  }

  function WitnessHeader(): Header {
    Header(TRACE_FORMAT_VERSION, Synthetic, TIME_UNIT_NANOSECONDS, NoMethod, "",
           [TargetInfo(0, "file", TargetFile, 0)], Summary(2, 1, 0, 0, 0, 0), [])
  }

  lemma WitnessIsClean(size: int)
    requires size >= 0
    ensures CleanTrace(WitnessHeader(), [WITNESS_OPEN, WitnessRead(size)])
  {
    var h, ops := WitnessHeader(), [WITNESS_OPEN, WitnessRead(size)];
    assert ops == [WITNESS_OPEN] + [WitnessRead(size)] && [WITNESS_OPEN] == [] + [WITNESS_OPEN];
    HandlesOkStep([], WITNESS_OPEN);
    LiveSnoc([], WITNESS_OPEN, 0);
    HandlesOkStep([WITNESS_OPEN], WitnessRead(size));
    assert StreamIds(ops) == {0};
    SumsSnoc([], WITNESS_OPEN);
    SumsSnoc([WITNESS_OPEN], WitnessRead(size));
  }

  lemma {:induction false} CutOnGrid(op: Op, off: int, rest: int, block: int, p: Op)
    requires block > 0 && p in Cut(op, off, rest, block)
    ensures p.off.Some? && Multiple(p.off.value - off, block)
    decreases rest
  {
    hide Multiple;
    var first := Piece(op, off, Min(block, rest));
    MultipleShift(0, block);
    if p != first {
      assert p in Cut(op, off + block, rest - block, block);
      CutOnGrid(op, off + block, rest - block, block, p);
      MultipleShift(p.off.value - off, block);
      assert p.off.value - off - block == p.off.value - (off + block);
    }
  }

  // Whether some operation is a read that starts at off.
  ghost predicate ReadsAt(ops: seq<Op>, off: int) {
    exists p :: p in ops && IsRead(p) && p.off == Some(off)
  }

  lemma RenumberReadsAt(ops: seq<Op>, off: int)
    ensures ReadsAt(Renumber(ops), off) <==> ReadsAt(ops, off)
  {
    if p :| p in ops && IsRead(p) && p.off == Some(off) {
      var i :| 0 <= i < |ops| && ops[i] == p;
      assert Renumber(ops)[i] in Renumber(ops);
    }
    if p :| p in Renumber(ops) && IsRead(p) && p.off == Some(off) {
      var i :| 0 <= i < |ops| && Renumber(ops)[i] == p;
      assert ops[i] in ops;
    }
  }

  lemma FlattenWitness(size: int, block: int)
    requires block > 0 && size > 0
    ensures Flatten([WITNESS_OPEN, WitnessRead(size)], block)
            == Pieces([WITNESS_OPEN] + PiecesOf(WitnessRead(size), block).ops)
  {
    assert [WITNESS_OPEN, WitnessRead(size)] == [WITNESS_OPEN] + [WitnessRead(size)];
    FlattenOne(WITNESS_OPEN, block);
    FlattenOne(WitnessRead(size), block);
    FlattenAppend([WITNESS_OPEN], [WitnessRead(size)], block);
  }

  lemma DirectMissesBoundary(b1: int, b2: int)
    requires b1 > 0 && b2 > 0 && b1 % b2 != 0
    ensures var direct := Splitting([WITNESS_OPEN, WitnessRead(b1 + 1)], b2);
            direct.Pieces? && !ReadsAt(direct.ops, b1)
  {
    var read := WitnessRead(b1 + 1);
    FlattenWitness(b1 + 1, b2);
    RenumberReadsAt([WITNESS_OPEN] + PiecesOf(read, b2).ops, b1);
    forall p | p in PiecesOf(read, b2).ops ensures p.off != Some(b1) {
      if read.Moved() > b2 {
        CutOnGrid(read, 0, b1 + 1, b2, p);
      }
    }
  }

  lemma DetourHitsBoundary(b1: int, b2: int)
    requires b1 > 0 && b2 > 0
    ensures var first := Splitting([WITNESS_OPEN, WitnessRead(b1 + 1)], b1);
            first.Pieces? && Splitting(first.ops, b2).Pieces? && ReadsAt(Splitting(first.ops, b2).ops, b1)
  {
    var read := WitnessRead(b1 + 1);
    var tail := Piece(read, b1, 1);
    FlattenWitness(b1 + 1, b1);
    assert Cut(read, b1, 1, b1) == [tail] + Cut(read, b1 + b1, 1 - b1, b1);
    assert Cut(read, b1 + b1, 1 - b1, b1) == [];
    assert Cut(read, 0, b1 + 1, b1) == [Piece(read, 0, b1)] + [tail];
    var flat := [WITNESS_OPEN] + Cut(read, 0, b1 + 1, b1);
    var first := Renumber(flat);
    FlattenWithOffsets(first, b2);
    var i := 2;
    assert first[i] == tail.(opId := Some(i)) && first[i] in first;
    assert IsPieceOf(first[i], first[i], b2);
    FlattenMembers(first, b2);
    assert first[i] in Flatten(first, b2).ops;
    assert ReadsAt(Flatten(first, b2).ops, b1);
    RenumberReadsAt(Flatten(first, b2).ops, b1);
  }

  lemma {:induction false} FlattenWithOffsets(ops: seq<Op>, block: int)
    requires block > 0 && forall op :: op in ops ==> (IsRead(op) ==> op.off.Some?)
    ensures Flatten(ops, block).Pieces?
  {
    if ops != [] {
      FlattenWithOffsets(ops[..|ops|-1], block);
    }
  }

  // The composition law holds for the blocks that divide and for no others.
  lemma CompositionLaw(b1: int, b2: int)
    requires b1 > 0 && b2 > 0
    ensures Composes(b1, b2) <==> b1 % b2 == 0
  {
    if b1 % b2 == 0 {
      forall h, ops | CleanTrace(h, ops) && Splitting(ops, b1).Pieces?
        ensures Splitting(Splitting(ops, b1).ops, b2) == Splitting(ops, b2)
      {
        SplitTwice(ops, b1, b2);
      }
    } else {
      var ops := [WITNESS_OPEN, WitnessRead(b1 + 1)];
      WitnessIsClean(b1 + 1);
      DetourHitsBoundary(b1, b2);
      DirectMissesBoundary(b1, b2);
      assert Splitting(Splitting(ops, b1).ops, b2) != Splitting(ops, b2);
    }
  }
}
