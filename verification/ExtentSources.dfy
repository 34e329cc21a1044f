// Where the derived extents come from (pkg/replay/executor.go:196-237): for every
// target, the transfers made to it, through its own handles or by name.
module ExtentSources {
  import opened Trace
  import opened TraceContract
  import opened TraceMeaning
  import opened ReplayTheorems
  import opened TraceReplay
  import opened PrepMeta
  import opened Extents

  // ----- What the handle table holds -----

  // While a stream holds a handle, the table says which target its OPEN named.
  lemma {:induction false} HeldHandleIsMapped(h: Header, ops: seq<Op>, opener: Op)
    requires CleanOps(h, ops) && opener in ops && opener.kind.OpOpen? && opener.h.Some?
    requires opener.h.value in Live(OnStream(ops, opener.s))
    ensures var table := ObserveAll(ops).handleToTarget;
            opener.tgt.Some? && opener.h.value in table && table[opener.h.value] == opener.tgt.value
  {
    hide CleanOps, Live, OnStream, Observe, HandlesOk, HandleOk, ShapeOk;
    var past, op := ops[..|ops|-1], ops[|ops|-1];
    assert ops == past + [op];
    CleanOpsPrefix(h, past, op);
    LastIsSound(h, past, op);
    ObserveTable(ObserveAll(past), op, opener.h.value);
    if opener in past {
      KeepsHandle(h, past, op, opener);
      HeldHandleIsMapped(h, past, opener);
    } else {
      OpenHasTarget(h, op);
    }
  }

  lemma OpenHasTarget(h: Header, op: Op)
    requires ShapeOk(h, op) && op.kind.OpOpen?
    ensures op.tgt.Some?
  {
  }

  // The entry of x after one more operation.
  lemma ObserveTable(st: State, op: Op, x: int)
    ensures var table := Observe(st, op).handleToTarget;
            && (op.kind.OpOpen? && op.h == Some(x) && op.tgt.Some? ==> x in table && table[x] == op.tgt.value)
            && (!(op.h == Some(x) && (op.kind.OpOpen? || op.kind.OpClose?)) ==>
                  (x in table <==> x in st.handleToTarget) && (x in table ==> table[x] == st.handleToTarget[x]))
  {
    hide Reach;
  }

  lemma LastIsSound(h: Header, past: seq<Op>, op: Op)
    requires CleanOps(h, past + [op])
    ensures ShapeOk(h, op) && HandleOk(past, op) && HandlesOk(past)
  {
    HandlesOkStep(past, op);
    assert (past + [op])[|past|] == op;
  }

  // A handle still held after an operation was held before, and that operation did
  // not close it.
  lemma KeepsHandle(h: Header, past: seq<Op>, op: Op, opener: Op)
    requires HandlesOk(past) && HandleOk(past, op) && opener in past && opener.kind.OpOpen? && opener.h.Some?
    requires opener.h.value in Live(OnStream(past + [op], opener.s))
    ensures op.h == opener.h ==> !op.kind.OpOpen? && !op.kind.OpClose?
    ensures opener.h.value in Live(OnStream(past, opener.s))
  {
    LiveSnoc(past, op, opener.s);
    assert opener.h.value in Opened(past);
    LiveAreOpened(OnStream(past, op.s));
    hide Live, OnStream, Opened, HandlesOk;
    if op.h == opener.h && op.kind.OpClose? {
      OpenedOnStream(past, op.s, opener);
    }
  }

  // Whatever streams it mixes, the table holds the handles opened and not closed
  // since.
  lemma {:induction false} TableIsLive(ops: seq<Op>)
    requires forall op :: op in ops && op.kind.OpOpen? && op.h.Some? ==> op.tgt.Some?
    ensures ObserveAll(ops).handleToTarget.Keys == Live(ops)
  {
    hide Reach;
    if ops != [] {
      var past, op := ops[..|ops|-1], ops[|ops|-1];
      assert ops == past + [op];
      TableIsLive(past);
    }
  }

  // ----- Transfers -----

  ghost predicate TransfersTo(ops: seq<Op>, op: Op, target: int) {
    match op.kind
    case OpRead => ThroughHandleOf(ops, op, target)
    case OpWrite => ThroughHandleOf(ops, op, target)
    case OpGet => op.tgt == Some(target)
    case OpPut => op.tgt == Some(target)
    case _ => false
  }

  ghost predicate ThroughHandleOf(ops: seq<Op>, op: Op, target: int) {
    exists opener :: opener in ops && opener.kind.OpOpen? && op.h.Some? && opener.h == op.h
                     && opener.tgt == Some(target)
  }

  function EndOf(op: Op): int {
    op.off.GetOr(0) + Carried(op)
  }

  lemma HandleTransfer(h: Header, ops: seq<Op>, i: nat, target: int)
    requires CleanOps(h, ops) && i < |ops| && (ops[i].kind.OpRead? || ops[i].kind.OpWrite?)
    ensures Touches(ops, i, target) <==> ThroughHandleOf(ops, ops[i], target)
    ensures Touches(ops, i, target) ==> ReachAt(ops, i).value.1 == EndOf(ops[i])
  {
    assert ShapeOk(h, ops[i]);
    CleanHandles(h, ops);
    CleanOpsTake(h, ops, i);
    var opener := OpenerOf(h, ops, i);
    HeldHandleIsMapped(h, ops[..i], opener);
    assert opener in ops;
    hide CleanOps, ObserveAll, Live, OnStream, HandlesOk;
    forall other | other in ops && other.kind.OpOpen? && other.h == ops[i].h ensures other == opener {
      OpensOnce(ops, other, opener);
    }
  }

  // An operation counts towards the target it names, or its handle's OPEN named, up
  // to where its bytes end.
  lemma TouchesItsTarget(h: Header, ops: seq<Op>, i: nat, target: int)
    requires CleanOps(h, ops) && i < |ops|
    ensures Touches(ops, i, target) <==> TransfersTo(ops, ops[i], target)
    ensures Touches(ops, i, target) ==> ReachAt(ops, i).value.1 == EndOf(ops[i])
  {
    assert ShapeOk(h, ops[i]);
    if ops[i].kind.OpRead? || ops[i].kind.OpWrite? {
      HandleTransfer(h, ops, i, target);
    }
    hide CleanOps, ObserveAll, ThroughHandleOf;
  }

  // The extent derived for a target is where the furthest of its transfers ended.
  lemma ExtentOfTransfers(h: Header, ops: seq<Op>, target: int)
    requires CleanOps(h, ops)
    ensures var e := Extent(ObserveAll(ops).extents, target);
            && 0 <= e
            && (forall op :: op in ops && TransfersTo(ops, op, target) ==> EndOf(op) <= e)
            && (e == 0 || exists op :: op in ops && TransfersTo(ops, op, target) && EndOf(op) == e)
  {
    ExtentIsFurthestEnd(ops, target);
    hide CleanOps, ObserveAll, ReachAt, TransfersTo, Extent;
    var e := Extent(ObserveAll(ops).extents, target);
    forall op | op in ops && TransfersTo(ops, op, target) ensures EndOf(op) <= e {
      var i :| 0 <= i < |ops| && ops[i] == op;
      TouchesItsTarget(h, ops, i, target);
    }
    if e != 0 {
      var i :| Touches(ops, i, target) && ReachAt(ops, i).value.1 == e;
      TouchesItsTarget(h, ops, i, target);
      assert ops[i] in ops;
    }
  }
}
