// The parts together: calls are imported, reads are split, the streams are dealt
// out to workers, and every worker prepares the trace and replays its share to
// the end.
module Pipeline {
  import opened Trace
  import opened TraceContract
  import opened SortedIds
  import opened Partition
  import opened Replay
  import opened Preparation
  import opened ReplayTheorems
  import opened TraceReplay
  import Builder
  import BuilderTheorems
  import ObjectWrite
  import SplitReads
  import SplitTheorems
  import Strace
  import StraceImport
  import StraceSpec

  // ----- Adding up over the shares of all workers -----

  function Total(f: int -> nat, ids: seq<int>): nat {
    if ids == [] then 0 else Total(f, ids[..|ids|-1]) + f(ids[|ids|-1])
  }

  // Over the shares of the first k of n workers.
  function SharesTotal(f: int -> nat, ids: seq<int>, n: nat, k: nat): nat
    requires n > 0
  {
    if k == 0 then 0 else SharesTotal(f, ids, n, k - 1) + Total(f, Dealt(ids, k - 1, n))
  }

  lemma TotalAppendOne(f: int -> nat, ids: seq<int>, s: int)
    ensures Total(f, ids + [s]) == Total(f, ids) + f(s)
  {
    assert (ids + [s])[..|ids|] == ids;
  }

  lemma DealtAppend(front: seq<int>, last: int, w: nat, n: nat)
    requires n > 0
    ensures Dealt(front + [last], w, n) == Dealt(front, w, n) + if Dealer(|front|, n) == w then [last] else []
  {
    assert (front + [last])[..|front|] == front;
  }

  lemma {:induction false} NextIdIsDealt(f: int -> nat, front: seq<int>, last: int, n: nat, k: nat)
    requires n > 0
    ensures SharesTotal(f, front + [last], n, k)
            == SharesTotal(f, front, n, k) + if Dealer(|front|, n) < k then f(last) else 0
  {
    hide Dealt, Dealer, Total;
    if k > 0 {
      NextIdIsDealt(f, front, last, n, k - 1);
      DealtAppend(front, last, k - 1, n);
      TotalAppendOne(f, Dealt(front, k - 1, n), last);
      assert Dealt(front, k - 1, n) + [] == Dealt(front, k - 1, n);
    }
  }

  // Whatever is counted stream by stream, the shares add up to the whole.
  lemma {:induction false} SharesAreEverything(f: int -> nat, ids: seq<int>, n: nat)
    requires n > 0
    ensures SharesTotal(f, ids, n, n) == Total(f, ids)
  {
    if ids == [] {
      NothingShared(f, n, n);
    } else {
      var front, last := ids[..|ids|-1], ids[|ids|-1];
      SharesAreEverything(f, front, n);
      assert ids == front + [last];
      NextIdIsDealt(f, front, last, n, n);
      assert Dealer(|front|, n) < n;
    }
  }

  lemma {:induction false} NothingShared(f: int -> nat, n: nat, k: nat)
    requires n > 0
    ensures SharesTotal(f, [], n, k) == 0
  {
    if k > 0 {
      NothingShared(f, n, k - 1);
    }
  }

  // ----- What is counted -----

  function OpCount(ops: seq<Op>): int -> nat {
    s => |OnStream(ops, s)|
  }

  function FailureCount(b: Backend, ops: seq<Op>): int -> nat {
    s => |Failures(b, OnStream(ops, s))|
  }

  // The operations of the whole trace that fail: those of every stream.
  function AllFailures(b: Backend, ops: seq<Op>): nat {
    Total(FailureCount(b, ops), SortIds(StreamIds(ops)))
  }

  lemma {:induction false} OpCountSnoc(past: seq<Op>, op: Op, ids: seq<int>)
    requires Distinct(ids)
    ensures Total(OpCount(past + [op]), ids) == Total(OpCount(past), ids) + if op.s in ids then 1 else 0
  {
    hide OnStream;
    if ids != [] {
      var front, last := ids[..|ids|-1], ids[|ids|-1];
      OpCountSnoc(past, op, front);
      OnStreamSnoc(past, op, last);
      assert ids == front + [last];
    }
  }

  lemma {:induction false} EveryOpIsCounted(ops: seq<Op>, ids: seq<int>)
    requires Distinct(ids) && forall op :: op in ops ==> op.s in ids
    ensures Total(OpCount(ops), ids) == |ops|
    decreases |ops|, |ids|
  {
    if ops != [] {
      var past, op := ops[..|ops|-1], ops[|ops|-1];
      EveryOpIsCounted(past, ids);
      assert ops == past + [op] && op in ops;
      OpCountSnoc(past, op, ids);
    } else if ids != [] {
      EveryOpIsCounted(ops, ids[..|ids|-1]);
    }
  }

  lemma {:induction false} TotalIsZero(f: int -> nat, ids: seq<int>)
    ensures Total(f, ids) == 0 <==> forall s :: s in ids ==> f(s) == 0
  {
    if ids != [] {
      var front, last := ids[..|ids|-1], ids[|ids|-1];
      TotalIsZero(f, front);
      assert ids == front + [last];
      assert forall s :: s in ids <==> s in front || s == last;
    }
  }

  lemma NoFailuresMeaning(b: Backend, ops: seq<Op>)
    ensures AllFailures(b, ops) == 0 <==> NothingFails(b, ops)
  {
    var ids := SortIds(StreamIds(ops));
    SortIdsLists(StreamIds(ops));
    TotalIsZero(FailureCount(b, ops), ids);
    forall s ensures Failures(b, OnStream(ops, s)) == {} <==> s !in ids || FailureCount(b, ops)(s) == 0 {
      OnStreamOps(ops, s);
      assert OnStream(ops, s) != [] ==> OnStream(ops, s)[0] in OnStream(ops, s);
    }
    hide Failures, OnStream, Total, StreamIds, SortIds, FailureCount;
  }

  // ----- The workers -----

  datatype Tally = Tally(dispatched: nat, failed: nat)

  // One worker prepares the whole trace and replays its streams; None when PREPARE
  // refuses the trace.
  method ReplayShare(h: Header, ops: seq<Op>, share: seq<int>, engine: Engine, think: bool) returns (r: Option<Tally>)
    ensures r.Some? <==> Preparable(h, ops, engine, think)
    ensures r.Some? ==>
              && Coalescible(h, ops, engine)
              && r.value == Tally(Total(OpCount(ops), share),
                                  Total(FailureCount(BackendFor(h, ops, engine), ops), share))
  {
    hide Preparable, BackendFor, Failures;
    var prepared := Prepare(h, ops, Some(set s <- share), engine, think);
    if prepared.Rejected? {
      return None;
    }
    PreparableIsClean(h, ops, engine, think);
    var dispatched, failures := 0, 0;
    for k := 0 to |share|
      invariant dispatched == Total(OpCount(ops), share[..k])
      invariant failures == Total(FailureCount(prepared.backend, ops), share[..k])
    {
      var s := share[k];
      assert share[..k+1] == share[..k] + [s];
      TotalAppendOne(OpCount(ops), share[..k], s);
      TotalAppendOne(FailureCount(prepared.backend, ops), share[..k], s);
      var mine := ShareStream(ops, prepared.byStream, share, s);
      StreamIsSound(h, ops, s);
      var _, count, failed := ReplayStream(h, mine, prepared.backend);
      dispatched, failures := dispatched + count, failures + |failed|;
    }
    assert share[..|share|] == share;
    r := Some(Tally(dispatched, failures));
  }

  method ShareStream(ops: seq<Op>, byStream: map<int, seq<Op>>, share: seq<int>, s: int) returns (mine: seq<Op>)
    requires s in share && byStream.Keys == Kept(ops, set x <- share)
    requires forall x :: x in byStream ==> byStream[x] == OnStream(ops, x)
    ensures mine == OnStream(ops, s)
  {
    OnStreamOps(ops, s);
    if s in byStream {
      return byStream[s];
    }
    assert s !in StreamIds(ops);
    assert |OnStream(ops, s)| > 0 ==> OnStream(ops, s)[0] in OnStream(ops, s);
    return [];
  }

  lemma PreparableIsClean(h: Header, ops: seq<Op>, engine: Engine, think: bool)
    requires Preparable(h, ops, engine, think)
    ensures CleanTrace(h, ops)
  {
  }

  // All workers, one after another. Whatever their number, either every worker
  // prepares the trace or none does, and then every operation is dispatched
  // exactly once and the same ones fail: none exactly when every stream, taken
  // alone, is replayed without a failure.
  method ReplayAll(h: Header, ops: seq<Op>, engine: Engine, think: bool, n: nat) returns (r: Option<Tally>)
    requires n > 0
    ensures r.Some? <==> Preparable(h, ops, engine, think)
    ensures r.Some? ==>
              && Coalescible(h, ops, engine)
              && r.value == Tally(|ops|, AllFailures(BackendFor(h, ops, engine), ops))
    ensures r.Some? ==> (r.value.failed == 0 <==> NothingFails(BackendFor(h, ops, engine), ops))
  {
    hide Preparable, Dealt, Total, StreamIds, SortIds, OpCount, FailureCount, NothingFails;
    var ids := ParseTraceStreams(ops);
    var shares := PartitionStreams(ids, n);
    var dispatched, failures := 0, 0;
    for w := 0 to n
      invariant forall v :: 0 <= v < n ==> shares[v] == Dealt(ids, v, n)
      invariant w > 0 ==> Preparable(h, ops, engine, think)
      invariant w > 0 && engine.ObjectEngine? ==> ObjectWrite.ObserveAll(ops, h.targets).Some?
      invariant w > 0 ==> dispatched == SharesTotal(OpCount(ops), ids, n, w)
      invariant w > 0 ==> failures == SharesTotal(FailureCount(BackendFor(h, ops, engine), ops), ids, n, w)
      invariant w == 0 ==> dispatched == failures == 0
    {
      var tally := ReplayShare(h, ops, shares[w], engine, think);
      if tally.None? {
        return None;
      }
      dispatched, failures := dispatched + tally.value.dispatched, failures + tally.value.failed;
    }
    SharesAreEverything(OpCount(ops), ids, n);
    SharesAreEverything(FailureCount(BackendFor(h, ops, engine), ops), ids, n);
    SortIdsLists(StreamIds(ops));
    AllStreamsListed(ops, ids);
    EveryOpIsCounted(ops, ids);
    NoFailuresMeaning(BackendFor(h, ops, engine), ops);
    r := Some(Tally(dispatched, failures));
  }

  lemma AllStreamsListed(ops: seq<Op>, ids: seq<int>)
    requires forall s :: s in ids <==> s in StreamIds(ops)
    ensures forall op :: op in ops ==> op.s in ids
  {
  }

  // ----- From calls to a finished replay -----

  lemma SplitIsAdmitted(ops: seq<Op>, block: int, engine: Engine)
    requires block > 0 && SplitReads.Splitting(ops, block).Pieces?
    requires forall op :: op in ops ==> Admits(engine, op)
    ensures forall p :: p in SplitReads.Splitting(ops, block).ops ==> Admits(engine, p)
  {
    SplitTheorems.OutputMembers(ops, block);
    hide SplitReads.Splitting;
    forall p | p in SplitReads.Splitting(ops, block).ops ensures Admits(engine, p) {
      var q, op :| op in ops && SplitReads.IsPieceOf(q, op, block) && p == q.(opId := p.opId);
      PieceIsAdmitted(op, q, block, engine);
    }
  }

  lemma PieceIsAdmitted(op: Op, p: Op, block: int, engine: Engine)
    requires block > 0 && SplitReads.IsPieceOf(p, op, block) && Admits(engine, op)
    ensures Admits(engine, p)
  {
    SplitReads.PiecesDerived(op, block);
  }

  // An operation of the output for every operation of the source, on its handle.
  lemma EveryOpHasPiece(ops: seq<Op>, block: int, op: Op) returns (p: Op)
    requires block > 0 && SplitReads.Flatten(ops, block).Pieces? && op in ops
    ensures p in SplitReads.Splitting(ops, block).ops
    ensures p.kind == op.kind && p.h == op.h && p.mode == op.mode && p.flags == op.flags
    ensures op.kind.OpWrite? ==> p.len == op.len
  {
    SplitReads.FlattenMembers(ops, block);
    SplitReads.PiecesDerived(op, block);
    var flat := SplitReads.Flatten(ops, block).ops;
    var piece := SplitReads.PiecesOf(op, block).ops[0];
    assert SplitReads.IsPieceOf(piece, op, block);
    var i :| 0 <= i < |flat| && flat[i] == piece;
    p := Renumber(flat)[i];
  }

  lemma EveryPieceHasOp(ops: seq<Op>, block: int, p: Op) returns (op: Op)
    requires block > 0 && SplitReads.Flatten(ops, block).Pieces? && p in SplitReads.Splitting(ops, block).ops
    ensures op in ops && p.kind == op.kind && p.h == op.h && p.mode == op.mode && p.flags == op.flags
    ensures p.kind.OpWrite? ==> p.len == op.len
  {
    SplitTheorems.OutputMembers(ops, block);
    hide SplitReads.Splitting, SplitReads.Flatten;
    var q, source :| source in ops && SplitReads.IsPieceOf(q, source, block) && p == q.(opId := p.opId);
    SplitReads.PiecesDerived(source, block);
    op := source;
  }

  // Splitting changes nothing about access.
  lemma SplitKeepsAccess(ops: seq<Op>, block: int, direct: bool)
    requires block > 0 && SplitReads.Splitting(ops, block).Pieces?
    ensures AccessOk(direct, SplitReads.Splitting(ops, block).ops) <==> AccessOk(direct, ops)
  {
    var out := SplitReads.Splitting(ops, block).ops;
    assert SplitReads.Flatten(ops, block).Pieces?;
    hide SplitReads.Splitting, SplitReads.Flatten;
    if AccessOk(direct, ops) {
      forall op, opener | op in out && opener in out && opener.kind.OpOpen? && opener.h.Some? && op.h == opener.h
        ensures WithinAccess(direct, opener, op)
      {
        var op' := EveryPieceHasOp(ops, block, op);
        var opener' := EveryPieceHasOp(ops, block, opener);
        assert WithinAccess(direct, opener', op');
      }
    }
    if AccessOk(direct, out) {
      forall op, opener | op in ops && opener in ops && opener.kind.OpOpen? && opener.h.Some? && op.h == opener.h
        ensures WithinAccess(direct, opener, op)
      {
        var op' := EveryOpHasPiece(ops, block, op);
        var opener' := EveryOpHasPiece(ops, block, opener);
        assert WithinAccess(direct, opener', op');
      }
    }
  }

  // Calls whose paths are named and whose positions are not negative can always
  // be imported, split at any block, and replayed by any number of workers
  // against an engine with offset writes, moving the bytes that were recorded;
  // and nothing fails exactly when the recorded transfers respect the access their
  // descriptors were opened for.
  method ImportSplitReplay(meta: Builder.HeaderMeta, events: seq<StraceSpec.Event>, block: int, digest: string,
                           direct: bool, n: nat)
      returns (source: Builder.Written, out: seq<Op>, tally: Option<Tally>)
    requires BuilderTheorems.MetaOk(meta) && forall ev :: ev in events ==> StraceImport.CallOk(ev.call, ev.ret)
    requires block > 0 && n > 0
    ensures source == StraceImport.Assemble(meta, events)
    ensures tally.Some? && tally.value.dispatched == |out|
    ensures tally.value.failed == 0 <==> AccessOk(direct, source.ops)
    ensures TotalBytes(out) == TotalBytes(source.ops)
    ensures forall p :: p in out && IsRead(p) ==> p.Moved() <= block
  {
    hide CleanTrace, StraceImport.CallOk, BuilderTheorems.MetaOk, SplitReads.Splitting, TotalBytes, Admits,
         Builder.Assembled, StraceSpec.HandleAll, AccessOk, NothingFails;
    source := Strace.Import(meta, events);
    var split := SplitReads.Run(source.ops, block);
    SplitTheorems.SplitIsClean(source.header, source.ops, block, digest);
    SplitTheorems.SplitMovesTheSameBytes(source.ops, block);
    StraceImport.ImportedIsAdmitted(meta, events, direct);
    SplitIsAdmitted(source.ops, block, FileEngine(direct));
    SplitKeepsAccess(source.ops, block, direct);
    out := split.value.ops;
    var h := SplitReads.SplitHeader(source.header, out, block, digest);
    assert Preparable(h, out, FileEngine(direct), false);
    CleanIsCleanOps(h, out);
    FilesReplayExactlyWhen(h, out, direct);
    tally := ReplayAll(h, out, FileEngine(direct), false, n);
  }

  lemma CleanIsCleanOps(h: Header, ops: seq<Op>)
    requires CleanTrace(h, ops)
    ensures CleanOps(h, ops)
  {
  }
}
