// Replays without a failure, over whole traces: with offset writes it is a matter
// of access, and with whole objects of access and of what the PUTs were announced
// with.
module TraceReplay {
  import opened Trace
  import opened TraceContract
  import opened Replay
  import opened ReplayTheorems

  ghost predicate NothingFails(b: Backend, ops: seq<Op>) {
    forall s :: Failures(b, OnStream(ops, s)) == {}
  }

  ghost predicate EveryStreamReplayable(b: Backend, ops: seq<Op>) {
    forall s :: Replayable(b, OnStream(ops, s))
  }

  lemma NothingFailsExactlyWhen(h: Header, b: Backend, ops: seq<Op>)
    requires CleanOps(h, ops) && b.Valid()
    ensures NothingFails(b, ops) <==> EveryStreamReplayable(b, ops)
  {
    hide CleanOps, StreamSound, Failures, Replayable;
    forall s ensures Failures(b, OnStream(ops, s)) == {} <==> Replayable(b, OnStream(ops, s)) {
      StreamIsSound(h, ops, s);
      ReplaySucceedsExactlyWhen(h, b, OnStream(ops, s));
    }
  }

  lemma CleanHandles(h: Header, ops: seq<Op>)
    requires CleanOps(h, ops)
    ensures HandlesOk(ops)
  {
  }

  // ----- The one OPEN of a handle -----

  // A stream that holds a handle, or ever opened it, is its OPEN's.
  lemma OpenedOnStream(ops: seq<Op>, s: int, opener: Op)
    requires HandlesOk(ops) && opener in ops && opener.kind.OpOpen? && opener.h.Some?
    requires opener.h.value in Opened(OnStream(ops, s))
    ensures opener.s == s
  {
    OpenerExists(OnStream(ops, s), opener.h.value);
    var own :| OpenedBy(OnStream(ops, s), opener.h.value, own);
    OnStreamOps(ops, s);
    OpensOnce(ops, own, opener);
  }

  lemma OpenedInPrefix(ops: seq<Op>, i: nat, s: int)
    requires i <= |ops|
    ensures Opened(OnStream(ops[..i], s)) <= Opened(OnStream(ops, s))
  {
    assert ops == ops[..i] + ops[i..];
    OnStreamAppend(ops[..i], ops[i..], s);
    hide OnStream;
  }

  // The OPEN of the handle an operation uses, which its stream still holds.
  lemma OpenerOf(h: Header, ops: seq<Op>, i: nat) returns (opener: Op)
    requires CleanOps(h, ops) && i < |ops| && ops[i].kind.IsHandleOp()
    ensures opener in ops[..i] && opener.kind.OpOpen? && opener.h.Some? && opener.h == ops[i].h && opener.s == ops[i].s
    ensures opener.h.value in Live(OnStream(ops[..i], opener.s))
  {
    assert HandleOk(ops[..i], ops[i]);
    var mine := OnStream(ops[..i], ops[i].s);
    LiveAreOpened(mine);
    OpenerExists(mine, ops[i].h.value);
    opener :| OpenedBy(mine, ops[i].h.value, opener);
    OnStreamOps(ops[..i], ops[i].s);
  }

  // An operation's handle was opened by its own stream.
  lemma OpenerOnStream(ops: seq<Op>, op: Op, opener: Op)
    requires HandlesOk(ops) && op in ops && op.kind.IsHandleOp()
    requires opener in ops && opener.kind.OpOpen? && opener.h.Some? && op.h == opener.h
    ensures opener.s == op.s
  {
    hide OnStream, Live, Opened;
    var i :| 0 <= i < |ops| && ops[i] == op;
    assert HandleOk(ops[..i], ops[i]);
    LiveAreOpened(OnStream(ops[..i], op.s));
    OpenedInPrefix(ops, i, op.s);
    OpenedOnStream(ops, op.s, opener);
  }

  // ----- Access -----

  // Every OPEN is one the engine makes, or a coalesced write, and every handle
  // serves what is done with it.
  ghost predicate AllServed(b: Backend, ops: seq<Op>) {
    && (forall op :: op in ops && op.kind.OpOpen? ==> !Refuses(b, op))
    && (forall op, opener :: op in ops && opener in ops && opener.kind.OpOpen? && opener.h.Some? && op.h == opener.h ==>
          Serves(b, opener, op))
  }

  // Every PUT of the trace gets, from its stream, what it was announced with.
  ghost predicate AllPutsMatch(b: Backend, ops: seq<Op>) {
    forall opener :: opener in ops && Coalesces(b, opener) && opener.h.Some? ==>
      PutMatches(OnStream(ops, opener.s), opener.h.value, b.objSizes[opener.tgt.value])
  }

  lemma OthersAreServed(b: Backend, opener: Op, op: Op)
    requires !op.kind.IsHandleOp()
    ensures Serves(b, opener, op)
  {
  }

  lemma ServedFromStreams(h: Header, ops: seq<Op>, b: Backend)
    requires CleanOps(h, ops) && EveryStreamReplayable(b, ops)
    ensures AllServed(b, ops) && AllPutsMatch(b, ops)
  {
    CleanHandles(h, ops);
    hide OnStream, CleanOps, HandlesOk, Serves, Refuses, PutMatches;
    forall op | op in ops ensures op in OnStream(ops, op.s) && Replayable(b, OnStream(ops, op.s)) {
      OnStreamOps(ops, op.s);
    }
    forall op, opener | op in ops && opener in ops && opener.kind.OpOpen? && opener.h.Some? && op.h == opener.h
      ensures Serves(b, opener, op)
    {
      if op.kind.IsHandleOp() {
        OpenerOnStream(ops, op, opener);
        assert OpenedBy(OnStream(ops, op.s), op.h.value, opener);
      } else {
        OthersAreServed(b, opener, op);
      }
    }
  }

  lemma StreamsFromServed(ops: seq<Op>, b: Backend)
    requires AllServed(b, ops) && AllPutsMatch(b, ops)
    ensures EveryStreamReplayable(b, ops)
  {
    forall s ensures Replayable(b, OnStream(ops, s)) {
      OnStreamOps(ops, s);
      hide OnStream, Serves, Refuses, PutMatches;
    }
  }

  lemma ServedExactlyWhen(h: Header, b: Backend, ops: seq<Op>)
    requires CleanOps(h, ops) && b.Valid()
    ensures NothingFails(b, ops) <==> AllServed(b, ops) && AllPutsMatch(b, ops)
  {
    hide CleanOps, NothingFails, EveryStreamReplayable, AllServed, AllPutsMatch;
    NothingFailsExactlyWhen(h, b, ops);
    if AllServed(b, ops) && AllPutsMatch(b, ops) {
      StreamsFromServed(ops, b);
    }
    if EveryStreamReplayable(b, ops) {
      ServedFromStreams(h, ops, b);
    }
  }

  // ----- Offset writes -----

  // A READ needs a handle opened for reading, or one whose writes read first; a WRITE
  // that brings something needs one opened for writing.
  predicate WithinAccess(direct: bool, opener: Op, op: Op) {
    && (op.kind.OpRead? ==> opener.mode != ModeWrite || (direct && "direct" in opener.flags))
    && (op.kind.OpWrite? && op.len != Some(0) ==> opener.mode == ModeWrite || opener.mode == ModeReadWrite)
  }

  ghost predicate AccessOk(direct: bool, ops: seq<Op>) {
    forall op, opener :: op in ops && opener in ops && opener.kind.OpOpen? && opener.h.Some? && op.h == opener.h ==>
      WithinAccess(direct, opener, op)
  }

  lemma FilesServe(direct: bool, opener: Op, op: Op)
    ensures Serves(Files(direct), opener, op) <==> WithinAccess(direct, opener, op)
  {
  }

  lemma FilesRefuseNothing(direct: bool, opener: Op)
    ensures !Refuses(Files(direct), opener) && !Coalesces(Files(direct), opener)
  {
  }

  lemma AccessIsService(direct: bool, ops: seq<Op>)
    ensures AccessOk(direct, ops) <==> AllServed(Files(direct), ops)
    ensures AllPutsMatch(Files(direct), ops)
  {
    hide Serves, Refuses, WithinAccess, PutMatches, Coalesces;
    forall op: Op ensures !Refuses(Files(direct), op) {
      FilesRefuseNothing(direct, op);
    }
    forall op: Op ensures !Coalesces(Files(direct), op) {
      FilesRefuseNothing(direct, op);
    }
    forall op: Op, opener: Op ensures Serves(Files(direct), opener, op) <==> WithinAccess(direct, opener, op) {
      FilesServe(direct, opener, op);
    }
  }

  // With offset writes a trace replays without a failure exactly when its
  // transfers respect the access their handles were opened for.
  lemma FilesReplayExactlyWhen(h: Header, ops: seq<Op>, direct: bool)
    requires CleanOps(h, ops)
    ensures NothingFails(Files(direct), ops) <==> AccessOk(direct, ops)
  {
    ServedExactlyWhen(h, Files(direct), ops);
    AccessIsService(direct, ops);
    hide CleanOps, NothingFails, AllServed, AccessOk, AllPutsMatch;
  }

  // ----- Whole objects -----

  // A file is opened to be read, or to be written if a size was kept for it.
  predicate IsOpened(sizes: map<int, int>, opener: Op) {
    opener.mode == ModeRead || (opener.mode == ModeWrite && opener.tgt.Some? && opener.tgt.value in sizes)
  }

  // Only what was opened for it is read, written or synced.
  predicate IsOpenedFor(opener: Op, op: Op) {
    && (op.kind.OpRead? ==> opener.mode == ModeRead)
    && (op.kind.OpWrite? || op.kind.OpFsync? ==> opener.mode == ModeWrite)
  }

  ghost predicate ObjectAccessOk(sizes: map<int, int>, ops: seq<Op>) {
    && (forall op :: op in ops && op.kind.OpOpen? ==> IsOpened(sizes, op))
    && (forall op, opener :: op in ops && opener in ops && opener.kind.OpOpen? && opener.h.Some? && op.h == opener.h ==>
          IsOpenedFor(opener, op))
  }

  lemma ObjectsServe(sizes: map<int, int>, opener: Op, op: Op)
    requires opener.kind.OpOpen?
    ensures var b := Backend(ObjectEngine, sizes);
            && (!Refuses(b, opener) <==> IsOpened(sizes, opener))
            && (!Refuses(b, opener) ==> (Serves(b, opener, op) <==> IsOpenedFor(opener, op)))
  {
  }

  lemma ObjectAccessIsService(sizes: map<int, int>, ops: seq<Op>)
    ensures ObjectAccessOk(sizes, ops) <==> AllServed(Backend(ObjectEngine, sizes), ops)
  {
    forall opener: Op, op: Op | opener.kind.OpOpen?
      ensures var b := Backend(ObjectEngine, sizes);
              && (!Refuses(b, opener) <==> IsOpened(sizes, opener))
              && (!Refuses(b, opener) ==> (Serves(b, opener, op) <==> IsOpenedFor(opener, op)))
    {
      ObjectsServe(sizes, opener, op);
    }
    hide Serves, Refuses, IsOpened, IsOpenedFor;
  }
}
