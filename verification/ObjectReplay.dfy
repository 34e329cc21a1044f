// Which traces an object engine replays without a failure: beside access, it is a
// matter of the sizes the eligibility pass kept (pkg/replay/objectwrite.go:41-135,
// pkg/engine/s3/s3.go:243-270, pkg/engine/s3/multipart.go:40-56).
module ObjectReplay {
  import opened Trace
  import opened TraceContract
  import opened Replay
  import opened ReplayTheorems
  import opened TraceReplay
  import F = Files
  import Preparation
  import W = ObjectWrite

  // ----- A handle's life, as the bytes it was fed -----

  function StreamedBytes(life: W.Life): nat {
    if life.NoLife? then 0 else |life.streamed|
  }

  lemma LastIsOk(h: Header, past: seq<Op>, op: Op)
    requires CleanOps(h, past + [op])
    ensures CleanOps(h, past) && ShapeOk(h, op) && HandleOk(past, op)
  {
    CleanOpsPrefix(h, past, op);
    HandlesOkStep(past, op);
    assert (past + [op])[|past|] == op;
  }

  lemma FedStep(h: Header, life: W.Life, op: Op, chunk: seq<F.Byte>, x: int, fed: int)
    requires ShapeOk(h, op) && (op.h == Some(x) ==> W.Ready(op, life)) && StreamedBytes(life) == fed
    requires op.kind.OpWrite? ==> op.len == Some(|chunk|)
    ensures StreamedBytes(W.LifeAfter(life, op, chunk, x)) == fed + FedBy(op, x)
  {
  }

  lemma {:induction false} LifeIsFed(h: Header, ops: seq<Op>, chunks: seq<seq<F.Byte>>, x: int)
    requires CleanOps(h, ops) && W.Chunked(ops, chunks)
    ensures StreamedBytes(W.LifeOf(ops, chunks, x)) == Fed(ops, x)
  {
    if ops != [] {
      hide CleanOps, W.LifeOf, W.LifeAfter, Fed, Opened, HandleOk, ShapeOk, W.Ready, W.LiveInProgress, StreamedBytes;
      var n := |ops| - 1;
      var past, op, early := ops[..n], ops[n], chunks[..n];
      assert ops == past + [op] && chunks == early + [chunks[n]];
      LastIsOk(h, past, op);
      LifeIsFed(h, past, early, x);
      W.LifeSnoc(past, op, early, chunks[n], x);
      FedSnoc(past, op, x);
      CleanIsLive(h, past, early);
      forall y ensures W.LifeOf(past, early, y).Life? ==> y in Opened(past) {
        W.LivesAreOpened(past, early, y);
      }
      W.NextIsReady(h, past, early, op);
      FedStep(h, W.LifeOf(past, early, x), op, chunks[n], x, Fed(past, x));
    }
  }

  lemma CleanIsLive(h: Header, ops: seq<Op>, chunks: seq<seq<F.Byte>>)
    requires CleanOps(h, ops) && |ops| == |chunks|
    ensures W.LiveInProgress(ops, chunks)
  {
    W.CleanIsInProgress(h, ops, chunks);
  }

  lemma {:induction false} LifeFromOpener(h: Header, ops: seq<Op>, chunks: seq<seq<F.Byte>>, opener: Op)
    requires CleanOps(h, ops) && W.Chunked(ops, chunks)
    requires opener in ops && opener.kind.OpOpen? && opener.h.Some?
    ensures opener.tgt.Some?
    ensures var life := W.LifeOf(ops, chunks, opener.h.value);
            life.Life? && life.target == opener.tgt.value && life.mode == opener.mode
  {
    hide CleanOps, W.LifeOf, W.LifeAfter, HandleOk;
    var n := |ops| - 1;
    var past, op, early := ops[..n], ops[n], chunks[..n];
    assert ops == past + [op] && chunks == early + [chunks[n]];
    LastIsOk(h, past, op);
    W.LifeSnoc(past, op, early, chunks[n], opener.h.value);
    if opener in past {
      NotOpenedAgain(past, op, opener);
      LifeFromOpener(h, past, early, opener);
      LifeStays(W.LifeOf(past, early, opener.h.value), op, chunks[n], opener.h.value);
    } else {
      LifeStarts(h, W.LifeOf(past, early, opener.h.value), op, chunks[n]);
    }
  }

  lemma LifeStarts(h: Header, life: W.Life, op: Op, chunk: seq<F.Byte>)
    requires ShapeOk(h, op) && op.kind.OpOpen?
    ensures op.h.Some? && op.tgt.Some?
    ensures W.LifeAfter(life, op, chunk, op.h.value) == W.Life(op.tgt.value, op.mode, false, [], [])
  {
  }

  lemma LifeStays(life: W.Life, op: Op, chunk: seq<F.Byte>, x: int)
    requires life.Life? && (op.kind.OpOpen? ==> op.h != Some(x))
    ensures var after := W.LifeAfter(life, op, chunk, x);
            after.Life? && after.target == life.target && after.mode == life.mode
  {
  }

  lemma NotOpenedAgain(past: seq<Op>, op: Op, opener: Op)
    requires HandleOk(past, op) && opener in past && opener.kind.OpOpen? && opener.h.Some?
    ensures op.kind.OpOpen? ==> op.h != opener.h
  {
    assert opener.h.value in Opened(past);
  }

  lemma {:induction false} InProgressIsLive(h: Header, ops: seq<Op>, chunks: seq<seq<F.Byte>>, x: int) returns (s: int)
    requires CleanOps(h, ops) && W.Chunked(ops, chunks) && W.InProgress(W.LifeOf(ops, chunks, x))
    ensures x in Live(OnStream(ops, s))
  {
    var n := |ops| - 1;
    var past, op, early := ops[..n], ops[n], chunks[..n];
    assert ops == past + [op] && chunks == early + [chunks[n]];
    LastIsOk(h, past, op);
    W.LifeSnoc(past, op, early, chunks[n], x);
    hide CleanOps, W.LifeOf, Live, OnStream, Opened;
    if op.kind.OpOpen? && op.h == Some(x) {
      s := op.s;
    } else {
      s := InProgressIsLive(h, past, early, x);
    }
    LiveSnoc(past, op, s);
  }

  lemma LiveMeansInProgress(h: Header, ops: seq<Op>, chunks: seq<seq<F.Byte>>, opener: Op)
    requires CleanOps(h, ops) && W.Chunked(ops, chunks)
    requires opener in ops && opener.kind.OpOpen? && opener.h.Some?
    ensures opener.h.value in Live(OnStream(ops, opener.s)) <==> W.InProgress(W.LifeOf(ops, chunks, opener.h.value))
  {
    W.CleanIsInProgress(h, ops, chunks);
    CleanHandles(h, ops);
    hide CleanOps, HandlesOk, W.LifeOf, Live, OnStream, Opened;
    if W.InProgress(W.LifeOf(ops, chunks, opener.h.value)) {
      var s := InProgressIsLive(h, ops, chunks, opener.h.value);
      LiveAreOpened(OnStream(ops, s));
      OpenedOnStream(ops, s, opener);
    }
  }

  // ----- A stream's PUT, in terms of the life -----

  lemma {:induction false} FedOnStream(ops: seq<Op>, s: int, x: int)
    requires forall op :: op in ops && op.kind.OpWrite? && op.h == Some(x) ==> op.s == s
    ensures Fed(OnStream(ops, s), x) == Fed(ops, x)
  {
    if ops != [] {
      var past, op := ops[..|ops|-1], ops[|ops|-1];
      assert ops == past + [op] && op in ops;
      FedOnStream(past, s, x);
      FedSnoc(past, op, x);
      FedSnoc(OnStream(past, s), op, x);
      OnStreamSnoc(past, op, s);
      hide Fed, OnStream;
    }
  }

  ghost predicate LifeMatches(ops: seq<Op>, chunks: seq<seq<F.Byte>>, x: int, announced: int)
    requires |ops| == |chunks|
  {
    var life := W.LifeOf(ops, chunks, x);
    && StreamedBytes(life) <= announced
    && (!W.InProgress(life) ==> StreamedBytes(life) == announced)
    && (forall i :: 0 <= i < |ops| && EmptyWrite(ops[i], x) ==>
          StreamedBytes(W.LifeOf(ops[..i], chunks[..i], x)) < announced)
  }

  // What the stream was fed before operation i of the trace.
  lemma FedBefore(h: Header, ops: seq<Op>, chunks: seq<seq<F.Byte>>, opener: Op, i: nat)
    requires CleanOps(h, ops) && W.Chunked(ops, chunks) && i <= |ops|
    requires opener in ops && opener.kind.OpOpen? && opener.h.Some?
    ensures Fed(OnStream(ops[..i], opener.s), opener.h.value)
            == StreamedBytes(W.LifeOf(ops[..i], chunks[..i], opener.h.value))
  {
    CleanHandles(h, ops);
    CleanOpsTake(h, ops, i);
    hide CleanOps, HandlesOk, W.LifeOf, Fed, OnStream;
    forall op | op in ops[..i] && op.kind.OpWrite? && op.h == opener.h ensures op.s == opener.s {
      OpenerOnStream(ops, op, opener);
    }
    FedOnStream(ops[..i], opener.s, opener.h.value);
    LifeIsFed(h, ops[..i], chunks[..i], opener.h.value);
  }

  lemma EmptiesCorrespond(h: Header, ops: seq<Op>, chunks: seq<seq<F.Byte>>, opener: Op, announced: int)
    requires CleanOps(h, ops) && W.Chunked(ops, chunks)
    requires opener in ops && opener.kind.OpOpen? && opener.h.Some?
    ensures var x, mine := opener.h.value, OnStream(ops, opener.s);
            (forall k :: 0 <= k < |mine| && EmptyWrite(mine[k], x) ==> Fed(mine[..k], x) < announced) <==>
            (forall i :: 0 <= i < |ops| && EmptyWrite(ops[i], x) ==>
               StreamedBytes(W.LifeOf(ops[..i], chunks[..i], x)) < announced)
  {
    CleanHandles(h, ops);
    hide CleanOps, W.Chunked, HandlesOk, W.LifeOf, Fed, OnStream;
    var x, mine := opener.h.value, OnStream(ops, opener.s);
    if forall k :: 0 <= k < |mine| && EmptyWrite(mine[k], x) ==> Fed(mine[..k], x) < announced {
      forall i | 0 <= i < |ops| && EmptyWrite(ops[i], x)
        ensures StreamedBytes(W.LifeOf(ops[..i], chunks[..i], x)) < announced
      {
        OpenerOnStream(ops, ops[i], opener);
        OnStreamAt(ops, i);
        FedBefore(h, ops, chunks, opener, i);
        assert EmptyWrite(mine[|OnStream(ops[..i], opener.s)|], x);
      }
    }
    if forall i :: 0 <= i < |ops| && EmptyWrite(ops[i], x) ==>
                     StreamedBytes(W.LifeOf(ops[..i], chunks[..i], x)) < announced {
      forall k | 0 <= k < |mine| && EmptyWrite(mine[k], x) ensures Fed(mine[..k], x) < announced {
        var i := OnStreamFrom(ops, opener.s, k);
        FedBefore(h, ops, chunks, opener, i);
        assert EmptyWrite(ops[i], x);
      }
    }
  }

  lemma MatchIsLife(h: Header, ops: seq<Op>, chunks: seq<seq<F.Byte>>, opener: Op, announced: int)
    requires CleanOps(h, ops) && W.Chunked(ops, chunks)
    requires opener in ops && opener.kind.OpOpen? && opener.h.Some?
    ensures PutMatches(OnStream(ops, opener.s), opener.h.value, announced) <==>
              LifeMatches(ops, chunks, opener.h.value, announced)
  {
    EmptiesCorrespond(h, ops, chunks, opener, announced);
    LiveMeansInProgress(h, ops, chunks, opener);
    FedBefore(h, ops, chunks, opener, |ops|);
    assert ops[..|ops|] == ops && chunks[..|chunks|] == chunks;
    hide CleanOps, W.Chunked, W.LifeOf, Fed, OnStream, Live, EmptyWrite;
  }

  // ----- Eligibility, in terms of the OPENs -----

  // A WRITE goes through a handle opened for writing only and starts where the
  // earlier ones of the handle ended; a CLOSE of such a handle comes when all of a
  // declared size is there.
  ghost predicate Continues(targets: seq<TargetInfo>, ops: seq<Op>, i: nat, opener: Op)
    requires i < |ops| && opener.h.Some?
  {
    var fed := Fed(ops[..i], opener.h.value);
    && (ops[i].kind.OpWrite? ==> opener.mode == ModeWrite && ops[i].off == Some(fed))
    && (ops[i].kind.OpClose? && opener.mode == ModeWrite && opener.tgt.Some? ==>
          var size := W.DeclaredSize(targets, opener.tgt.value); size > 0 ==> fed == size)
  }

  ghost predicate AllContinue(targets: seq<TargetInfo>, ops: seq<Op>) {
    forall i, opener :: 0 <= i < |ops| && opener in ops && opener.kind.OpOpen? && opener.h.Some?
                        && ops[i].h == opener.h ==>
      Continues(targets, ops, i, opener)
  }

  lemma AcceptableByOpener(h: Header, ops: seq<Op>, chunks: seq<seq<F.Byte>>, i: nat, opener: Op)
    requires CleanOps(h, ops) && W.Chunked(ops, chunks) && i < |ops|
    requires opener in ops && opener.kind.OpOpen? && opener.h.Some? && ops[i].h == opener.h
    ensures W.Acceptable(h.targets, W.LifeOf(ops[..i], chunks[..i], opener.h.value), ops[i]) <==>
              Continues(h.targets, ops, i, opener)
  {
    var past, early := ops[..i], chunks[..i];
    CleanOpsTake(h, ops, i);
    CleanHandles(h, ops);
    hide CleanOps, HandlesOk, W.LifeOf, Fed, W.InProgress;
    if ops[i].kind.IsHandleOp() {
      var own := OpenerOf(h, ops, i);
      assert own in ops;
      OpensOnce(ops, own, opener);
      W.CleanIsInProgress(h, past, early);
      LiveMeansInProgress(h, past, early, opener);
      LifeFromOpener(h, past, early, opener);
      LifeIsFed(h, past, early, opener.h.value);
    }
  }

  // The pass accepts a clean trace exactly when every WRITE continues a write-only
  // handle where it stands and every such handle closes at its declared size.
  lemma EligibleByOpeners(h: Header, ops: seq<Op>, chunks: seq<seq<F.Byte>>)
    requires CleanOps(h, ops) && W.Chunked(ops, chunks)
    ensures W.ObserveAll(ops, h.targets).Some? <==> AllContinue(h.targets, ops)
  {
    W.EligibleExactlyWhen(h, ops, chunks);
    hide CleanOps, W.ObserveAll, W.LifeOf, Continues, W.Acceptable, W.Chunked, W.PassKnows;
    if W.AllAcceptable(h.targets, ops, chunks) {
      forall i, opener | 0 <= i < |ops| && opener in ops && opener.kind.OpOpen? && opener.h.Some?
                         && ops[i].h == opener.h
        ensures Continues(h.targets, ops, i, opener)
      {
        AcceptableByOpener(h, ops, chunks, i, opener);
      }
    }
    if AllContinue(h.targets, ops) {
      forall i | 0 <= i < |ops| && ops[i].h.Some?
        ensures W.Acceptable(h.targets, W.LifeOf(ops[..i], chunks[..i], ops[i].h.value), ops[i])
      {
        AcceptableAnyway(h, ops, chunks, i);
      }
    }
  }

  lemma AcceptableAnyway(h: Header, ops: seq<Op>, chunks: seq<seq<F.Byte>>, i: nat)
    requires CleanOps(h, ops) && W.Chunked(ops, chunks) && i < |ops| && ops[i].h.Some? && AllContinue(h.targets, ops)
    ensures W.Acceptable(h.targets, W.LifeOf(ops[..i], chunks[..i], ops[i].h.value), ops[i])
  {
    hide CleanOps, W.LifeOf, Continues;
    if ops[i].kind.IsHandleOp() {
      var opener := OpenerOf(h, ops, i);
      assert opener in ops;
      AcceptableByOpener(h, ops, chunks, i, opener);
    }
  }

  // ----- Whole traces -----

  predicate Announced(life: W.Life, sizes: map<int, int>) {
    life.Life? && life.mode == ModeWrite && life.target in sizes
  }

  // All completed writes of a target are equally long, none left open is longer
  // than the size kept for it, and no empty WRITE comes when all of that is there.
  ghost predicate PutsAnnouncedRight(ops: seq<Op>, chunks: seq<seq<F.Byte>>, sizes: map<int, int>)
    requires |ops| == |chunks|
  {
    && (forall t :: t in sizes ==> W.EquallyLong(ops, chunks, t))
    && (forall x :: var life := W.LifeOf(ops, chunks, x);
          Announced(life, sizes) && !life.closed ==> |life.streamed| <= sizes[life.target])
    && (forall i, x :: 0 <= i < |ops| && EmptyWrite(ops[i], x) ==>
          var life := W.LifeOf(ops[..i], chunks[..i], x);
          Announced(life, sizes) ==> |life.streamed| < sizes[life.target])
  }

  lemma OpenerOfLife(ops: seq<Op>, chunks: seq<seq<F.Byte>>, x: int) returns (opener: Op)
    requires |ops| == |chunks| && W.LifeOf(ops, chunks, x).Life?
    ensures OpenedBy(ops, x, opener)
  {
    W.LivesAreOpened(ops, chunks, x);
    OpenerExists(ops, x);
    opener :| OpenedBy(ops, x, opener);
  }

  // A handle whose life is that of an announced PUT matches it.
  lemma AnnouncedMatches(h: Header, ops: seq<Op>, chunks: seq<seq<F.Byte>>, b: Backend, x: int)
    requires CleanOps(h, ops) && W.Chunked(ops, chunks) && AllPutsMatch(b, ops)
    requires Announced(W.LifeOf(ops, chunks, x), b.objSizes)
    ensures LifeMatches(ops, chunks, x, b.objSizes[W.LifeOf(ops, chunks, x).target])
  {
    hide CleanOps, W.LifeOf, PutMatches, LifeMatches, OnStream;
    var opener := OpenerOfLife(ops, chunks, x);
    LifeFromOpener(h, ops, chunks, opener);
    MatchIsLife(h, ops, chunks, opener, b.objSizes[opener.tgt.value]);
  }

  // The life before an operation is already what its OPEN made it.
  lemma LifeBefore(h: Header, ops: seq<Op>, chunks: seq<seq<F.Byte>>, i: nat, x: int)
    requires CleanOps(h, ops) && W.Chunked(ops, chunks) && i < |ops| && EmptyWrite(ops[i], x)
    ensures var before, life := W.LifeOf(ops[..i], chunks[..i], x), W.LifeOf(ops, chunks, x);
            before.Life? && life.Life? && before.target == life.target && before.mode == life.mode
  {
    CleanOpsTake(h, ops, i);
    W.CleanIsInProgress(h, ops[..i], chunks[..i]);
    assert HandleOk(ops[..i], ops[i]);
    hide CleanOps, W.LifeOf, Live, OnStream;
    var opener := OpenerOfLife(ops[..i], chunks[..i], x);
    LifeFromOpener(h, ops[..i], chunks[..i], opener);
    LifeFromOpener(h, ops, chunks, opener);
  }

  lemma RightFromMatches(h: Header, ops: seq<Op>, chunks: seq<seq<F.Byte>>, b: Backend)
    requires CleanOps(h, ops) && W.Chunked(ops, chunks) && W.ObserveAll(ops, h.targets).Some?
    requires b.objSizes == W.ObserveAll(ops, h.targets).value.sizes && AllPutsMatch(b, ops)
    ensures PutsAnnouncedRight(ops, chunks, b.objSizes)
  {
    hide CleanOps, W.LifeOf, W.ObserveAll, AllPutsMatch, W.EquallyLong;
    forall t | t in b.objSizes ensures W.EquallyLong(ops, chunks, t) {
      forall x | W.ClosedWrite(W.LifeOf(ops, chunks, x), t)
        ensures W.StreamedTo(ops, chunks, x, t, b.objSizes[t])
      {
        AnnouncedMatches(h, ops, chunks, b, x);
      }
      W.AnnouncedRightExactlyWhen(h, ops, chunks, t);
    }
    forall x | Announced(W.LifeOf(ops, chunks, x), b.objSizes)
      ensures |W.LifeOf(ops, chunks, x).streamed| <= b.objSizes[W.LifeOf(ops, chunks, x).target]
    {
      AnnouncedMatches(h, ops, chunks, b, x);
    }
    forall i, x | 0 <= i < |ops| && EmptyWrite(ops[i], x)
      ensures var life := W.LifeOf(ops[..i], chunks[..i], x);
              Announced(life, b.objSizes) ==> |life.streamed| < b.objSizes[life.target]
    {
      LifeBefore(h, ops, chunks, i, x);
      if Announced(W.LifeOf(ops[..i], chunks[..i], x), b.objSizes) {
        AnnouncedMatches(h, ops, chunks, b, x);
      }
    }
  }

  lemma LifeIsRight(h: Header, ops: seq<Op>, chunks: seq<seq<F.Byte>>, sizes: map<int, int>, x: int)
    requires CleanOps(h, ops) && W.Chunked(ops, chunks) && W.ObserveAll(ops, h.targets).Some?
    requires sizes == W.ObserveAll(ops, h.targets).value.sizes && PutsAnnouncedRight(ops, chunks, sizes)
    requires Announced(W.LifeOf(ops, chunks, x), sizes)
    ensures LifeMatches(ops, chunks, x, sizes[W.LifeOf(ops, chunks, x).target])
  {
    hide CleanOps, W.LifeOf, W.ObserveAll, W.EquallyLong;
    var life := W.LifeOf(ops, chunks, x);
    if life.closed {
      W.AnnouncedRightExactlyWhen(h, ops, chunks, life.target);
      assert W.ClosedWrite(life, life.target);
    }
    forall i | 0 <= i < |ops| && EmptyWrite(ops[i], x)
      ensures StreamedBytes(W.LifeOf(ops[..i], chunks[..i], x)) < sizes[life.target]
    {
      LifeBefore(h, ops, chunks, i, x);
    }
  }

  lemma MatchesFromRight(h: Header, ops: seq<Op>, chunks: seq<seq<F.Byte>>, b: Backend)
    requires CleanOps(h, ops) && W.Chunked(ops, chunks) && W.ObserveAll(ops, h.targets).Some?
    requires b.objSizes == W.ObserveAll(ops, h.targets).value.sizes && PutsAnnouncedRight(ops, chunks, b.objSizes)
    ensures AllPutsMatch(b, ops)
  {
    hide CleanOps, W.LifeOf, W.ObserveAll, PutsAnnouncedRight, PutMatches, LifeMatches, OnStream;
    forall opener | opener in ops && Coalesces(b, opener) && opener.h.Some?
      ensures PutMatches(OnStream(ops, opener.s), opener.h.value, b.objSizes[opener.tgt.value])
    {
      LifeFromOpener(h, ops, chunks, opener);
      LifeIsRight(h, ops, chunks, b.objSizes, opener.h.value);
      MatchIsLife(h, ops, chunks, opener, b.objSizes[opener.tgt.value]);
    }
  }

  // An object engine replays an eligible trace without a failure exactly when every
  // handle serves what is done with it and every PUT gets what it was announced
  // with.
  lemma ObjectReplayExactlyWhen(h: Header, ops: seq<Op>, chunks: seq<seq<F.Byte>>)
    requires CleanTrace(h, ops) && W.Chunked(ops, chunks) && W.ObserveAll(ops, h.targets).Some?
    ensures var b := Preparation.BackendFor(h, ops, ObjectEngine);
            NothingFails(b, ops) <==> ObjectAccessOk(b.objSizes, ops) && PutsAnnouncedRight(ops, chunks, b.objSizes)
  {
    var b := Preparation.BackendFor(h, ops, ObjectEngine);
    Preparation.BackendIsValid(h, ops, ObjectEngine);
    ObjectAccessIsService(b.objSizes, ops);
    hide CleanOps, W.ObserveAll, NothingFails, AllServed, AllPutsMatch, PutsAnnouncedRight, ObjectAccessOk;
    ServedExactlyWhen(h, b, ops);
    if PutsAnnouncedRight(ops, chunks, b.objSizes) {
      MatchesFromRight(h, ops, chunks, b);
    }
    if AllPutsMatch(b, ops) {
      RightFromMatches(h, ops, chunks, b);
    }
  }
}
