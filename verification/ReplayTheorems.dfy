// When a replay has no failure at all, for either kind of engine
// (pkg/replay/scheduler.go:593-660, pkg/replay/objectwrite.go:101-135).
module ReplayTheorems {
  import opened Trace
  import opened TraceContract
  import opened Replay

  // ----- Handles and their OPENs -----

  ghost predicate OpenedBy(mine: seq<Op>, x: int, opener: Op) {
    opener in mine && opener.kind.OpOpen? && opener.h == Some(x)
  }

  lemma {:induction false} BindingIsOpeners(b: Backend, mine: seq<Op>, x: int, opener: Op)
    requires StreamHandlesOk(mine) && OpenedBy(mine, x, opener)
    ensures BindingOf(b, mine, x) == BindingAt(b, opener)
  {
    var n := |mine| - 1;
    var past, op := mine[..n], mine[n];
    assert mine == past + [op];
    StreamHandlesOkStep(past, op);
    if opener in past {
      BindingIsOpeners(b, past, x, opener);
    }
  }

  lemma OpenerExists(mine: seq<Op>, x: int)
    requires x in Opened(mine)
    ensures exists opener :: OpenedBy(mine, x, opener)
  {
    var op :| op in mine && op.kind.OpOpen? && op.h == Some(x);
    assert OpenedBy(mine, x, op);
  }

  lemma HandleIsOpened(h: Header, mine: seq<Op>, i: nat)
    requires StreamSound(h, mine) && i < |mine| && mine[i].kind.IsHandleOp()
    ensures mine[i].h.Some? && mine[i].h.value in Opened(mine[..i])
    ensures exists opener :: OpenedBy(mine, mine[i].h.value, opener)
  {
    assert LocalHandleOk(mine[..i], mine[i]);
    LiveAreOpened(mine[..i]);
    OpenerExists(mine, mine[i].h.value);
  }

  // ----- What an operation asks of its handle -----

  // Nothing an operation asks for goes beyond what its handle was opened for.
  predicate Serves(b: Backend, opener: Op, op: Op) {
    && (op.kind.OpRead? ==> !Coalesces(b, opener) && CanRead(b.engine, opener))
    && (op.kind.OpWrite? ==>
          Coalesces(b, opener) || CanWrite(b.engine, opener) || (b.engine.FileEngine? && op.len == Some(0)))
    && (op.kind.OpFsync? ==> Coalesces(b, opener) || b.engine.FileEngine?)
  }

  predicate Refuses(b: Backend, opener: Op) {
    !Coalesces(b, opener) && !EngineOpens(b.engine, opener.mode)
  }

  // What the PUT behind a handle makes of an operation on it.
  predicate PutAllows(announced: int, fed: int, op: Op) {
    && (op.kind.OpWrite? ==> PutTakes(announced, fed, op.len.GetOr(0)))
    && (op.kind.OpClose? ==> fed >= announced)
  }

  lemma FailsByOpener(h: Header, b: Backend, mine: seq<Op>, i: nat, opener: Op)
    requires StreamSound(h, mine) && i < |mine| && mine[i].h.Some? && OpenedBy(mine, mine[i].h.value, opener)
    ensures FailsAfter(b, mine[..i], mine[i]) <==>
              && (mine[i].kind.OpOpen? || mine[i].kind.IsHandleOp())
              && (|| Refuses(b, opener)
                  || !Serves(b, opener, mine[i])
                  || (Coalesces(b, opener)
                      && !PutAllows(b.objSizes[opener.tgt.value], Fed(mine[..i], mine[i].h.value), mine[i])))
  {
    var op, x := mine[i], mine[i].h.value;
    BindingIsOpeners(b, mine, x, opener);
    assert ShapeOk(h, opener);
    if op.kind.IsHandleOp() {
      HandleIsOpened(h, mine, i);
      BindingStable(b, mine, i, x);
    } else if op.kind.OpOpen? {
      BindingIsOpeners(b, mine, x, op);
    }
    hide BindingOf, Fed, Opened;
  }

  // ----- What is written through a handle -----

  lemma {:induction false} FedGrows(h: Header, mine: seq<Op>, i: nat, j: nat, x: int)
    requires (forall op :: op in mine ==> ShapeOk(h, op)) && i <= j <= |mine|
    ensures 0 <= Fed(mine[..i], x) <= Fed(mine[..j], x)
    decreases j
  {
    if j > 0 {
      assert mine[..j][..j-1] == mine[..j-1] && mine[..j][j-1] == mine[j-1];
      assert ShapeOk(h, mine[j-1]);
      FedGrows(h, mine, if i < j then i else j - 1, j - 1, x);
    }
  }

  // A closed handle stays closed, and nothing more is written through it.
  lemma {:induction false} NothingAfterClose(mine: seq<Op>, n: nat, x: int)
    requires n <= |mine| && StreamHandlesOk(mine) && x in Opened(mine[..n]) && x !in Live(mine[..n])
    ensures x !in Live(mine) && Fed(mine, x) == Fed(mine[..n], x)
  {
    if n == |mine| {
      assert mine[..n] == mine;
    } else {
      var k := |mine| - 1;
      assert mine == mine[..k] + [mine[k]] && mine[..k][..n] == mine[..n];
      StreamHandlesOkStep(mine[..k], mine[k]);
      NothingAfterClose(mine[..k], n, x);
      assert Opened(mine[..n]) <= Opened(mine[..k]);
    }
  }

  // The CLOSE of a handle that is not live any more.
  lemma {:induction false} ClosedSomewhere(mine: seq<Op>, x: int) returns (i: nat)
    requires x in Opened(mine) && x !in Live(mine)
    ensures i < |mine| && mine[i].kind.OpClose? && mine[i].h == Some(x)
  {
    var n := |mine| - 1;
    assert mine == mine[..n] + [mine[n]];
    OpenedSnoc(mine[..n], mine[n]);
    if mine[n].kind.OpClose? && mine[n].h == Some(x) {
      i := n;
    } else {
      i := ClosedSomewhere(mine[..n], x);
    }
  }

  // ----- A stream and the PUT it feeds -----

  predicate EmptyWrite(op: Op, x: int) {
    op.kind.OpWrite? && op.h == Some(x) && op.len == Some(0)
  }

  // The handle's writes are as long as announced if it is closed, no longer in any
  // case, and no empty one comes when all that was announced is there.
  ghost predicate PutMatches(mine: seq<Op>, x: int, announced: int) {
    && Fed(mine, x) <= announced
    && (x !in Live(mine) ==> Fed(mine, x) == announced)
    && (forall i :: 0 <= i < |mine| && EmptyWrite(mine[i], x) ==> Fed(mine[..i], x) < announced)
  }

  ghost predicate AllAllowed(mine: seq<Op>, x: int, announced: int) {
    forall i :: 0 <= i < |mine| && mine[i].h == Some(x) ==> PutAllows(announced, Fed(mine[..i], x), mine[i])
  }

  // At its CLOSE a handle has been fed all it ever will be.
  lemma FedAtClose(mine: seq<Op>, x: int, i: nat)
    requires StreamHandlesOk(mine) && i < |mine| && mine[i].kind.OpClose? && mine[i].h == Some(x)
    ensures x !in Live(mine) && Fed(mine, x) == Fed(mine[..i], x)
  {
    var op := mine[i];
    assert LocalHandleOk(mine[..i], op);
    assert mine[..i+1] == mine[..i] + [op];
    LiveAreOpened(mine[..i]);
    LiveSnoc(mine[..i], op, 0);
    OpenedSnoc(mine[..i], op);
    FedSnoc(mine[..i], op, x);
    hide StreamHandlesOk, Live, Opened, Fed;
    NothingAfterClose(mine, i + 1, x);
  }

  lemma AllowedWhenMatched(h: Header, mine: seq<Op>, x: int, announced: int, i: nat)
    requires StreamSound(h, mine) && i < |mine| && mine[i].h == Some(x) && PutMatches(mine, x, announced)
    ensures PutAllows(announced, Fed(mine[..i], x), mine[i])
  {
    hide StreamHandlesOk, Live, Fed;
    var op := mine[i];
    assert ShapeOk(h, op);
    assert mine[..i+1] == mine[..i] + [op] && mine[..|mine|] == mine;
    if op.kind.OpClose? {
      FedAtClose(mine, x, i);
    } else {
      FedSnoc(mine[..i], op, x);
      FedGrows(h, mine, i + 1, |mine|, x);
    }
  }

  lemma {:induction false} TakenSoFar(mine: seq<Op>, x: int, announced: int, n: nat)
    requires n <= |mine| && AllAllowed(mine, x, announced) && announced >= 0
    ensures Fed(mine[..n], x) <= announced
  {
    if n > 0 {
      TakenSoFar(mine, x, announced, n - 1);
      assert mine[..n][..n-1] == mine[..n-1] && mine[..n][n-1] == mine[n-1];
    }
  }

  lemma MatchedWhenAllowed(h: Header, mine: seq<Op>, x: int, announced: int)
    requires StreamSound(h, mine) && x in Opened(mine) && announced >= 0 && AllAllowed(mine, x, announced)
    ensures PutMatches(mine, x, announced)
  {
    TakenSoFar(mine, x, announced, |mine|);
    assert mine[..|mine|] == mine;
    if x !in Live(mine) {
      var i := ClosedSomewhere(mine, x);
      assert PutAllows(announced, Fed(mine[..i], x), mine[i]);
      FedGrows(h, mine, i, |mine|, x);
    }
  }

  // ----- Streams that replay without a failure -----

  // Every OPEN is one the engine accepts or a coalesced write, every handle serves
  // what is done with it, and every PUT gets what it was announced with.
  ghost predicate Replayable(b: Backend, mine: seq<Op>) {
    && (forall op :: op in mine && op.kind.OpOpen? ==> !Refuses(b, op))
    && (forall op, opener :: op in mine && op.h.Some? && OpenedBy(mine, op.h.value, opener) ==> Serves(b, opener, op))
    && (forall opener :: opener in mine && Coalesces(b, opener) && opener.h.Some? ==>
          PutMatches(mine, opener.h.value, b.objSizes[opener.tgt.value]))
  }

  lemma SucceedsByOpener(h: Header, b: Backend, mine: seq<Op>, i: nat)
    requires StreamSound(h, mine) && i < |mine| && Replayable(b, mine)
    ensures !FailsAfter(b, mine[..i], mine[i])
  {
    var op := mine[i];
    if op.kind.OpOpen? || op.kind.IsHandleOp() {
      assert ShapeOk(h, op);
      var opener :| OpenedBy(mine, op.h.value, opener) by {
        if op.kind.OpOpen? {
          assert OpenedBy(mine, op.h.value, op);
        } else {
          HandleIsOpened(h, mine, i);
        }
      }
      FailsByOpener(h, b, mine, i, opener);
      if Coalesces(b, opener) {
        AllowedWhenMatched(h, mine, op.h.value, b.objSizes[opener.tgt.value], i);
      }
      hide FailsAfter, PutMatches, PutAllows, Fed, StreamSound;
    }
  }

  lemma NeededByOpener(h: Header, b: Backend, mine: seq<Op>, i: nat, opener: Op)
    requires StreamSound(h, mine) && i < |mine| && mine[i].h.Some? && OpenedBy(mine, mine[i].h.value, opener)
    requires !FailsAfter(b, mine[..i], mine[i])
    ensures mine[i].kind.OpOpen? ==> !Refuses(b, opener)
    ensures Serves(b, opener, mine[i])
    ensures Coalesces(b, opener) ==>
              PutAllows(b.objSizes[opener.tgt.value], Fed(mine[..i], mine[i].h.value), mine[i])
  {
    FailsByOpener(h, b, mine, i, opener);
    hide FailsAfter, Fed;
  }

  lemma PutsMatch(h: Header, b: Backend, mine: seq<Op>, opener: Op)
    requires StreamSound(h, mine) && b.Valid() && Failures(b, mine) == {}
    requires opener in mine && Coalesces(b, opener) && opener.h.Some?
    ensures PutMatches(mine, opener.h.value, b.objSizes[opener.tgt.value])
  {
    hide FailsAfter, PutAllows, PutMatches, Fed, StreamSound;
    var x, t := opener.h.value, opener.tgt.value;
    var announced := b.objSizes[t];
    assert OpenedBy(mine, x, opener) && x in Opened(mine);
    forall i | 0 <= i < |mine| && mine[i].h == Some(x) ensures PutAllows(announced, Fed(mine[..i], x), mine[i]) {
      assert i !in Failures(b, mine);
      NeededByOpener(h, b, mine, i, opener);
    }
    MatchedWhenAllowed(h, mine, x, announced);
  }

  // A stream replays without a failure, on either kind of engine, exactly when it
  // opens only what the engine opens, does with each handle only what that OPEN
  // allows, and feeds each PUT what it was announced with.
  lemma ReplaySucceedsExactlyWhen(h: Header, b: Backend, mine: seq<Op>)
    requires StreamSound(h, mine) && b.Valid()
    ensures Failures(b, mine) == {} <==> Replayable(b, mine)
  {
    hide FailsAfter, StreamSound, Serves, Refuses, PutMatches;
    if Replayable(b, mine) {
      hide Replayable;
      forall i | 0 <= i < |mine| ensures !FailsAfter(b, mine[..i], mine[i]) {
        SucceedsByOpener(h, b, mine, i);
      }
    }
    if Failures(b, mine) == {} {
      forall op, opener | op in mine && op.h.Some? && OpenedBy(mine, op.h.value, opener)
        ensures Serves(b, opener, op) && (op.kind.OpOpen? ==> !Refuses(b, opener))
      {
        var i :| 0 <= i < |mine| && mine[i] == op;
        assert i !in Failures(b, mine);
        NeededByOpener(h, b, mine, i, opener);
      }
      forall op | op in mine && op.kind.OpOpen? ensures !Refuses(b, op) {
        OpensHandle(h, mine, op);
      }
      forall opener | opener in mine && Coalesces(b, opener) && opener.h.Some?
        ensures PutMatches(mine, opener.h.value, b.objSizes[opener.tgt.value])
      {
        PutsMatch(h, b, mine, opener);
      }
    }
  }

  lemma OpensHandle(h: Header, mine: seq<Op>, op: Op)
    requires StreamSound(h, mine) && op in mine && op.kind.OpOpen?
    ensures op.h.Some? && OpenedBy(mine, op.h.value, op)
  {
    assert ShapeOk(h, op);
  }
}
