// The contract of a trace read the other way round: field by field, handle by
// handle, and count by count (pkg/trace/types.go, pkg/trace/validate.go).
module TraceMeaning {
  import opened Arithmetic
  import opened Trace
  import opened TraceContract

  // ----- Fields -----

  // Which kinds carry which field, whatever the kind's own rules say.
  predicate CarriesTarget(kind: OpKind) {
    kind in {OpOpen, OpStat, OpGet, OpPut, OpHead, OpDelete}
  }

  predicate CarriesHandle(kind: OpKind) {
    kind in {OpOpen, OpRead, OpWrite, OpFsync, OpClose}
  }

  predicate CarriesOffset(kind: OpKind) {
    kind in {OpRead, OpWrite, OpGet}
  }

  predicate CarriesLength(kind: OpKind) {
    kind in {OpRead, OpWrite, OpGet, OpPut}
  }

  predicate TargetFieldOk(h: Header, op: Op) {
    if op.tgt.Some? then CarriesTarget(op.kind) && 0 <= op.tgt.value < |h.targets| else !CarriesTarget(op.kind)
  }

  predicate HandleFieldOk(op: Op) {
    op.h.Some? <==> CarriesHandle(op.kind)
  }

  predicate OffsetFieldOk(op: Op) {
    if op.off.Some? then CarriesOffset(op.kind) && op.off.value >= 0 else !CarriesOffset(op.kind)
  }

  predicate LengthFieldOk(op: Op) {
    if op.len.Some? then CarriesLength(op.kind) && op.len.value >= 0 else !CarriesLength(op.kind)
  }

  predicate ModeFieldOk(op: Op) {
    if op.kind.OpOpen? then op.mode in {ModeRead, ModeWrite, ModeReadWrite} else op.mode == NoMode
  }

  predicate FlagsFieldOk(op: Op) {
    op.flags != [] ==> op.kind.OpOpen?
  }

  // A partial result is no more than what was asked for, and version 1 has none.
  predicate RetFieldOk(h: Header, op: Op) {
    op.ret.Some? ==>
      && op.kind in {OpRead, OpGet} && 0 <= op.ret.value
      && (op.len.Some? ==> op.ret.value <= op.len.value)
      && h.version != 1
  }

  predicate DurFieldOk(op: Op) {
    op.dur.Some? ==> 0 <= op.dur.value
  }

  // The rules of a kind, put together, are these rules of the fields.
  lemma ShapeByField(h: Header, op: Op)
    requires 1 <= h.version
    ensures ShapeOk(h, op) <==>
              && !op.kind.OtherOp?
              && TargetFieldOk(h, op) && HandleFieldOk(op) && OffsetFieldOk(op) && LengthFieldOk(op)
              && ModeFieldOk(op) && FlagsFieldOk(op) && RetFieldOk(h, op) && DurFieldOk(op)
  {
  }

  // What each kind of trace may say of how it was captured.
  predicate MethodFits(kind: TraceKind, m: CaptureMethod) {
    match kind
    case Captured => m in {PythonHooks, EbpfSyscall, MmapAware}
    case Imported => m.Import? && m.source != ""
    case Synthetic => m in {NoMethod, SyntheticMethod}
    case _ => false
  }

  lemma HeaderByField(h: Header)
    ensures HeaderOk(h) <==>
              && h.version in {1, 2, 3} && h.timeUnit == "ns"
              && MethodFits(h.kind, h.captureMethod)
              && (h.captureLimitations == "" ==> h.kind == Synthetic)
              && (forall i :: 0 <= i < |h.targets| ==>
                    && h.targets[i].id == i && h.targets[i].name != "" && h.targets[i].size >= 0
                    && h.targets[i].kind in {TargetFile, TargetObject})
              && h.summary.numOps >= 0 && h.summary.numStreams >= 0 && h.summary.numGroups >= 0
              && h.summary.totalBytes >= 0 && h.summary.durationNS >= 0
  {
  }

  // ----- Operation ids -----

  // An operation without a group belongs to group 0 of its stream.
  predicate InGroup(op: Op, s: int, g: int) {
    op.s == s && (op.group == Some(g) || (op.group.None? && g == 0))
  }

  ghost predicate GroupAscends(ops: seq<Op>, s: int, g: int) {
    forall i, j :: 0 <= i < j < |ops| && InGroup(ops[i], s, g) && InGroup(ops[j], s, g) ==>
      ops[i].opId.GetOr(-1) < ops[j].opId.GetOr(-1)
  }

  // The rule for ids, group by group.
  lemma IdsByGroup(ops: seq<Op>)
    ensures IdsOk(ops) <==>
              && (forall op :: op in ops ==> op.opId.GetOr(-1) >= 0)
              && (forall i, j :: 0 <= i < j < |ops| ==> ops[i].opId != ops[j].opId)
              && (forall s, g :: GroupAscends(ops, s, g))
  {
    if forall s, g :: GroupAscends(ops, s, g) {
      forall i, j | 0 <= i < j < |ops| && SameGroup(ops[i], ops[j])
        ensures ops[i].opId.GetOr(-1) < ops[j].opId.GetOr(-1)
      {
        var s, g := ops[i].s, ops[i].GroupId();
        assert GroupAscends(ops, s, g) && InGroup(ops[i], s, g) && InGroup(ops[j], s, g);
      }
    }
  }

  // ----- Handles -----

  predicate OpensAt(ops: seq<Op>, i: int, x: int) {
    0 <= i < |ops| && ops[i].kind.OpOpen? && ops[i].h == Some(x)
  }

  predicate ClosesAt(ops: seq<Op>, i: int, x: int) {
    0 <= i < |ops| && ops[i].kind.OpClose? && ops[i].h == Some(x)
  }

  // Opened at j and not closed since.
  ghost predicate OpenSince(ops: seq<Op>, j: int, x: int) {
    OpensAt(ops, j, x) && forall k :: j < k ==> !ClosesAt(ops, k, x)
  }

  lemma {:induction false} LiveMeansOpenSince(ops: seq<Op>, x: int)
    ensures x in Live(ops) <==> exists j :: OpenSince(ops, j, x)
  {
    if ops != [] {
      var n := |ops| - 1;
      var past, op := ops[..n], ops[n];
      LiveMeansOpenSince(past, x);
      assert forall j :: j < n ==> (OpensAt(ops, j, x) <==> OpensAt(past, j, x));
      assert forall j :: j < n ==> (ClosesAt(ops, j, x) <==> ClosesAt(past, j, x));
      assert OpensAt(ops, n, x) <==> op.kind.OpOpen? && op.h == Some(x);
      assert ClosesAt(ops, n, x) <==> op.kind.OpClose? && op.h == Some(x);
      if x in Live(ops) {
        if OpensAt(ops, n, x) {
          assert OpenSince(ops, n, x);
        } else {
          var j :| OpenSince(past, j, x);
          assert OpenSince(ops, j, x);
        }
      }
      if j :| OpenSince(ops, j, x) {
        assert j < n ==> !ClosesAt(ops, n, x) && OpenSince(past, j, x);
      }
    }
  }

  // No two OPENs of a stream name one handle; every other use of a handle comes
  // after the stream's OPEN of it and before its CLOSE.
  ghost predicate HandlesUsedOpen(mine: seq<Op>) {
    && (forall i, j, x :: OpensAt(mine, i, x) && OpensAt(mine, j, x) ==> i == j)
    && (forall i :: 0 <= i < |mine| && CarriesHandle(mine[i].kind) ==> mine[i].h.Some? && UsedOpen(mine, i))
  }

  ghost predicate UsedOpen(mine: seq<Op>, i: int)
    requires 0 <= i < |mine| && mine[i].h.Some?
  {
    mine[i].kind.OpOpen? || exists j :: j < i && OpenUntil(mine, j, i, mine[i].h.value)
  }

  ghost predicate OpenUntil(mine: seq<Op>, j: int, i: int, x: int) {
    OpensAt(mine, j, x) && forall k :: j < k < i ==> !ClosesAt(mine, k, x)
  }

  lemma OpenedMeans(mine: seq<Op>, n: nat, x: int)
    requires n <= |mine|
    ensures x in Opened(mine[..n]) <==> exists j :: j < n && OpensAt(mine, j, x)
  {
    if x in Opened(mine[..n]) {
      var op :| op in mine[..n] && op.kind.OpOpen? && op.h == Some(x);
      var j :| 0 <= j < n && mine[j] == op;
      assert OpensAt(mine, j, x);
    }
    if j :| j < n && OpensAt(mine, j, x) {
      assert mine[j] in mine[..n];
    }
  }

  lemma LiveMeans(mine: seq<Op>, n: nat, x: int)
    requires n <= |mine|
    ensures x in Live(mine[..n]) <==> exists j :: j < n && OpenUntil(mine, j, n, x)
  {
    var past := mine[..n];
    LiveMeansOpenSince(past, x);
    assert forall j :: j < n ==> (OpensAt(mine, j, x) <==> OpensAt(past, j, x));
    assert forall j :: j < n ==> (ClosesAt(mine, j, x) <==> ClosesAt(past, j, x));
    if j :| OpenSince(past, j, x) {
      assert OpenUntil(mine, j, n, x);
    }
    if j :| j < n && OpenUntil(mine, j, n, x) {
      assert OpenSince(past, j, x);
    }
  }

  lemma LocalHandleMeans(mine: seq<Op>, i: nat)
    requires i < |mine|
    ensures LocalHandleOk(mine[..i], mine[i]) <==>
              (CarriesHandle(mine[i].kind) ==>
                 && mine[i].h.Some? && UsedOpen(mine, i)
                 && (mine[i].kind.OpOpen? ==> forall j :: j < i ==> !OpensAt(mine, j, mine[i].h.value)))
  {
    if mine[i].h.Some? {
      OpenedMeans(mine, i, mine[i].h.value);
      LiveMeans(mine, i, mine[i].h.value);
    }
    hide Live, Opened, OpensAt, OpenUntil;
  }

  lemma HandlesByUse(mine: seq<Op>)
    ensures StreamHandlesOk(mine) <==> HandlesUsedOpen(mine)
  {
    forall i | 0 <= i < |mine|
      ensures LocalHandleOk(mine[..i], mine[i]) <==>
                (CarriesHandle(mine[i].kind) ==>
                   && mine[i].h.Some? && UsedOpen(mine, i)
                   && (mine[i].kind.OpOpen? ==> forall j :: j < i ==> !OpensAt(mine, j, mine[i].h.value)))
    {
      LocalHandleMeans(mine, i);
    }
    hide LocalHandleOk, UsedOpen;
    if StreamHandlesOk(mine) {
      forall i, j, x | OpensAt(mine, i, x) && OpensAt(mine, j, x) ensures i == j {
        assert LocalHandleOk(mine[..i], mine[i]) && LocalHandleOk(mine[..j], mine[j]);
      }
    }
    if HandlesUsedOpen(mine) {
      forall i | 0 <= i < |mine| ensures LocalHandleOk(mine[..i], mine[i]) {
        if mine[i].kind.OpOpen? {
          assert CarriesHandle(mine[i].kind) && OpensAt(mine, i, mine[i].h.value);
        }
      }
    }
  }

  ghost predicate EveryStreamUsesOpen(ops: seq<Op>) {
    forall s :: HandlesUsedOpen(OnStream(ops, s))
  }

  // The handles of a trace are sound exactly when each stream uses its own while
  // they are open, and no two streams open the same one.
  lemma HandlesByStream(ops: seq<Op>)
    ensures HandlesOk(ops) <==> EveryStreamUsesOpen(ops) && OpenedApart(ops)
  {
    hide HandlesUsedOpen, StreamHandlesOk;
    if HandlesOk(ops) {
      forall s ensures HandlesUsedOpen(OnStream(ops, s)) {
        HandlesOkOnStream(ops, s);
        HandlesByUse(OnStream(ops, s));
      }
      SoundStreamsOpenApart(ops);
    }
    if EveryStreamUsesOpen(ops) && OpenedApart(ops) {
      forall s ensures StreamHandlesOk(OnStream(ops, s)) {
        HandlesByUse(OnStream(ops, s));
      }
      HandlesOkFromStreams(ops);
    }
  }

  lemma {:induction false} SoundStreamsOpenApart(ops: seq<Op>)
    requires HandlesOk(ops)
    ensures OpenedApart(ops)
  {
    forall s, s' | s != s' ensures Opened(OnStream(ops, s)) !! Opened(OnStream(ops, s')) {
      OnStreamOps(ops, s);
      OnStreamOps(ops, s');
      forall x | x in Opened(OnStream(ops, s)) ensures x !in Opened(OnStream(ops, s')) {
        if x in Opened(OnStream(ops, s')) {
          var a :| a in OnStream(ops, s) && a.kind.OpOpen? && a.h == Some(x);
          var b :| b in OnStream(ops, s') && b.kind.OpOpen? && b.h == Some(x);
          OpensOnce(ops, a, b);
        }
      }
    }
  }

  // ----- Counts -----

  // What an operation moved: what it got if that was recorded, otherwise all it
  // asked for, and nothing if it carries no length.
  function Carried(op: Op): int {
    if op.ret.Some? then op.ret.value else if op.len.Some? then op.len.value else 0
  }

  function AllCarried(ops: seq<Op>): (r: seq<int>)
    ensures |r| == |ops| && forall i :: 0 <= i < |ops| ==> r[i] == Carried(ops[i])
  {
    seq(|ops|, i requires 0 <= i < |ops| => Carried(ops[i]))
  }

  lemma CarriedIsMoved(h: Header, op: Op)
    requires ShapeOk(h, op)
    ensures Carried(op) == if op.kind.CountsBytes() then op.Moved() else 0
    ensures 0 <= Carried(op) <= op.len.GetOr(0)
  {
  }

  // The bytes of a trace are what its operations carried, and a partial result
  // never exceeds the request.
  lemma {:induction false} BytesAreCarried(h: Header, ops: seq<Op>)
    requires forall op :: op in ops ==> ShapeOk(h, op)
    ensures TotalBytes(ops) == Sum(AllCarried(ops))
    ensures forall op :: op in ops ==> 0 <= Carried(op) <= op.len.GetOr(0)
  {
    if ops != [] {
      var past, op := ops[..|ops|-1], ops[|ops|-1];
      BytesAreCarried(h, past);
      assert ops == past + [op];
      assert AllCarried(ops)[..|past|] == AllCarried(past);
      CarriedIsMoved(h, op);
      hide ShapeOk, Carried;
    }
  }

  function Partials(ops: seq<Op>): set<int> {
    set i | 0 <= i < |ops| && ops[i].ret.Some?
  }

  lemma {:induction false} PartialsAreCounted(ops: seq<Op>)
    ensures NumPartial(ops) == |Partials(ops)|
  {
    if ops != [] {
      var n := |ops| - 1;
      PartialsAreCounted(ops[..n]);
      assert Partials(ops) == Partials(ops[..n]) + if ops[n].ret.Some? then {n} else {};
    }
  }

  // A version no smaller than needed, and no larger.
  lemma {:induction false} VersionIsNeeded(ops: seq<Op>)
    ensures MinVersionForOps(ops) == if Partials(ops) == {} then 1 else 2
  {
    if ops != [] {
      var n := |ops| - 1;
      VersionIsNeeded(ops[..n]);
      assert Partials(ops) == Partials(ops[..n]) + if ops[n].ret.Some? then {n} else {};
    }
  }
}
