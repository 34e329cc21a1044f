// The trace intermediate representation: the decoded header and operation
// records that every producer writes and every consumer reads
// (pkg/trace/types.go). The JSON layer is not modelled.
module Trace {

  datatype Option<+T> = None | Some(value: T) {
    function GetOr(default: T): T {
      match this
      case Some(v) => v
      case None => default
    }
  }

  const TRACE_FORMAT_VERSION := 1
  const VERSION_PARTIAL_TRANSFER := 2
  const VERSION_TRANSFORMED := 3
  const TRACE_FORMAT_VERSION_MAX := 3
  const TIME_UNIT_NANOSECONDS := "ns"

  // A kind, mode, or method read from a file may be any string; the last
  // constructor of each type stands for the strings the format does not define.
  datatype TraceKind = NoKind | Captured | Imported | Synthetic | OtherKind(name: string)

  datatype CaptureMethod =
    | NoMethod
    | PythonHooks
    | EbpfSyscall
    | MmapAware
    | SyntheticMethod
    | Import(source: string)
    | OtherMethod(name: string)
  {
    predicate IsImport() {
      Import? && source != ""
    }

    predicate Valid() {
      PythonHooks? || EbpfSyscall? || MmapAware? || SyntheticMethod? || IsImport()
    }
  }

  datatype Mode = NoMode | ModeRead | ModeWrite | ModeReadWrite | OtherMode(name: string) {
    predicate Valid() {
      ModeRead? || ModeWrite? || ModeReadWrite?
    }
  }

  datatype OpKind =
    | OpOpen | OpClose | OpRead | OpWrite | OpStat | OpFsync
    | OpPut | OpGet | OpHead | OpDelete
    | OtherOp(name: string)
  {
    predicate Valid() {
      !OtherOp?
    }

    // READ, WRITE, FSYNC and CLOSE act on an open handle.
    predicate IsHandleOp() {
      OpRead? || OpWrite? || OpFsync? || OpClose?
    }

    // Kinds whose payload counts towards total_bytes.
    predicate CountsBytes() {
      OpRead? || OpWrite? || OpGet? || OpPut?
    }
  }

  datatype TargetKind = NoTargetKind | TargetFile | TargetObject | OtherTargetKind(name: string) {
    predicate Valid() {
      TargetFile? || TargetObject?
    }
  }

  datatype TargetInfo = TargetInfo(id: int, name: string, kind: TargetKind, size: int)

  datatype Summary = Summary(
    numOps: int, numStreams: int, numGroups: int,
    totalBytes: int, durationNS: int, numPartialReads: int)

  datatype Transformation = SplitReadsDone(block: int, sourceDigest: string) | OtherTransformation(kind: string)

  datatype Header = Header(
    version: int, kind: TraceKind, timeUnit: string,
    captureMethod: CaptureMethod, captureLimitations: string,
    targets: seq<TargetInfo>, summary: Summary,
    transformations: seq<Transformation>)

  // One operation record. A None field is one the record does not carry.
  datatype Op = Op(
    t: int, opId: Option<int>, s: int, kind: OpKind, group: Option<int>,
    tgt: Option<int>, h: Option<int>, mode: Mode, flags: seq<string>,
    off: Option<int>, len: Option<int>, ret: Option<int>, dur: Option<int>)
  {
    predicate IsPartialTransfer() {
      ret.Some?
    }

    // What the source moved: ret when the transfer was partial, otherwise len.
    function TransferredBytes(): Option<int> {
      if ret.Some? then ret else len
    }

    function Moved(): int {
      TransferredBytes().GetOr(0)
    }

    function MinVersion(): int {
      if ret.Some? then VERSION_PARTIAL_TRANSFER else TRACE_FORMAT_VERSION
    }

    // The implicit default group is 0.
    function GroupId(): int {
      group.GetOr(0)
    }
  }

  predicate IsRead(op: Op) {
    op.kind.OpRead? || op.kind.OpGet?
  }

  // The record with every optional field absent; producers fill in the rest.
  function BareOp(t: int, s: int, kind: OpKind): Op {
    Op(t, None, s, kind, None, None, None, NoMode, [], None, None, None, None)
  }

  // The operations of one stream, in trace order.
  function OnStream(ops: seq<Op>, s: int): (r: seq<Op>)
    ensures |r| <= |ops|
  {
    if ops == [] then []
    else
      var rest := OnStream(ops[..|ops|-1], s);
      var last := ops[|ops|-1];
      if last.s == s then rest + [last] else rest
  }

  function StreamIds(ops: seq<Op>): set<int> {
    set op <- ops :: op.s
  }

  // Bytes moved by the operations that count towards total_bytes.
  function TotalBytes(ops: seq<Op>): int {
    if ops == [] then 0
    else
      var last := ops[|ops|-1];
      TotalBytes(ops[..|ops|-1]) + if last.kind.CountsBytes() then last.Moved() else 0
  }

  function NumPartial(ops: seq<Op>): int {
    if ops == [] then 0
    else NumPartial(ops[..|ops|-1]) + if ops[|ops|-1].IsPartialTransfer() then 1 else 0
  }

  function MinVersionForOps(ops: seq<Op>): int {
    if ops == [] then TRACE_FORMAT_VERSION
    else
      var rest := MinVersionForOps(ops[..|ops|-1]);
      var v := ops[|ops|-1].MinVersion();
      if v > rest then v else rest
  }

  // Numbering by file position, as every producer in the repository does it.
  function Renumber(ops: seq<Op>): (r: seq<Op>)
    ensures |r| == |ops|
    ensures forall i :: 0 <= i < |ops| ==> r[i] == ops[i].(opId := Some(i))
  {
    seq(|ops|, i requires 0 <= i < |ops| => ops[i].(opId := Some(i)))
  }

  // Each fold above, extended by one operation.
  lemma OnStreamSnoc(past: seq<Op>, op: Op, s: int)
    ensures OnStream(past + [op], s) == OnStream(past, s) + if op.s == s then [op] else []
  {
    assert (past + [op])[..|past|] == past;
  }

  lemma SumsSnoc(past: seq<Op>, op: Op)
    ensures TotalBytes(past + [op]) == TotalBytes(past) + if op.kind.CountsBytes() then op.Moved() else 0
    ensures NumPartial(past + [op]) == NumPartial(past) + if op.IsPartialTransfer() then 1 else 0
  {
    assert (past + [op])[..|past|] == past;
  }

  lemma RenumberSnoc(past: seq<Op>, op: Op)
    ensures Renumber(past + [op]) == Renumber(past) + [op.(opId := Some(|past|))]
  {
  }

  lemma {:induction false} OnStreamAppend(a: seq<Op>, b: seq<Op>, s: int)
    ensures OnStream(a + b, s) == OnStream(a, s) + OnStream(b, s)
  {
    if b == [] {
      assert a + b == a;
    } else {
      var init := b[..|b|-1];
      assert (a + b)[..|a + b|-1] == a + init;
      OnStreamAppend(a, init, s);
    }
  }

  // Where an operation of a trace stands in its stream, and where one of a stream
  // stands in the trace.
  lemma OnStreamAt(ops: seq<Op>, i: nat)
    requires i < |ops|
    ensures var s := ops[i].s; var mine, k := OnStream(ops, s), |OnStream(ops[..i], s)|;
            k < |mine| && mine[..k] == OnStream(ops[..i], s) && mine[k] == ops[i]
  {
    var s := ops[i].s;
    assert ops == ops[..i] + [ops[i]] + ops[i+1..];
    OnStreamAppend(ops[..i] + [ops[i]], ops[i+1..], s);
    OnStreamSnoc(ops[..i], ops[i], s);
  }

  lemma {:induction false} OnStreamFrom(ops: seq<Op>, s: int, k: nat) returns (i: nat)
    requires k < |OnStream(ops, s)|
    ensures i < |ops| && ops[i].s == s && ops[i] == OnStream(ops, s)[k]
    ensures OnStream(ops[..i], s) == OnStream(ops, s)[..k]
  {
    var n := |ops| - 1;
    var front := ops[..n];
    if k < |OnStream(front, s)| {
      i := OnStreamFrom(front, s, k);
      assert front[..i] == ops[..i];
      assert OnStream(ops, s)[..k] == OnStream(front, s)[..k];
    } else {
      i := n;
      assert OnStream(ops, s)[..k] == OnStream(front, s);
    }
  }

  lemma {:induction false} OnStreamOps(ops: seq<Op>, s: int)
    ensures forall op :: op in OnStream(ops, s) <==> op in ops && op.s == s
  {
    if ops != [] {
      OnStreamOps(ops[..|ops|-1], s);
      assert ops == ops[..|ops|-1] + [ops[|ops|-1]];
    }
  }

  lemma {:induction false} TotalBytesAppend(a: seq<Op>, b: seq<Op>)
    ensures TotalBytes(a + b) == TotalBytes(a) + TotalBytes(b)
  {
    if b == [] {
      assert a + b == a;
    } else {
      assert (a + b)[..|a + b|-1] == a + b[..|b|-1];
      TotalBytesAppend(a, b[..|b|-1]);
    }
  }

  lemma {:induction false} MinVersionForOpsCovers(ops: seq<Op>)
    ensures TRACE_FORMAT_VERSION <= MinVersionForOps(ops) <= VERSION_PARTIAL_TRANSFER
    ensures forall op :: op in ops ==> op.MinVersion() <= MinVersionForOps(ops)
  {
    if ops != [] {
      MinVersionForOpsCovers(ops[..|ops|-1]);
      assert ops == ops[..|ops|-1] + [ops[|ops|-1]];
    }
  }
}
