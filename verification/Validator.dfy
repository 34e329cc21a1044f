// The validator (pkg/trace/validate.go): one pass over a trace that reports
// every violation, proved to report none exactly on the well-formed traces.
module Validator {
  import opened Trace
  import opened TraceContract

  // The fields of a header and of an operation that a finding may name.
  datatype Field =
    | InVersion | InKind | InTimeUnit | InCaptureMethod | InCaptureLimitations
    | InTargets | InTargetName | InTargetKind | InTargetSize
    | InNumOps | InNumStreams | InNumGroups | InTotalBytes | InDuration | InNumPartialReads
    | InTime | InOpId | InOp | InMode | InFlags | InTarget | InHandle | InOff | InLen | InRet | InDur

  // A finding. Line 1 is the header; the message text is not modelled.
  datatype Issue = Issue(line: nat, field: Field)

  datatype HandleState = HandleState(stream: int, target: int, openLine: nat, closed: bool)

  datatype Report = Report(
    errors: seq<Issue>, numOpsRead: int, numPartialReads: int,
    streams: map<int, int>, neverClosed: set<int>)
  {
    predicate OK() {
      errors == []
    }
  }

  function IssueIf(bad: bool, line: nat, field: Field): (r: seq<Issue>)
    ensures |r| == if bad then 1 else 0
  {
    if bad then [Issue(line, field)] else []
  }

  // ----- The header -----

  function TargetIssues(targets: seq<TargetInfo>): (r: seq<Issue>)
    ensures r == [] <==> forall i :: 0 <= i < |targets| ==> TargetOk(targets[i], i)
  {
    if targets == [] then []
    else
      var i := |targets| - 1;
      var target := targets[i];
      TargetIssues(targets[..i])
      + IssueIf(target.id != i, 1, InTargets)
      + IssueIf(target.name == "", 1, InTargetName)
      + IssueIf(!target.kind.Valid(), 1, InTargetKind)
      + IssueIf(target.size < 0, 1, InTargetSize)
  }

  // How the trace says it was captured.
  function CaptureIssues(h: Header): (r: seq<Issue>)
    ensures r == [] <==> CaptureOk(h)
  {
    var method_ := h.captureMethod;
    IssueIf(method_ != NoMethod && !method_.Valid(), 1, InCaptureMethod)
    + (if h.kind == Captured || h.kind == Imported then
         IssueIf(method_ == NoMethod, 1, InCaptureMethod)
         + IssueIf(h.captureLimitations == "", 1, InCaptureLimitations)
       else [])
    + IssueIf(h.kind == Captured && (method_ == SyntheticMethod || method_.IsImport()), 1, InCaptureMethod)
    + IssueIf(h.kind == Imported && method_ != NoMethod && !method_.IsImport(), 1, InCaptureMethod)
    + IssueIf(h.kind == Synthetic && method_ != NoMethod && method_ != SyntheticMethod, 1, InCaptureMethod)
  }

  function SignIssues(s: Summary): (r: seq<Issue>)
    ensures r == [] <==> SummaryOk(s)
  {
    IssueIf(s.numOps < 0, 1, InNumOps)
    + IssueIf(s.numStreams < 0, 1, InNumStreams)
    + IssueIf(s.numGroups < 0, 1, InNumGroups)
    + IssueIf(s.totalBytes < 0, 1, InTotalBytes)
    + IssueIf(s.durationNS < 0, 1, InDuration)
  }

  function HeaderIssues(h: Header): (r: seq<Issue>)
    ensures r == [] <==> HeaderOk(h)
  {
    IssueIf(h.version == 0 || h.version < TRACE_FORMAT_VERSION || h.version > TRACE_FORMAT_VERSION_MAX, 1, InVersion)
    + IssueIf(h.kind.NoKind? || h.kind.OtherKind?, 1, InKind)
    + IssueIf(h.timeUnit != TIME_UNIT_NANOSECONDS, 1, InTimeUnit)
    + CaptureIssues(h)
    + TargetIssues(h.targets)
    + SignIssues(h.summary)
  }

  function SummaryIssues(s: Summary, numOps: int, numStreams: int, numPartial: int): seq<Issue> {
    IssueIf(s.numOps != numOps, 1, InNumOps)
    + IssueIf(s.numStreams != numStreams, 1, InNumStreams)
    + IssueIf(s.numPartialReads != numPartial, 1, InNumPartialReads)
  }

  // ----- Operation ids -----

  function GroupKey(op: Op): (int, int) {
    (op.s, op.GroupId())
  }

  function OpIdIssues(line: nat, op: Op, seen: map<int, nat>, lastByGroup: map<(int, int), int>): (r: seq<Issue>)
    ensures r == [] || r[0].line == line
    ensures r == [] <==>
              && NonNegative(op.opId)
              && op.opId.value !in seen
              && (GroupKey(op) in lastByGroup ==> op.opId.value > lastByGroup[GroupKey(op)])
  {
    if op.opId.None? then [Issue(line, InOpId)]
    else
      var id := op.opId.value;
      var key := GroupKey(op);
      IssueIf(id < 0, line, InOpId)
      + IssueIf(id in seen, line, InOpId)
      + IssueIf(key in lastByGroup && id <= lastByGroup[key], line, InOpId)
  }

  // What the two id tables hold once the operations in past have passed: seen
  // is the set of ids, lastByGroup maps each group to its greatest, latest id.
  ghost predicate IdTables(past: seq<Op>, seen: map<int, nat>, lastByGroup: map<(int, int), int>) {
    SeenIds(past, seen) && AtMostLast(past, lastByGroup) && LastsOccur(past, lastByGroup)
  }

  ghost predicate SeenIds(past: seq<Op>, seen: map<int, nat>) {
    && (forall id :: id in seen ==> exists k :: 0 <= k < |past| && past[k].opId == Some(id))
    && (forall k :: 0 <= k < |past| && past[k].opId.Some? ==> past[k].opId.value in seen)
  }

  ghost predicate AtMostLast(past: seq<Op>, lastByGroup: map<(int, int), int>) {
    forall k :: 0 <= k < |past| ==> BelowLast(past[k], lastByGroup)
  }

  ghost predicate LastsOccur(past: seq<Op>, lastByGroup: map<(int, int), int>) {
    forall key :: key in lastByGroup ==> exists k :: 0 <= k < |past| && IsLast(past[k], key, lastByGroup[key])
  }

  predicate BelowLast(op: Op, lastByGroup: map<(int, int), int>) {
    op.opId.Some? && GroupKey(op) in lastByGroup && op.opId.value <= lastByGroup[GroupKey(op)]
  }

  predicate IsLast(op: Op, key: (int, int), id: int) {
    GroupKey(op) == key && op.opId == Some(id)
  }

  // op is a legal next id exactly when the tables raise no issue against it.
  lemma IdIssuesMeaning(line: nat, past: seq<Op>, op: Op, seen: map<int, nat>, lastByGroup: map<(int, int), int>)
    requires IdTables(past, seen, lastByGroup)
    ensures OpIdIssues(line, op, seen, lastByGroup) == [] <==> NextIdOk(past, op)
  {
    if op.opId.Some? {
      var id, key := op.opId.value, GroupKey(op);
      if id in seen {
        var k :| 0 <= k < |past| && past[k].opId == Some(id);
        assert !NextIdOk(past, op);
      } else if key in lastByGroup && id <= lastByGroup[key] {
        var k :| 0 <= k < |past| && IsLast(past[k], key, lastByGroup[key]);
        assert SameGroup(past[k], op);
        assert !NextIdOk(past, op);
      } else if id >= 0 {
        NoIdIssue(past, op, seen, lastByGroup);
      }
    }
  }

  lemma NoIdIssue(past: seq<Op>, op: Op, seen: map<int, nat>, lastByGroup: map<(int, int), int>)
    requires SeenIds(past, seen) && AtMostLast(past, lastByGroup)
    requires NonNegative(op.opId) && op.opId.value !in seen
    requires GroupKey(op) in lastByGroup ==> op.opId.value > lastByGroup[GroupKey(op)]
    ensures NextIdOk(past, op)
  {
    forall k | 0 <= k < |past|
      ensures past[k].opId != op.opId
      ensures SameGroup(past[k], op) && past[k].opId.Some? ==> past[k].opId.value < op.opId.value
    {
      assert BelowLast(past[k], lastByGroup);
      if SameGroup(past[k], op) {
        assert GroupKey(past[k]) == GroupKey(op);
      }
    }
  }

  ghost predicate NextIdOk(past: seq<Op>, op: Op) {
    && NonNegative(op.opId)
    && (forall k :: 0 <= k < |past| ==>
          && past[k].opId != op.opId
          && (SameGroup(past[k], op) && past[k].opId.Some? ==> past[k].opId.value < op.opId.value))
  }

  lemma IdsOkStep(past: seq<Op>, op: Op)
    ensures IdsOk(past + [op]) <==> IdsOk(past) && NextIdOk(past, op)
  {
    var all := past + [op];
    var n := |past|;
    assert all[n] == op;
    assert forall k :: 0 <= k < n ==> all[k] == past[k];
    if IdsOk(all) {
      assert NonNegative(all[n].opId);
      assert forall k :: 0 <= k < n ==> NonNegative(past[k].opId) by {
        assert forall k :: 0 <= k < n ==> NonNegative(all[k].opId);
      }
    }
  }

  lemma IdTablesStep(line: nat, past: seq<Op>, op: Op, seen: map<int, nat>, lastByGroup: map<(int, int), int>)
    requires IdTables(past, seen, lastByGroup) && NextIdOk(past, op)
    ensures IdTables(past + [op], seen[op.opId.value := line], lastByGroup[GroupKey(op) := op.opId.value])
  {
    hide NextIdOk, SeenIds, AtMostLast, LastsOccur;
    NextIdIsGreater(past, op);
    SeenIdsStep(line, past, op, seen);
    AtMostLastStep(past, op, lastByGroup);
    LastsOccurStep(past, op, lastByGroup);
  }

  lemma NextIdIsGreater(past: seq<Op>, op: Op)
    requires NextIdOk(past, op)
    ensures op.opId.Some?
    ensures forall k :: 0 <= k < |past| && past[k].opId.Some? && GroupKey(past[k]) == GroupKey(op) ==>
              past[k].opId.value < op.opId.value
  {
    forall k | 0 <= k < |past| && past[k].opId.Some? && GroupKey(past[k]) == GroupKey(op)
      ensures past[k].opId.value < op.opId.value
    {
      assert SameGroup(past[k], op);
    }
  }

  lemma AtMostLastStep(past: seq<Op>, op: Op, lastByGroup: map<(int, int), int>)
    requires AtMostLast(past, lastByGroup) && op.opId.Some?
    requires forall k :: 0 <= k < |past| && past[k].opId.Some? && GroupKey(past[k]) == GroupKey(op) ==>
               past[k].opId.value < op.opId.value
    ensures AtMostLast(past + [op], lastByGroup[GroupKey(op) := op.opId.value])
  {
    var all := past + [op];
    forall k | 0 <= k < |all| ensures BelowLast(all[k], lastByGroup[GroupKey(op) := op.opId.value]) {
      if k < |past| {
        assert all[k] == past[k] && BelowLast(past[k], lastByGroup);
      }
    }
  }

  lemma LastsOccurStep(past: seq<Op>, op: Op, lastByGroup: map<(int, int), int>)
    requires LastsOccur(past, lastByGroup) && op.opId.Some?
    ensures LastsOccur(past + [op], lastByGroup[GroupKey(op) := op.opId.value])
  {
    var all := past + [op];
    var last' := lastByGroup[GroupKey(op) := op.opId.value];
    forall g | g in last' ensures exists k :: 0 <= k < |all| && IsLast(all[k], g, last'[g]) {
      if g == GroupKey(op) {
        assert IsLast(all[|past|], g, last'[g]);
      } else {
        var k :| 0 <= k < |past| && IsLast(past[k], g, lastByGroup[g]);
        assert IsLast(all[k], g, last'[g]);
      }
    }
  }

  lemma SeenIdsStep(line: nat, past: seq<Op>, op: Op, seen: map<int, nat>)
    requires SeenIds(past, seen) && op.opId.Some?
    ensures SeenIds(past + [op], seen[op.opId.value := line])
  {
    var all := past + [op];
    var seen' := seen[op.opId.value := line];
    assert all[|past|] == op;
    forall x | x in seen' ensures exists k :: 0 <= k < |all| && all[k].opId == Some(x) {
      if x == op.opId.value {
        assert all[|past|].opId == Some(x);
      } else {
        var k :| 0 <= k < |past| && past[k].opId == Some(x);
        assert all[k].opId == Some(x);
      }
    }
  }

  // ----- Handles and fields -----

  predicate OpenFor(handles: map<int, HandleState>, h: int, s: int) {
    h in handles && !handles[h].closed && handles[h].stream == s
  }

  predicate HoldsHandle(op: Op, handles: map<int, HandleState>) {
    op.h.Some? && OpenFor(handles, op.h.value, op.s)
  }

  function RequireOpenHandle(line: nat, op: Op, handles: map<int, HandleState>): (r: seq<Issue>)
    ensures r == [] || r[0].line == line
    ensures |r| == 0 <==> HoldsHandle(op, handles)
  {
    IssueIf(!HoldsHandle(op, handles), line, InHandle)
  }

  function RequireTarget(line: nat, op: Op, h: Header): (r: seq<Issue>)
    ensures r == [] || r[0].line == line
    ensures |r| == 0 <==> RefersToTarget(h, op)
  {
    IssueIf(op.tgt.None? || op.tgt.value < 0 || op.tgt.value >= |h.targets|, line, InTarget)
  }

  function ForbidTarget(line: nat, op: Op): (r: seq<Issue>)
    ensures r == [] || r[0].line == line
    ensures |r| == 0 <==> op.tgt.None?
  {
    IssueIf(op.tgt.Some?, line, InTarget)
  }

  function ForbidHandle(line: nat, op: Op): (r: seq<Issue>)
    ensures r == [] || r[0].line == line
    ensures |r| == 0 <==> op.h.None?
  {
    IssueIf(op.h.Some?, line, InHandle)
  }

  function RequireLen(line: nat, op: Op): (r: seq<Issue>)
    ensures r == [] || r[0].line == line
    ensures |r| == 0 <==> NonNegative(op.len)
  {
    IssueIf(op.len.None? || op.len.value < 0, line, InLen)
  }

  function RequireOffLen(line: nat, op: Op): (r: seq<Issue>)
    ensures r == [] || r[0].line == line
    ensures |r| == 0 <==> NonNegative(op.off) && NonNegative(op.len)
  {
    IssueIf(op.off.None? || op.off.value < 0, line, InOff) + RequireLen(line, op)
  }

  function ForbidPositional(line: nat, op: Op): (r: seq<Issue>)
    ensures r == [] || r[0].line == line
    ensures |r| == 0 <==> NotPositional(op)
  {
    IssueIf(op.off.Some?, line, InOff) + IssueIf(op.len.Some?, line, InLen)
  }

  function RetIssues(line: nat, op: Op, h: Header): (r: seq<Issue>)
    ensures r == [] || r[0].line == line
    ensures |r| == 0 <==> RetOk(h, op)
  {
    if op.ret.None? then []
    else if !op.kind.OpRead? && !op.kind.OpGet? then [Issue(line, InRet)]
    else
      IssueIf(op.ret.value < 0, line, InRet)
      + IssueIf(op.len.Some? && op.ret.value > op.len.value, line, InRet)
      + IssueIf(h.version > 0 && h.version < op.MinVersion(), line, InRet)
  }

  // The switch over the operation's kind.
  function KindIssues(line: nat, op: Op, h: Header, handles: map<int, HandleState>): (r: seq<Issue>)
    ensures |r| == 0 <==>
              && FieldsOk(h, op)
              && (op.kind.OpOpen? ==> op.h.value !in handles)
              && (op.kind.IsHandleOp() ==> HoldsHandle(op, handles))
  {
    match op.kind
    case OpOpen =>
      RequireTarget(line, op, h)
      + IssueIf(op.h.None? || op.h.value in handles, line, InHandle)
      + IssueIf(!op.mode.Valid(), line, InMode)
      + ForbidPositional(line, op)
    case OpRead => RequireOpenHandle(line, op, handles) + ForbidTarget(line, op) + RequireOffLen(line, op)
    case OpWrite => RequireOpenHandle(line, op, handles) + ForbidTarget(line, op) + RequireOffLen(line, op)
    case OpFsync => RequireOpenHandle(line, op, handles) + ForbidTarget(line, op) + ForbidPositional(line, op)
    case OpClose => RequireOpenHandle(line, op, handles) + ForbidTarget(line, op) + ForbidPositional(line, op)
    case OpStat => RequireTarget(line, op, h) + ForbidHandle(line, op) + ForbidPositional(line, op)
    case OpGet => RequireTarget(line, op, h) + ForbidHandle(line, op) + RequireOffLen(line, op)
    case OpPut =>
      RequireTarget(line, op, h) + ForbidHandle(line, op)
      + IssueIf(op.off.Some?, line, InOff) + RequireLen(line, op)
    case OpHead => RequireTarget(line, op, h) + ForbidHandle(line, op) + ForbidPositional(line, op)
    case OpDelete => RequireTarget(line, op, h) + ForbidHandle(line, op) + ForbidPositional(line, op)
    case OtherOp(_) => [Issue(line, InOp)]
  }

  // Everything checked of an operation of a known kind besides its time and id.
  function OpIssues(line: nat, op: Op, h: Header, handles: map<int, HandleState>): (r: seq<Issue>)
    ensures |r| == 0 && op.kind.Valid() <==>
              && ShapeOk(h, op)
              && (op.kind.OpOpen? ==> op.h.value !in handles)
              && (op.kind.IsHandleOp() ==> HoldsHandle(op, handles))
  {
    (if op.kind.OpOpen? then []
     else IssueIf(op.mode != NoMode, line, InMode) + IssueIf(op.flags != [], line, InFlags))
    + KindIssues(line, op, h, handles)
    + RetIssues(line, op, h)
    + IssueIf(op.dur.Some? && op.dur.value < 0, line, InDur)
  }

  lemma KindIssuesAtLine(line: nat, op: Op, h: Header, handles: map<int, HandleState>)
    ensures var r := KindIssues(line, op, h, handles); r == [] || r[0].line == line
  {
    hide HoldsHandle, RefersToTarget, NonNegative, NotPositional, RequireOpenHandle, RequireTarget, ForbidTarget,
         ForbidHandle, RequireLen, RequireOffLen, ForbidPositional, FieldsOk;
  }

  // What is found wrong with an operation is reported at its line.
  lemma OpIssuesAtLine(line: nat, op: Op, h: Header, handles: map<int, HandleState>)
    ensures var r := OpIssues(line, op, h, handles); r == [] || r[0].line == line
  {
    KindIssuesAtLine(line, op, h, handles);
    hide KindIssues, RetIssues, ShapeOk, FieldsOk, RetOk, HoldsHandle;
  }

  // The table row that OPEN adds or CLOSE updates; nothing else changes a row.
  function HandlesAfter(line: nat, op: Op, h: Header, handles: map<int, HandleState>): map<int, HandleState> {
    if op.h.None? then handles
    else if op.kind.OpOpen? then
      if op.h.value !in handles && RefersToTarget(h, op)
      then handles[op.h.value := HandleState(op.s, op.tgt.value, line, false)]
      else handles
    else if op.kind.OpClose? && OpenFor(handles, op.h.value, op.s)
    then handles[op.h.value := handles[op.h.value].(closed := true)]
    else handles
  }

  // What the handle table holds once the operations in past have passed.
  ghost predicate HandleTable(past: seq<Op>, handles: map<int, HandleState>) {
    && handles.Keys == Opened(past)
    && (forall h, s :: OpenFor(handles, h, s) <==> h in Live(OnStream(past, s)))
  }

  lemma HandleTableStep(line: nat, h: Header, past: seq<Op>, op: Op, handles: map<int, HandleState>)
    requires HandleTable(past, handles) && HandleOk(past, op)
    requires op.kind.OpOpen? ==> RefersToTarget(h, op)
    ensures HandleTable(past + [op], HandlesAfter(line, op, h, handles))
  {
    var all := past + [op];
    var after := HandlesAfter(line, op, h, handles);
    OpenedSnoc(past, op);
    assert after.Keys == Opened(all);
    forall x, s ensures OpenFor(after, x, s) <==> x in Live(OnStream(all, s)) {
      OpenForStep(line, h, past, op, handles, x, s);
    }
  }

  // The row of x after each kind of operation.
  lemma RowAfterOpen(line: nat, h: Header, op: Op, handles: map<int, HandleState>, x: int, s: int)
    requires op.kind.OpOpen? && op.h.Some? && op.h.value !in handles && RefersToTarget(h, op)
    ensures OpenFor(HandlesAfter(line, op, h, handles), x, s) <==>
              OpenFor(handles, x, s) || (op.h == Some(x) && s == op.s)
  {
  }

  lemma RowAfterClose(line: nat, h: Header, op: Op, handles: map<int, HandleState>, x: int, s: int)
    requires op.kind.OpClose? && HoldsHandle(op, handles)
    ensures OpenFor(HandlesAfter(line, op, h, handles), x, s) <==>
              OpenFor(handles, x, s) && !(op.h == Some(x) && s == op.s)
  {
  }

  lemma RowAfterOther(line: nat, h: Header, op: Op, handles: map<int, HandleState>)
    requires !op.kind.OpOpen? && !op.kind.OpClose?
    ensures HandlesAfter(line, op, h, handles) == handles
  {
  }

  lemma OpenForStep(line: nat, h: Header, past: seq<Op>, op: Op, handles: map<int, HandleState>, x: int, s: int)
    requires HandleTable(past, handles) && HandleOk(past, op)
    requires op.kind.OpOpen? ==> RefersToTarget(h, op)
    ensures OpenFor(HandlesAfter(line, op, h, handles), x, s) <==> x in Live(OnStream(past + [op], s))
  {
    hide Live, OnStream, Opened, OpenFor, HandlesAfter, RefersToTarget;
    assert OpenFor(handles, x, s) <==> x in Live(OnStream(past, s));
    assert op.kind.IsHandleOp() ==> HoldsHandle(op, handles);
    LiveSnoc(past, op, s);
    hide HandleTable;
    if op.kind.OpOpen? {
      RowAfterOpen(line, h, op, handles, x, s);
    } else if op.kind.OpClose? {
      RowAfterClose(line, h, op, handles, x, s);
    } else {
      RowAfterOther(line, h, op, handles);
    }
  }

  lemma OpenHasTarget(h: Header, op: Op)
    requires ShapeOk(h, op)
    ensures op.kind.OpOpen? ==> RefersToTarget(h, op)
  {
  }

  lemma OpIssuesMeaning(line: nat, op: Op, h: Header, past: seq<Op>, handles: map<int, HandleState>)
    requires HandleTable(past, handles)
    ensures op.kind.Valid() && OpIssues(line, op, h, handles) == [] <==> ShapeOk(h, op) && HandleOk(past, op)
  {
    if op.h.Some? {
      assert OpenFor(handles, op.h.value, op.s) <==> op.h.value in Live(OnStream(past, op.s));
    }
    assert ShapeOk(h, op) ==> (op.kind.OpOpen? || op.kind.IsHandleOp() ==> op.h.Some?);
    hide OpIssues, ShapeOk, Live, OnStream, Opened;
  }

  // Some stream still holds h at the end of ops.
  ghost predicate HeldAtEnd(ops: seq<Op>, h: int) {
    exists s :: h in Live(OnStream(ops, s))
  }

  // The warnings name exactly the handles that some stream still holds.
  lemma NeverClosedMeaning(ops: seq<Op>, handles: map<int, HandleState>, h: int)
    requires HandleTable(ops, handles)
    ensures (h in handles && !handles[h].closed) <==> HeldAtEnd(ops, h)
  {
    if h in handles && !handles[h].closed {
      var s := handles[h].stream;
      assert OpenFor(handles, h, s);
      assert h in Live(OnStream(ops, s));
    }
    if HeldAtEnd(ops, h) {
      var s :| h in Live(OnStream(ops, s));
      assert OpenFor(handles, h, s);
    }
  }

  // ----- The pass -----

  ghost predicate NotEarlier(past: seq<Op>, op: Op) {
    forall k :: 0 <= k < |past| ==> past[k].t <= op.t
  }

  ghost predicate TimeState(past: seq<Op>, sawAny: bool, lastT: int) {
    && (sawAny <==> past != [])
    && (forall k :: 0 <= k < |past| ==> past[k].t <= lastT)
    && (sawAny ==> exists k :: 0 <= k < |past| && past[k].t == lastT)
  }

  lemma TimeStep(past: seq<Op>, op: Op, sawAny: bool, lastT: int)
    requires TimeState(past, sawAny, lastT)
    ensures NotEarlier(past, op) <==> !(sawAny && op.t < lastT)
    ensures TimeState(past + [op], true, if !sawAny || op.t > lastT then op.t else lastT)
  {
    var all := past + [op];
    assert all[|past|] == op;
    if sawAny {
      var k :| 0 <= k < |past| && past[k].t == lastT;
      assert all[k].t == lastT;
    }
  }

  ghost predicate StreamCounts(past: seq<Op>, streams: map<int, int>) {
    && streams.Keys == StreamIds(past)
    && (forall s :: |OnStream(past, s)| == if s in streams then streams[s] else 0)
  }

  function Bump(streams: map<int, int>, s: int): map<int, int> {
    streams[s := (if s in streams then streams[s] else 0) + 1]
  }

  lemma StreamCountsStep(past: seq<Op>, op: Op, streams: map<int, int>)
    requires StreamCounts(past, streams)
    ensures StreamCounts(past + [op], Bump(streams, op.s))
  {
    assert (past + [op])[..|past|] == past;
    assert StreamIds(past + [op]) == StreamIds(past) + {op.s};
  }

  // What the pass adds up whether or not it finds anything wrong: an operation of
  // a kind the format does not define is not looked at further.
  function PartialsSeen(ops: seq<Op>): nat {
    if ops == [] then 0
    else PartialsSeen(ops[..|ops|-1]) + if ops[|ops|-1].kind.Valid() && ops[|ops|-1].IsPartialTransfer() then 1 else 0
  }

  function TableSeen(h: Header, ops: seq<Op>): map<int, HandleState> {
    if ops == [] then map[]
    else
      var past, op := TableSeen(h, ops[..|ops|-1]), ops[|ops|-1];
      if op.kind.Valid() then HandlesAfter(|ops| + 1, op, h, past) else past
  }

  lemma SeenSnoc(h: Header, past: seq<Op>, op: Op)
    ensures PartialsSeen(past + [op])
            == PartialsSeen(past) + if op.kind.Valid() && op.IsPartialTransfer() then 1 else 0
    ensures TableSeen(h, past + [op])
            == if op.kind.Valid() then HandlesAfter(|past| + 2, op, h, TableSeen(h, past)) else TableSeen(h, past)
  {
    assert (past + [op])[..|past|] == past;
  }

  lemma {:induction false} CleanPartialsSeen(h: Header, ops: seq<Op>)
    requires CleanOps(h, ops)
    ensures PartialsSeen(ops) == NumPartial(ops)
  {
    if ops != [] {
      var past, op := ops[..|ops|-1], ops[|ops|-1];
      assert ops == past + [op];
      CleanOpsPrefix(h, past, op);
      CleanPartialsSeen(h, past);
      assert ShapeOk(h, op);
    }
  }

  // Extending a well-formed list of operations by one.
  lemma CleanOpsStep(h: Header, past: seq<Op>, op: Op)
    ensures CleanOps(h, past + [op]) <==>
              CleanOps(h, past) && ShapeOk(h, op) && NotEarlier(past, op) && NextIdOk(past, op) && HandleOk(past, op)
  {
    var all := past + [op];
    var n := |past|;
    IdsOkStep(past, op);
    assert all[n] == op && all[..n] == past;
    assert forall k :: 0 <= k < n ==> all[k] == past[k] && all[..k] == past[..k];
    if CleanOps(h, all) {
      assert ShapeOk(h, all[n]) && HandleOk(all[..n], all[n]);
      forall k | 0 <= k < n
        ensures ShapeOk(h, past[k]) && past[k].t <= op.t && HandleOk(past[..k], past[k])
      {
        assert ShapeOk(h, all[k]) && all[k].t <= all[n].t && HandleOk(all[..k], all[k]);
      }
    }
  }

  lemma EmptyPass(h: Header)
    ensures CleanOps(h, []) && IdTables([], map[], map[]) && HandleTable([], map[])
    ensures TimeState([], false, 0) && StreamCounts([], map[])
    ensures PartialsSeen([]) == 0 && TableSeen(h, []) == map[]
    ensures forall ops, errors :: PointsAtFault(h, ops, 0, errors)
  {
  }

  // The pass found nothing wrong with the first k operations, and something with
  // the next.
  ghost predicate FirstFault(h: Header, ops: seq<Op>, k: nat)
    requires k < |ops|
  {
    HeaderOk(h) && CleanOps(h, ops[..k]) && !CleanOps(h, ops[..k+1])
  }

  // If the first n operations hold the first fault, the first finding is its line.
  ghost predicate PointsAtFault(h: Header, ops: seq<Op>, n: nat, errors: seq<Issue>) {
    forall k :: 0 <= k < n <= |ops| && FirstFault(h, ops, k) ==> errors != [] && errors[0].line == k + 2
  }

  lemma PointsAtNext(h: Header, ops: seq<Op>, n: nat, errors: seq<Issue>, found: seq<Issue>)
    requires n < |ops| && PointsAtFault(h, ops, n, errors)
    requires errors == [] <==> HeaderOk(h) && CleanOps(h, ops[..n])
    requires errors + found == [] <==> HeaderOk(h) && CleanOps(h, ops[..n+1])
    requires found == [] || found[0].line == n + 2
    ensures PointsAtFault(h, ops, n + 1, errors + found)
  {
    hide HeaderOk, CleanOps;
    forall k | 0 <= k < n + 1 && FirstFault(h, ops, k)
      ensures errors + found != [] && (errors + found)[0].line == k + 2
    {
    }
  }

  lemma PointsStill(h: Header, ops: seq<Op>, errors: seq<Issue>, more: seq<Issue>)
    requires PointsAtFault(h, ops, |ops|, errors)
    ensures PointsAtFault(h, ops, |ops|, errors + more)
  {
    hide FirstFault;
  }

  // One operation, after operations the pass found nothing wrong with.
  lemma PassStep(line: nat, h: Header, past: seq<Op>, op: Op,
                 handles: map<int, HandleState>, seen: map<int, nat>, lastByGroup: map<(int, int), int>)
    requires CleanOps(h, past) && IdTables(past, seen, lastByGroup) && HandleTable(past, handles)
    ensures CleanOps(h, past + [op]) <==>
              && NotEarlier(past, op)
              && OpIdIssues(line, op, seen, lastByGroup) == []
              && op.kind.Valid()
              && OpIssues(line, op, h, handles) == []
    ensures CleanOps(h, past + [op]) ==>
              && op.opId.Some?
              && IdTables(past + [op], seen[op.opId.value := line], lastByGroup[GroupKey(op) := op.opId.value])
              && HandleTable(past + [op], HandlesAfter(line, op, h, handles))
  {
    hide CleanOps, NextIdOk, IdTables, HandleTable, HandleOk, ShapeOk, NotEarlier, OpIssues, OpIdIssues, HandlesAfter;
    CleanOpsStep(h, past, op);
    IdIssuesMeaning(line, past, op, seen, lastByGroup);
    OpIssuesMeaning(line, op, h, past, handles);
    if NextIdOk(past, op) {
      NextIdIsGreater(past, op);
      IdTablesStep(line, past, op, seen, lastByGroup);
    }
    if ShapeOk(h, op) && HandleOk(past, op) {
      OpenHasTarget(h, op);
      HandleTableStep(line, h, past, op, handles);
    }
  }

  lemma StreamsCounted(ops: seq<Op>, streams: map<int, int>)
    requires StreamCounts(ops, streams)
    ensures |streams| == |StreamIds(ops)|
  {
    assert |streams| == |streams.Keys|;
  }

  method ValidateWithOps(hdr: Header, ops: seq<Op>) returns (rep: Report)
    ensures rep.OK() <==> CleanTrace(hdr, ops)
    ensures PointsAtFault(hdr, ops, |ops|, rep.errors)
    ensures rep.numOpsRead == |ops|
    ensures StreamCounts(ops, rep.streams)
    ensures rep.numPartialReads == PartialsSeen(ops)
    ensures rep.OK() ==> rep.numPartialReads == NumPartial(ops)
    ensures forall h :: h in rep.neverClosed <==> h in TableSeen(hdr, ops) && !TableSeen(hdr, ops)[h].closed
    ensures rep.OK() ==> forall h :: h in rep.neverClosed <==> HeldAtEnd(ops, h)
  {
    hide CleanOps, IdTables, HandleTable, HeaderOk, TimeState, StreamCounts, NotEarlier, OpIssues, OpIdIssues,
         PointsAtFault, HandlesAfter, Bump, PartialsSeen, TableSeen, HeldAtEnd;
    var errors := HeaderIssues(hdr);
    var handles: map<int, HandleState> := map[];
    var seenOpIds: map<int, nat> := map[];
    var lastOpIdByGroup: map<(int, int), int> := map[];
    var lastT, sawAny := 0, false;
    var numPartial := 0;
    var streams: map<int, int> := map[];
    EmptyPass(hdr);

    for i := 0 to |ops|
      invariant TimeState(ops[..i], sawAny, lastT)
      invariant StreamCounts(ops[..i], streams)
      invariant errors == [] <==> HeaderOk(hdr) && CleanOps(hdr, ops[..i])
      invariant PointsAtFault(hdr, ops, i, errors)
      invariant errors == [] ==> IdTables(ops[..i], seenOpIds, lastOpIdByGroup) && HandleTable(ops[..i], handles)
      invariant numPartial == PartialsSeen(ops[..i]) && handles == TableSeen(hdr, ops[..i])
    {
      ghost var past := ops[..i];
      var op := ops[i];
      var line := i + 2;
      assert ops[..i+1] == past + [op];
      StreamCountsStep(past, op, streams);
      TimeStep(past, op, sawAny, lastT);
      SeenSnoc(hdr, past, op);
      CleanOpsPrefix(hdr, past, op);
      if errors == [] {
        PassStep(line, hdr, past, op, handles, seenOpIds, lastOpIdByGroup);
      }

      streams := Bump(streams, op.s);
      var found: seq<Issue> := [];
      if sawAny && op.t < lastT {
        found := [Issue(line, InTime)];
      }
      if !sawAny || op.t > lastT {
        lastT := op.t;
      }
      sawAny := true;

      found := found + OpIdIssues(line, op, seenOpIds, lastOpIdByGroup);
      if op.opId.Some? {
        seenOpIds := seenOpIds[op.opId.value := line];
        lastOpIdByGroup := lastOpIdByGroup[GroupKey(op) := op.opId.value];
      }

      if !op.kind.Valid() {
        found := found + [Issue(line, InOp)];
      } else {
        OpIssuesAtLine(line, op, hdr, handles);
        found := found + OpIssues(line, op, hdr, handles);
        handles := HandlesAfter(line, op, hdr, handles);
        if op.IsPartialTransfer() {
          numPartial := numPartial + 1;
        }
      }
      PointsAtNext(hdr, ops, i, errors, found);
      errors := errors + found;
    }
    assert ops[..|ops|] == ops;

    var neverClosed := set h | h in handles && !handles[h].closed;
    if errors == [] {
      CleanPartialsSeen(hdr, ops);
      forall h ensures h in neverClosed <==> HeldAtEnd(ops, h) {
        NeverClosedMeaning(ops, handles, h);
      }
    }
    StreamsCounted(ops, streams);
    PointsStill(hdr, ops, errors, SummaryIssues(hdr.summary, |ops|, |streams|, numPartial));
    errors := errors + SummaryIssues(hdr.summary, |ops|, |streams|, numPartial);
    rep := Report(errors, |ops|, numPartial, streams, neverClosed);
  }
}
