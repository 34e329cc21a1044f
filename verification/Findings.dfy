// What the validator's findings say (pkg/trace/validate.go:113-176, 290-560): the
// fields they name are exactly the ones at fault.
module Findings {
  import opened Trace
  import opened TraceContract
  import opened TraceMeaning
  import opened Validator

  // ----- One operation -----

  // Whether the handle is one the operation may name: for OPEN one no stream has
  // used, for the others one their own stream holds.
  predicate HandleUsable(op: Op, handles: map<int, HandleState>) {
    if op.kind.OpOpen? then op.h.Some? && op.h.value !in handles
    else if CarriesHandle(op.kind) then HoldsHandle(op, handles)
    else op.h.None?
  }

  predicate FieldOk(field: Field, op: Op, h: Header, handles: map<int, HandleState>) {
    match field
    case InMode => ModeFieldOk(op)
    case InFlags => FlagsFieldOk(op)
    case InTarget => TargetFieldOk(h, op)
    case InHandle => HandleUsable(op, handles)
    case InOff => OffsetFieldOk(op)
    case InLen => LengthFieldOk(op)
    case InRet => RetFieldOk(h, op)
    case InDur => DurFieldOk(op)
    case _ => true
  }

  // What each single check reports.
  lemma HandleChecks(line: nat, op: Op, handles: map<int, HandleState>, issue: Issue)
    ensures issue in RequireOpenHandle(line, op, handles) <==>
              issue == Issue(line, InHandle) && !HoldsHandle(op, handles)
    ensures issue in ForbidHandle(line, op) <==> issue == Issue(line, InHandle) && op.h.Some?
  {
    hide HoldsHandle;
  }

  lemma TargetChecks(line: nat, op: Op, h: Header, issue: Issue)
    ensures issue in RequireTarget(line, op, h) <==> issue == Issue(line, InTarget) && !RefersToTarget(h, op)
    ensures issue in ForbidTarget(line, op) <==> issue == Issue(line, InTarget) && op.tgt.Some?
  {
  }

  lemma PositionChecks(line: nat, op: Op, issue: Issue)
    ensures issue in RequireLen(line, op) <==> issue == Issue(line, InLen) && !NonNegative(op.len)
    ensures issue in RequireOffLen(line, op) <==>
              || (issue == Issue(line, InOff) && !NonNegative(op.off))
              || (issue == Issue(line, InLen) && !NonNegative(op.len))
    ensures issue in ForbidPositional(line, op) <==>
              || (issue == Issue(line, InOff) && op.off.Some?)
              || (issue == Issue(line, InLen) && op.len.Some?)
  {
  }

  // An operation on a handle.
  lemma HandleKindNames(line: nat, op: Op, h: Header, handles: map<int, HandleState>, issue: Issue)
    requires CarriesHandle(op.kind) && !op.kind.OpOpen?
    ensures issue in KindIssues(line, op, h, handles) <==>
              || (issue == Issue(line, InHandle) && !HandleUsable(op, handles))
              || (issue == Issue(line, InTarget) && !TargetFieldOk(h, op))
              || (issue == Issue(line, InOff) && !OffsetFieldOk(op))
              || (issue == Issue(line, InLen) && !LengthFieldOk(op))
  {
    HandleChecks(line, op, handles, issue);
    TargetChecks(line, op, h, issue);
    PositionChecks(line, op, issue);
    hide RequireOpenHandle, ForbidTarget, RequireOffLen, ForbidPositional, HoldsHandle;
  }

  // An operation on a target.
  lemma TargetKindNames(line: nat, op: Op, h: Header, handles: map<int, HandleState>, issue: Issue)
    requires CarriesTarget(op.kind) && !op.kind.OpOpen?
    ensures issue in KindIssues(line, op, h, handles) <==>
              || (issue == Issue(line, InHandle) && !HandleUsable(op, handles))
              || (issue == Issue(line, InTarget) && !TargetFieldOk(h, op))
              || (issue == Issue(line, InOff) && !OffsetFieldOk(op))
              || (issue == Issue(line, InLen) && !LengthFieldOk(op))
  {
    HandleChecks(line, op, handles, issue);
    TargetChecks(line, op, h, issue);
    PositionChecks(line, op, issue);
    hide ForbidHandle, RequireTarget, RequireLen, RequireOffLen, ForbidPositional;
  }

  lemma OpenNames(line: nat, op: Op, h: Header, handles: map<int, HandleState>, issue: Issue)
    requires op.kind.OpOpen?
    ensures issue in KindIssues(line, op, h, handles) <==>
              || (issue == Issue(line, InHandle) && !HandleUsable(op, handles))
              || (issue == Issue(line, InTarget) && !TargetFieldOk(h, op))
              || (issue == Issue(line, InOff) && !OffsetFieldOk(op))
              || (issue == Issue(line, InLen) && !LengthFieldOk(op))
              || (issue == Issue(line, InMode) && !ModeFieldOk(op))
  {
    TargetChecks(line, op, h, issue);
    PositionChecks(line, op, issue);
    hide RequireTarget, ForbidPositional;
  }

  lemma RetIssuesNameFields(line: nat, op: Op, h: Header, issue: Issue)
    ensures issue in RetIssues(line, op, h) <==> issue == Issue(line, InRet) && !RetFieldOk(h, op)
  {
  }

  // Of an operation of a known kind, the fields named are those at fault.
  lemma OpIssuesNameFields(line: nat, op: Op, h: Header, handles: map<int, HandleState>, issue: Issue)
    requires !op.kind.OtherOp?
    ensures issue in OpIssues(line, op, h, handles) <==> issue.line == line && !FieldOk(issue.field, op, h, handles)
  {
    RetIssuesNameFields(line, op, h, issue);
    hide KindIssues, RetIssues, HandleUsable, RetFieldOk, TargetFieldOk, OffsetFieldOk, LengthFieldOk;
    if op.kind.OpOpen? {
      OpenNames(line, op, h, handles, issue);
    } else if CarriesHandle(op.kind) {
      HandleKindNames(line, op, h, handles, issue);
    } else {
      TargetKindNames(line, op, h, handles, issue);
    }
  }

  // ----- The header -----

  // Whether some target has a field at fault.
  predicate TargetFault(field: Field, target: TargetInfo, index: int) {
    match field
    case InTargets => target.id != index
    case InTargetName => target.name == ""
    case InTargetKind => target.kind !in {TargetFile, TargetObject}
    case InTargetSize => target.size < 0
    case _ => false
  }

  ghost predicate SomeTargetFault(field: Field, targets: seq<TargetInfo>) {
    exists i :: 0 <= i < |targets| && TargetFault(field, targets[i], i)
  }

  lemma OneTargetNames(target: TargetInfo, i: int, issue: Issue)
    ensures issue in IssueIf(target.id != i, 1, InTargets) + IssueIf(target.name == "", 1, InTargetName)
                     + IssueIf(!target.kind.Valid(), 1, InTargetKind) + IssueIf(target.size < 0, 1, InTargetSize)
            <==> issue.line == 1 && TargetFault(issue.field, target, i)
  {
  }

  lemma {:induction false} TargetIssuesNameFields(targets: seq<TargetInfo>, issue: Issue)
    ensures issue in TargetIssues(targets) <==> issue.line == 1 && SomeTargetFault(issue.field, targets)
  {
    if targets != [] {
      var n := |targets| - 1;
      TargetIssuesNameFields(targets[..n], issue);
      OneTargetNames(targets[n], n, issue);
      assert SomeTargetFault(issue.field, targets) <==>
               SomeTargetFault(issue.field, targets[..n]) || TargetFault(issue.field, targets[n], n) by {
        hide TargetFault;
        if i :| 0 <= i < n && TargetFault(issue.field, targets[..n][i], i) {
          assert targets[i] == targets[..n][i];
        }
        if i :| 0 <= i < |targets| && TargetFault(issue.field, targets[i], i) {
          assert i < n ==> targets[..n][i] == targets[i];
        }
      }
      hide SomeTargetFault, TargetFault;
    }
  }

  predicate SummaryFault(field: Field, s: Summary) {
    match field
    case InNumOps => s.numOps < 0
    case InNumStreams => s.numStreams < 0
    case InNumGroups => s.numGroups < 0
    case InTotalBytes => s.totalBytes < 0
    case InDuration => s.durationNS < 0
    case _ => false
  }

  predicate KnownKind(kind: TraceKind) {
    kind in {Captured, Imported, Synthetic}
  }

  ghost predicate HeaderFault(field: Field, h: Header) {
    match field
    case InVersion => h.version !in {1, 2, 3}
    case InKind => !KnownKind(h.kind)
    case InTimeUnit => h.timeUnit != "ns"
    case InCaptureMethod =>
      if KnownKind(h.kind) then !MethodFits(h.kind, h.captureMethod)
      else h.captureMethod != NoMethod && !h.captureMethod.Valid()
    case InCaptureLimitations => h.kind in {Captured, Imported} && h.captureLimitations == ""
    case _ => SomeTargetFault(field, h.targets) || SummaryFault(field, h.summary)
  }

  lemma CaptureIssuesNameFields(h: Header, issue: Issue)
    ensures issue in CaptureIssues(h) <==>
              issue.line == 1 && issue.field in {InCaptureMethod, InCaptureLimitations} && HeaderFault(issue.field, h)
  {
  }

  lemma SignIssuesNameFields(s: Summary, issue: Issue)
    ensures issue in SignIssues(s) <==> issue.line == 1 && SummaryFault(issue.field, s)
  {
  }

  // Of a header, the fields named are those at fault.
  lemma HeaderIssuesNameFields(h: Header, issue: Issue)
    ensures issue in HeaderIssues(h) <==> issue.line == 1 && HeaderFault(issue.field, h)
  {
    CaptureIssuesNameFields(h, issue);
    TargetIssuesNameFields(h.targets, issue);
    SignIssuesNameFields(h.summary, issue);
    TargetsHaveNoOthers(issue.field, h.targets);
    hide CaptureIssues, TargetIssues, SignIssues, SomeTargetFault, MethodFits;
  }

  lemma TargetsHaveNoOthers(field: Field, targets: seq<TargetInfo>)
    ensures SomeTargetFault(field, targets) ==> field in {InTargets, InTargetName, InTargetKind, InTargetSize}
  {
  }

  // The summary is compared with what the trace contains.
  lemma SummaryIssuesNameFields(s: Summary, numOps: int, numStreams: int, numPartial: int, issue: Issue)
    ensures issue in SummaryIssues(s, numOps, numStreams, numPartial) <==>
              && issue.line == 1
              && match issue.field
                 case InNumOps => s.numOps != numOps
                 case InNumStreams => s.numStreams != numStreams
                 case InNumPartialReads => s.numPartialReads != numPartial
                 case _ => false
  {
  }
}
