// What a well-formed trace is, stated over the decoded header and operations:
// the contract every producer must meet and every consumer may rely on.
module TraceContract {
  import opened Trace

  // ----- Header -----

  predicate CaptureOk(h: Header) {
    && (h.captureMethod != NoMethod ==> h.captureMethod.Valid())
    && (h.kind == Captured || h.kind == Imported ==>
          h.captureMethod != NoMethod && h.captureLimitations != "")
    && (h.kind == Captured ==> h.captureMethod != SyntheticMethod && !h.captureMethod.IsImport())
    && (h.kind == Imported ==> h.captureMethod.IsImport())
    && (h.kind == Synthetic ==> h.captureMethod == NoMethod || h.captureMethod == SyntheticMethod)
  }

  predicate TargetOk(target: TargetInfo, index: int) {
    target.id == index && target.name != "" && target.kind.Valid() && target.size >= 0
  }

  predicate SummaryOk(s: Summary) {
    s.numOps >= 0 && s.numStreams >= 0 && s.numGroups >= 0 && s.totalBytes >= 0 && s.durationNS >= 0
  }

  predicate HeaderOk(h: Header) {
    && TRACE_FORMAT_VERSION <= h.version <= TRACE_FORMAT_VERSION_MAX
    && (h.kind == Captured || h.kind == Imported || h.kind == Synthetic)
    && h.timeUnit == TIME_UNIT_NANOSECONDS
    && CaptureOk(h)
    && (forall i :: 0 <= i < |h.targets| ==> TargetOk(h.targets[i], i))
    && SummaryOk(h.summary)
  }

  // ----- One operation by itself -----

  predicate NonNegative(x: Option<int>) {
    x.Some? && x.value >= 0
  }

  predicate RefersToTarget(h: Header, op: Op) {
    op.tgt.Some? && 0 <= op.tgt.value < |h.targets|
  }

  predicate NotPositional(op: Op) {
    op.off.None? && op.len.None?
  }

  predicate RetOk(h: Header, op: Op) {
    op.ret.Some? ==>
      && (op.kind.OpRead? || op.kind.OpGet?)
      && op.ret.value >= 0
      && (op.len.Some? ==> op.ret.value <= op.len.value)
      && (h.version > 0 ==> op.MinVersion() <= h.version)
  }

  predicate FieldsOk(h: Header, op: Op) {
    match op.kind
    case OpOpen => RefersToTarget(h, op) && op.h.Some? && op.mode.Valid() && NotPositional(op)
    case OpRead => op.h.Some? && op.tgt.None? && NonNegative(op.off) && NonNegative(op.len)
    case OpWrite => op.h.Some? && op.tgt.None? && NonNegative(op.off) && NonNegative(op.len)
    case OpFsync => op.h.Some? && op.tgt.None? && NotPositional(op)
    case OpClose => op.h.Some? && op.tgt.None? && NotPositional(op)
    case OpStat => RefersToTarget(h, op) && op.h.None? && NotPositional(op)
    case OpHead => RefersToTarget(h, op) && op.h.None? && NotPositional(op)
    case OpDelete => RefersToTarget(h, op) && op.h.None? && NotPositional(op)
    case OpGet => RefersToTarget(h, op) && op.h.None? && NonNegative(op.off) && NonNegative(op.len)
    case OpPut => RefersToTarget(h, op) && op.h.None? && op.off.None? && NonNegative(op.len)
    case OtherOp(_) => false
  }

  predicate ShapeOk(h: Header, op: Op) {
    && (!op.kind.OpOpen? ==> op.mode == NoMode && op.flags == [])
    && FieldsOk(h, op)
    && RetOk(h, op)
    && (op.dur.Some? ==> op.dur.value >= 0)
  }

  // ----- Operations in sequence -----

  ghost predicate TimesOk(ops: seq<Op>) {
    forall i, j :: 0 <= i < j < |ops| ==> ops[i].t <= ops[j].t
  }

  predicate SameGroup(a: Op, b: Op) {
    a.s == b.s && a.GroupId() == b.GroupId()
  }

  // Ids identify one operation each, and follow trace order inside a group.
  ghost predicate IdsOk(ops: seq<Op>) {
    && (forall i :: 0 <= i < |ops| ==> NonNegative(ops[i].opId))
    && (forall i, j :: 0 <= i < j < |ops| ==>
          && ops[i].opId != ops[j].opId
          && (SameGroup(ops[i], ops[j]) ==> ops[i].opId.value < ops[j].opId.value))
  }

  // Every handle any OPEN in ops introduced.
  function Opened(ops: seq<Op>): set<int> {
    set op <- ops | op.kind.OpOpen? && op.h.Some? :: op.h.value
  }

  function LiveAfter(live: set<int>, op: Op): set<int> {
    if op.h.None? then live
    else if op.kind.OpOpen? then live + {op.h.value}
    else if op.kind.OpClose? then live - {op.h.value}
    else live
  }

  // The handles opened in ops and not closed again: the meaning of a prefix of
  // one stream's operations.
  function Live(ops: seq<Op>): set<int> {
    if ops == [] then {}
    else
      var rest := Live(ops[..|ops|-1]);
      var last := ops[|ops|-1];
      LiveAfter(rest, last)
  }

  // What op may do with a handle after the operations in past: OPEN introduces a
  // handle no stream has used; the others need one that their own stream holds.
  predicate HandleOk(past: seq<Op>, op: Op) {
    if op.kind.OpOpen? then op.h.Some? && op.h.value !in Opened(past)
    else if op.kind.IsHandleOp() then op.h.Some? && op.h.value in Live(OnStream(past, op.s))
    else true
  }

  ghost predicate HandlesOk(ops: seq<Op>) {
    forall i :: 0 <= i < |ops| ==> HandleOk(ops[..i], ops[i])
  }

  // HandleOk read inside one stream: past holds earlier operations of op's stream.
  predicate LocalHandleOk(past: seq<Op>, op: Op) {
    if op.kind.OpOpen? then op.h.Some? && op.h.value !in Opened(past)
    else if op.kind.IsHandleOp() then op.h.Some? && op.h.value in Live(past)
    else true
  }

  ghost predicate StreamHandlesOk(mine: seq<Op>) {
    forall i :: 0 <= i < |mine| ==> LocalHandleOk(mine[..i], mine[i])
  }

  // No handle is introduced in two streams.
  ghost predicate OpenedApart(ops: seq<Op>) {
    forall s, s' :: s != s' ==> Opened(OnStream(ops, s)) !! Opened(OnStream(ops, s'))
  }

  ghost predicate SummaryAgrees(s: Summary, ops: seq<Op>) {
    s.numOps == |ops| && s.numStreams == |StreamIds(ops)| && s.numPartialReads == NumPartial(ops)
  }

  ghost predicate CleanOps(h: Header, ops: seq<Op>) {
    && (forall i :: 0 <= i < |ops| ==> ShapeOk(h, ops[i]))
    && TimesOk(ops)
    && IdsOk(ops)
    && HandlesOk(ops)
  }

  ghost predicate CleanTrace(h: Header, ops: seq<Op>) {
    HeaderOk(h) && CleanOps(h, ops) && SummaryAgrees(h.summary, ops)
  }

  // ----- Consequences used by several producers and consumers -----

  lemma RenumberedIdsOk(ops: seq<Op>)
    ensures IdsOk(Renumber(ops))
  {
    var r := Renumber(ops);
    forall i, j | 0 <= i < j < |r|
      ensures r[i].opId != r[j].opId
      ensures SameGroup(r[i], r[j]) ==> r[i].opId.value < r[j].opId.value
    {
      assert r[i].opId == Some(i) && r[j].opId == Some(j);
    }
  }

  // Operations of one time, after operations no later.
  lemma AppendInTime(a: seq<Op>, b: seq<Op>, t: int)
    requires TimesOk(a) && (forall op :: op in a ==> op.t <= t) && (forall op :: op in b ==> op.t == t)
    ensures TimesOk(a + b)
  {
    var all := a + b;
    forall i, j | 0 <= i < j < |all| ensures all[i].t <= all[j].t {
      assert i < |a| ==> a[i] in a;
      assert i >= |a| ==> b[i - |a|] in b;
      assert j >= |a| ==> b[j - |a|] in b;
    }
  }

  // A prefix of a trace with sound handles has sound handles.
  lemma HandlesOkPrefix(ops: seq<Op>, n: nat)
    requires n <= |ops| && HandlesOk(ops)
    ensures HandlesOk(ops[..n])
  {
    forall i | 0 <= i < n
      ensures HandleOk(ops[..n][..i], ops[..n][i])
    {
      assert ops[..n][..i] == ops[..i];
      assert HandleOk(ops[..i], ops[i]);
    }
  }

  // What is well formed stays so without its last operation.
  lemma CleanOpsPrefix(h: Header, past: seq<Op>, op: Op)
    ensures CleanOps(h, past + [op]) ==> CleanOps(h, past)
  {
    var all := past + [op];
    assert forall i :: 0 <= i < |past| ==> all[i] == past[i];
    HandlesOkStep(past, op);
  }

  lemma CleanOpsTake(h: Header, ops: seq<Op>, n: nat)
    requires CleanOps(h, ops) && n <= |ops|
    ensures CleanOps(h, ops[..n])
  {
    HandlesOkPrefix(ops, n);
  }

  lemma HandlesOkStep(past: seq<Op>, op: Op)
    ensures HandlesOk(past + [op]) <==> HandlesOk(past) && HandleOk(past, op)
  {
    var all := past + [op];
    assert all[..|past|] == past && all[|past|] == op;
    assert forall i :: 0 <= i < |past| ==> all[..i] == past[..i] && all[i] == past[i];
    if HandlesOk(all) {
      assert HandleOk(all[..|past|], all[|past|]);
      forall i | 0 <= i < |past| ensures HandleOk(past[..i], past[i]) {
        assert HandleOk(all[..i], all[i]);
      }
    }
  }

  lemma {:induction false} LiveAreOpened(ops: seq<Op>)
    ensures Live(ops) <= Opened(ops)
  {
    if ops != [] {
      LiveAreOpened(ops[..|ops|-1]);
      assert ops == ops[..|ops|-1] + [ops[|ops|-1]];
    }
  }

  lemma OpenedSnoc(past: seq<Op>, op: Op)
    ensures Opened(past + [op]) == Opened(past) + if op.kind.OpOpen? && op.h.Some? then {op.h.value} else {}
  {
    assert Opened(past + [op]) == Opened(past) + Opened([op]);
  }

  lemma LiveSnoc(past: seq<Op>, op: Op, s: int)
    ensures Live(past + [op]) == LiveAfter(Live(past), op)
    ensures Live(OnStream(past + [op], s)) ==
            if op.s == s then LiveAfter(Live(OnStream(past, s)), op) else Live(OnStream(past, s))
  {
    assert (past + [op])[..|past|] == past;
    var mine := OnStream(past, s);
    assert (mine + [op])[..|mine|] == mine;
  }

  lemma OnStreamOpened(ops: seq<Op>, s: int)
    ensures Opened(OnStream(ops, s)) <= Opened(ops)
  {
    OnStreamOps(ops, s);
  }

  lemma StreamHandlesOkStep(mine: seq<Op>, op: Op)
    ensures StreamHandlesOk(mine + [op]) <==> StreamHandlesOk(mine) && LocalHandleOk(mine, op)
  {
    var all := mine + [op];
    assert all[..|mine|] == mine && all[|mine|] == op;
    assert forall i :: 0 <= i < |mine| ==> all[..i] == mine[..i] && all[i] == mine[i];
    if StreamHandlesOk(all) {
      assert LocalHandleOk(all[..|mine|], all[|mine|]);
      forall i | 0 <= i < |mine| ensures LocalHandleOk(mine[..i], mine[i]) {
        assert LocalHandleOk(all[..i], all[i]);
      }
    }
  }

  // A trace built one operation at a time: what its stream holds and what was
  // ever opened decide what may come next.
  ghost predicate SoundSoFar(ops: seq<Op>, s: int, live: set<int>, introduced: set<int>) {
    HandlesOk(ops) && Live(OnStream(ops, s)) == live && Opened(ops) == introduced
  }

  lemma SoundStep(past: seq<Op>, op: Op, live: set<int>, introduced: set<int>, live': set<int>, introduced': set<int>)
    requires SoundSoFar(past, op.s, live, introduced)
    requires op.kind.OpOpen? ==> op.h.Some? && op.h.value !in introduced
    requires op.kind.IsHandleOp() ==> op.h.Some? && op.h.value in live
    requires live' == LiveAfter(live, op)
    requires introduced' == introduced + if op.kind.OpOpen? && op.h.Some? then {op.h.value} else {}
    ensures SoundSoFar(past + [op], op.s, live', introduced')
  {
    hide HandlesOk, Live, Opened, OnStream;
    HandlesOkStep(past, op);
    LiveSnoc(past, op, op.s);
    OpenedSnoc(past, op);
  }

  lemma NothingIsSound(s: int)
    ensures SoundSoFar([], s, {}, {})
  {
  }

  lemma SoundIsOk(ops: seq<Op>, s: int, live: set<int>, introduced: set<int>)
    requires SoundSoFar(ops, s, live, introduced)
    ensures HandlesOk(ops)
  {
  }

  // A trace with sound handles is sound in each stream taken alone.
  lemma {:induction false} HandlesOkOnStream(ops: seq<Op>, s: int)
    requires HandlesOk(ops)
    ensures StreamHandlesOk(OnStream(ops, s))
  {
    if ops != [] {
      var n := |ops| - 1;
      var past, op := ops[..n], ops[n];
      HandlesOkPrefix(ops, n);
      HandlesOkOnStream(past, s);
      if op.s == s {
        assert HandleOk(ops[..n], ops[n]);
        OnStreamOpened(past, s);
        StreamHandlesOkStep(OnStream(past, s), op);
      }
    }
  }

  // A handle has one OPEN.
  lemma OpensApart(ops: seq<Op>, j: nat, k: nat)
    requires HandlesOk(ops) && j < k < |ops| && ops[j].kind.OpOpen? && ops[k].kind.OpOpen?
    ensures ops[j].h.Some? && ops[j].h != ops[k].h
  {
    assert HandleOk(ops[..j], ops[j]) && HandleOk(ops[..k], ops[k]);
    assert ops[..k][j] == ops[j];
  }

  lemma OpensOnce(ops: seq<Op>, a: Op, c: Op)
    requires HandlesOk(ops) && a in ops && c in ops && a.kind.OpOpen? && c.kind.OpOpen? && a.h == c.h
    ensures a == c
  {
    hide HandlesOk;
    var j :| 0 <= j < |ops| && ops[j] == a;
    var k :| 0 <= k < |ops| && ops[k] == c;
    if j < k {
      OpensApart(ops, j, k);
    } else if k < j {
      OpensApart(ops, k, j);
    }
  }

  lemma OpenersShareStream(ops: seq<Op>, a: Op, b: Op)
    requires OpenedApart(ops) && a in ops && b in ops
    requires a.kind.OpOpen? && b.kind.OpOpen? && a.h.Some? && a.h == b.h
    ensures a.s == b.s
  {
    OnStreamOps(ops, a.s);
    OnStreamOps(ops, b.s);
    assert a.h.value in Opened(OnStream(ops, a.s)) && b.h.value in Opened(OnStream(ops, b.s));
  }

  // Conversely, streams that are sound alone and share no handle make a sound
  // trace however they are interleaved.
  lemma HandlesOkFromStreams(ops: seq<Op>)
    requires forall s :: StreamHandlesOk(OnStream(ops, s))
    requires OpenedApart(ops)
    ensures HandlesOk(ops)
  {
    forall i | 0 <= i < |ops| ensures HandleOk(ops[..i], ops[i]) {
      var op := ops[i];
      StreamHandlesOkAt(ops, i);
      if op.kind.OpOpen? {
        OnStreamOps(ops[..i], op.s);
        forall earlier | earlier in ops[..i] && earlier.kind.OpOpen? && earlier.h.Some? ensures earlier.h != op.h {
          if earlier.h == op.h {
            OpenersShareStream(ops, earlier, op);
          }
        }
      }
    }
  }

  lemma {:induction false} StreamHandlesOkAt(ops: seq<Op>, i: nat)
    requires i < |ops| && StreamHandlesOk(OnStream(ops, ops[i].s))
    ensures LocalHandleOk(OnStream(ops[..i], ops[i].s), ops[i])
  {
    var s := ops[i].s;
    var before := OnStream(ops[..i], s);
    assert ops == ops[..i] + [ops[i]] + ops[i+1..];
    OnStreamAppend(ops[..i] + [ops[i]], ops[i+1..], s);
    OnStreamAppend(ops[..i], [ops[i]], s);
    var mine := OnStream(ops, s);
    assert mine == before + [ops[i]] + OnStream(ops[i+1..], s);
    assert mine[..|before|] == before && mine[|before|] == ops[i];
    assert LocalHandleOk(mine[..|before|], mine[|before|]);
  }

  lemma {:induction false} BytesNonNegative(h: Header, ops: seq<Op>)
    requires forall op :: op in ops ==> ShapeOk(h, op)
    ensures TotalBytes(ops) >= 0
  {
    if ops != [] {
      assert ShapeOk(h, ops[|ops|-1]);
      BytesNonNegative(h, ops[..|ops|-1]);
    }
  }

  // Renumbering changes nothing the contract reads except the ids.
  lemma {:induction false} RenumberKeepsStreams(ops: seq<Op>, s: int)
    ensures Live(OnStream(Renumber(ops), s)) == Live(OnStream(ops, s))
  {
    hide Live, OnStream;
    if ops == [] {
      assert Renumber(ops) == ops;
    } else {
      var past, op := ops[..|ops|-1], ops[|ops|-1];
      RenumberKeepsStreams(past, s);
      assert ops == past + [op];
      RenumberSnoc(past, op);
      LiveSnoc(past, op, s);
      LiveSnoc(Renumber(past), op.(opId := Some(|past|)), s);
    }
  }

  lemma RenumberKeepsHandles(ops: seq<Op>)
    requires HandlesOk(ops)
    ensures HandlesOk(Renumber(ops))
  {
    var r := Renumber(ops);
    forall i | 0 <= i < |r| ensures HandleOk(r[..i], r[i]) {
      assert r[..i] == Renumber(ops[..i]);
      RenumberKeepsStreams(ops[..i], ops[i].s);
      assert HandleOk(ops[..i], ops[i]);
      assert Opened(r[..i]) == Opened(ops[..i]);
    }
  }

  lemma {:induction false} RenumberKeepsSums(ops: seq<Op>)
    ensures TotalBytes(Renumber(ops)) == TotalBytes(ops)
    ensures NumPartial(Renumber(ops)) == NumPartial(ops)
    ensures StreamIds(Renumber(ops)) == StreamIds(ops)
  {
    if ops != [] {
      var past, op := ops[..|ops|-1], ops[|ops|-1];
      var op' := op.(opId := Some(|past|));
      RenumberKeepsSums(past);
      assert ops == past + [op];
      RenumberSnoc(past, op);
      SumsSnoc(past, op);
      SumsSnoc(Renumber(past), op');
      hide TotalBytes, NumPartial, StreamIds, Renumber;
    }
  }
}
