// Whatever calls the strace importer sees, the trace it assembles can only be
// rejected for a nameless target or a negative recorded offset.
module StraceTheorems {
  import opened Trace
  import opened TraceContract
  import opened FDTable
  import opened StraceSpec
  import opened Builder
  import opened BuilderTheorems

  // ----- What every run of the importer keeps -----

  function StreamOps(st: State, s: int): seq<Op> {
    if s in st.streams then st.streams[s] else []
  }

  ghost predicate Labelled(st: State) {
    forall s, op :: s in st.streams && op in st.streams[s] ==> op.s == s
  }

  ghost predicate StreamsUsed(st: State) {
    forall s :: s in st.streams ==> st.streams[s] != [] && StreamHandlesOk(st.streams[s])
  }

  // Handles are numbered from zero and each belongs to one stream.
  ghost predicate HandlesIssued(st: State) {
    && (forall s, h :: h in Opened(StreamOps(st, s)) ==> 0 <= h < st.nextHandle)
    && (forall s, s' :: s != s' ==> Opened(StreamOps(st, s)) !! Opened(StreamOps(st, s')))
  }

  // Every tracked descriptor holds a handle its own stream has open, at a
  // cursor that is a file position, and no two hold the same one.
  ghost predicate DescriptorsLive(st: State) {
    && (forall k :: k in st.fds && st.fds[k].hasHandle ==>
          st.fds[k].handle in Live(StreamOps(st, k.stream)) && st.fds[k].cursor >= 0)
    && (forall k, l :: k in st.fds && l in st.fds && k != l && st.fds[k].hasHandle && st.fds[l].hasHandle ==>
          st.fds[k].handle != st.fds[l].handle)
  }

  ghost predicate TargetsInterned(st: State) {
    && (forall i :: 0 <= i < |st.targets| ==>
          && st.targets[i].id == i && st.targets[i].size == 0 && st.targets[i].kind == TargetFile
          && st.targets[i].name in st.targetIdx && st.targetIdx[st.targets[i].name] == i)
    && (forall name :: name in st.targetIdx ==>
          0 <= st.targetIdx[name] < |st.targets| && st.targets[st.targetIdx[name]].name == name)
  }

  // The shape rules, except that a transfer's offset may be negative.
  predicate ShapeButOffset(targets: seq<TargetInfo>, op: Op) {
    if op.kind.OpRead? || op.kind.OpWrite?
    then op.off.Some? && ShapeIn(targets, op.(off := Some(0)))
    else ShapeIn(targets, op)
  }

  // A recorded operation is a file operation of the default group, and moves
  // something if it is a transfer: less than it asked for if it was partial.
  predicate AsRecorded(op: Op) {
    && op.group.None?
    && (op.kind.OpOpen? || op.kind.IsHandleOp() || op.kind.OpStat?)
    && (op.ret.Some? ==> 0 < op.ret.value < op.len.GetOr(0))
    && (op.kind.OpRead? || op.kind.OpWrite? ==> op.Moved() > 0)
  }

  ghost predicate ShapesKept(st: State) {
    forall s, op :: s in st.streams && op in st.streams[s] ==> ShapeButOffset(st.targets, op) && AsRecorded(op)
  }

  ghost predicate Inv(st: State) {
    && Labelled(st) && StreamsUsed(st) && HandlesIssued(st) && DescriptorsLive(st)
    && TargetsInterned(st) && ShapesKept(st) && st.nextHandle >= 0
  }

  // ----- Adding one operation -----

  lemma AddKeepsLabels(st: State, op: Op)
    requires Labelled(st)
    ensures Labelled(Add(st, op))
  {
  }

  lemma AddKeepsStreams(st: State, op: Op)
    requires StreamsUsed(st) && LocalHandleOk(StreamOps(st, op.s), op)
    ensures StreamsUsed(Add(st, op))
  {
    assert StreamHandlesOk([]);
    StreamHandlesOkStep(StreamOps(st, op.s), op);
  }

  lemma AddKeepsShapes(st: State, op: Op)
    requires ShapesKept(st) && ShapeButOffset(st.targets, op) && AsRecorded(op)
    ensures ShapesKept(Add(st, op))
  {
    var mine := StreamOps(st, op.s);
    assert forall x :: x in mine + [op] <==> x in mine || x == op;
  }

  // An operation on a handle that some stream already holds.
  lemma AddOnHandle(st: State, op: Op)
    requires Inv(st) && op.kind.IsHandleOp() && !op.kind.OpClose?
    requires op.h.Some? && op.h.value in Live(StreamOps(st, op.s))
    requires ShapeButOffset(st.targets, op) && AsRecorded(op)
    ensures Inv(Add(st, op))
  {
    AddKeepsLabels(st, op);
    AddKeepsStreams(st, op);
    AddKeepsShapes(st, op);
    HandlesUntouched(st, op);
  }

  lemma AddEffect(st: State, op: Op, after: State, s: int)
    requires after.streams == Add(st, op).streams
    ensures Opened(StreamOps(after, s)) ==
            Opened(StreamOps(st, s)) + if s == op.s && op.kind.OpOpen? && op.h.Some? then {op.h.value} else {}
    ensures Live(StreamOps(after, s)) ==
            if s == op.s then LiveAfter(Live(StreamOps(st, s)), op) else Live(StreamOps(st, s))
  {
    var mine := StreamOps(st, s);
    assert StreamOps(after, s) == if s == op.s then mine + [op] else mine;
    OpenedSnoc(mine, op);
    LiveSnoc(mine, op, s);
    hide Opened, Live, StreamOps;
  }

  lemma HandlesUntouched(st: State, op: Op)
    requires !op.kind.OpOpen? && !op.kind.OpClose?
    ensures HandlesIssued(st) ==> HandlesIssued(Add(st, op))
    ensures DescriptorsLive(st) ==> DescriptorsLive(Add(st, op))
  {
    hide Opened, Live, StreamOps;
    var after := Add(st, op);
    forall s
      ensures Opened(StreamOps(after, s)) == Opened(StreamOps(st, s))
      ensures Live(StreamOps(after, s)) == Live(StreamOps(st, s))
    {
      AddEffect(st, op, after, s);
    }
    SameSetsKeep(st, after);
  }

  lemma SameSetsKeep(st: State, after: State)
    requires after.fds == st.fds && after.nextHandle == st.nextHandle
    requires forall s :: Opened(StreamOps(after, s)) == Opened(StreamOps(st, s))
    requires forall s :: Live(StreamOps(after, s)) == Live(StreamOps(st, s))
    ensures HandlesIssued(st) ==> HandlesIssued(after)
    ensures DescriptorsLive(st) ==> DescriptorsLive(after)
  {
    hide Opened, Live, StreamOps;
  }

  // An operation that needs no handle.
  lemma AddOnTarget(st: State, op: Op)
    requires Inv(st) && !op.kind.OpOpen? && !op.kind.IsHandleOp()
    requires ShapeButOffset(st.targets, op) && AsRecorded(op)
    ensures Inv(Add(st, op))
  {
    AddKeepsLabels(st, op);
    AddKeepsStreams(st, op);
    AddKeepsShapes(st, op);
    HandlesUntouched(st, op);
  }

  // ----- Targets -----

  lemma ShapeMonotone(a: seq<TargetInfo>, b: seq<TargetInfo>, op: Op)
    requires |a| <= |b| && ShapeButOffset(a, op)
    ensures ShapeButOffset(b, op)
  {
  }

  lemma ShapesMonotone(st: State, after: State)
    requires ShapesKept(st) && after.streams == st.streams && |st.targets| <= |after.targets|
    ensures ShapesKept(after)
  {
    forall s, op | s in after.streams && op in after.streams[s]
      ensures ShapeButOffset(after.targets, op) && AsRecorded(op)
    {
      ShapeMonotone(st.targets, after.targets, op);
    }
  }

  lemma InternKeepsTable(st: State, name: string)
    requires TargetsInterned(st)
    ensures TargetsInterned(Intern(st, name))
    ensures 0 <= TargetId(st, name) < |Intern(st, name).targets|
    ensures Intern(st, name).targets[TargetId(st, name)].name == name
  {
  }

  // Nothing but the target table changed.
  lemma SameHandlesKept(st: State, after: State)
    requires after.streams == st.streams && after.fds == st.fds && after.nextHandle == st.nextHandle
    ensures HandlesIssued(st) ==> HandlesIssued(after)
    ensures DescriptorsLive(st) ==> DescriptorsLive(after)
  {
    assert forall s :: StreamOps(after, s) == StreamOps(st, s);
  }

  lemma InternKeeps(st: State, name: string)
    requires Inv(st)
    ensures Inv(Intern(st, name))
    ensures 0 <= TargetId(st, name) < |Intern(st, name).targets|
    ensures Intern(st, name).targets[TargetId(st, name)].name == name
  {
    hide TargetsInterned, HandlesIssued, DescriptorsLive, ShapesKept;
    var after := Intern(st, name);
    InternKeepsTable(st, name);
    ShapesMonotone(st, after);
    SameHandlesKept(st, after);
  }

  lemma StatFileKeeps(st: State, s: int, t: int, path: string, dur: Option<nat>)
    requires Inv(st)
    ensures Inv(StatFile(st, s, t, path, dur))
  {
    InternKeeps(st, path);
    AddOnTarget(Intern(st, path), BareOp(t, s, OpStat).(tgt := Some(TargetId(st, path)), dur := dur));
  }

  // ----- Opening and closing -----

  lemma {:induction false} ModeIsValid(tokens: seq<FlagToken>)
    ensures ModeOf(tokens).Valid()
  {
    if tokens != [] {
      ModeIsValid(tokens[..|tokens|-1]);
    }
  }

  // Stream s0 opened h, and nothing else changed hands.
  ghost predicate OpensOne(st: State, after: State, s0: int, h: int) {
    forall s ::
      && Opened(StreamOps(after, s)) == Opened(StreamOps(st, s)) + (if s == s0 then {h} else {})
      && Live(StreamOps(after, s)) == Live(StreamOps(st, s)) + (if s == s0 then {h} else {})
  }

  lemma AddOpens(st: State, op: Op, after: State)
    requires op.kind.OpOpen? && op.h.Some? && after.streams == Add(st, op).streams
    ensures OpensOne(st, after, op.s, op.h.value)
  {
    hide Opened, Live, StreamOps, Add;
    forall s
      ensures Opened(StreamOps(after, s)) == Opened(StreamOps(st, s)) + (if s == op.s then {op.h.value} else {})
      ensures Live(StreamOps(after, s)) == Live(StreamOps(st, s)) + (if s == op.s then {op.h.value} else {})
    {
      AddEffect(st, op, after, s);
    }
  }

  lemma OpenIssues(st: State, after: State, s0: int)
    requires HandlesIssued(st) && st.nextHandle >= 0
    requires OpensOne(st, after, s0, st.nextHandle) && after.nextHandle == st.nextHandle + 1
    ensures HandlesIssued(after)
  {
    hide Opened, Live, StreamOps;
  }

  lemma LiveAreIssued(st: State, s: int)
    requires HandlesIssued(st)
    ensures Live(StreamOps(st, s)) <= Opened(StreamOps(st, s))
    ensures st.nextHandle !in Live(StreamOps(st, s)) && st.nextHandle !in Opened(StreamOps(st, s))
  {
    LiveAreOpened(StreamOps(st, s));
  }

  lemma OpenDescribes(st: State, after: State, key: FdKey, e: EntryState)
    requires HandlesIssued(st) && DescriptorsLive(st)
    requires OpensOne(st, after, key.stream, st.nextHandle)
    requires e.hasHandle && e.handle == st.nextHandle && e.cursor >= 0 && after.fds == st.fds[key := e]
    ensures DescriptorsLive(after)
  {
    forall k | k in st.fds && st.fds[k].hasHandle ensures st.fds[k].handle != e.handle {
      LiveAreIssued(st, k.stream);
    }
    hide Opened, Live, StreamOps, HandlesIssued;
  }

  // An OPEN under the next handle, which the descriptor is then said to hold.
  lemma AddOpener(st: State, op: Op, key: FdKey, e: EntryState)
    requires Inv(st) && op.kind.OpOpen? && op.h == Some(st.nextHandle) && op.s == key.stream
    requires ShapeButOffset(st.targets, op) && AsRecorded(op)
    requires e.hasHandle && e.handle == st.nextHandle && e.cursor >= 0
    ensures Inv(Add(st.(fds := st.fds[key := e], nextHandle := st.nextHandle + 1), op))
  {
    var tracked := st.(fds := st.fds[key := e], nextHandle := st.nextHandle + 1);
    var after := Add(tracked, op);
    AddOpens(st, op, after);
    LiveAreIssued(st, op.s);
    assert StreamOps(tracked, op.s) == StreamOps(st, op.s);
    hide OpensOne, HandlesIssued, DescriptorsLive, TargetsInterned, ShapesKept, StreamsUsed, Labelled,
         ShapeButOffset, AsRecorded, StreamOps;
    OpenIssues(st, after, op.s);
    OpenDescribes(st, after, key, e);
    AddKeepsLabels(tracked, op);
    AddKeepsStreams(tracked, op);
    ShapesMonotone(st, tracked);
    AddKeepsShapes(tracked, op);
    SameTargets(st, after);
  }

  lemma OpenFileKeeps(st: State, s: int, t: int, fd: int, path: string, mode: Mode, flags: seq<string>,
                      isAppend: bool, dur: Option<nat>)
    requires Inv(st) && mode.Valid()
    ensures Inv(OpenFile(st, s, t, fd, path, mode, flags, isAppend, dur))
  {
    hide Inv, ShapeButOffset, AsRecorded, Add;
    InternKeeps(st, path);
    var interned, id := Intern(st, path), TargetId(st, path);
    var op := BareOp(t, s, OpOpen).(tgt := Some(id), h := Some(st.nextHandle), mode := mode, flags := flags,
                                    dur := dur);
    OpenShape(interned.targets, op);
    AddOpener(interned, op, FdKey(s, fd), FileEntry(st.nextHandle, id, path, isAppend));
  }

  lemma OpenShape(targets: seq<TargetInfo>, op: Op)
    requires op.kind.OpOpen? && op.mode.Valid() && op.h.Some? && op.tgt.Some? && 0 <= op.tgt.value < |targets|
    requires NotPositional(op) && op.ret.None? && op.group.None? && (op.dur.Some? ==> op.dur.value >= 0)
    ensures ShapeButOffset(targets, op) && AsRecorded(op)
  {
  }

  lemma SameTargets(st: State, after: State)
    requires TargetsInterned(st) && after.targets == st.targets && after.targetIdx == st.targetIdx
    ensures TargetsInterned(after)
  {
  }

  lemma CloseKeeps(st: State, s: int, t: int, fd: int, dur: Option<nat>)
    requires Inv(st)
    ensures Inv(DoClose(st, s, t, Some(fd), None, dur))
  {
    var key := FdKey(s, fd);
    var closed := st.(fds := st.fds - {key});
    ForgetKeeps(st, key);
    if key in st.fds && st.fds[key].hasHandle {
      var op := BareOp(t, s, OpClose).(h := Some(st.fds[key].handle), dur := dur);
      assert ShapeButOffset(st.targets, op) && AsRecorded(op);
      EntryIsLive(st, s, fd);
      assert StreamOps(closed, s) == StreamOps(st, s);
      CloseReleases(st, op, key);
      hide HandlesIssued, DescriptorsLive, TargetsInterned, ShapesKept, StreamsUsed, Labelled, ShapeButOffset,
           StreamOps, AsRecorded;
      AddKeepsLabels(closed, op);
      AddKeepsStreams(closed, op);
      AddKeepsShapes(closed, op);
      SameTargets(closed, Add(closed, op));
    }
  }

  lemma ForgetKeeps(st: State, key: FdKey)
    requires Inv(st)
    ensures Inv(st.(fds := st.fds - {key}))
  {
    var after := st.(fds := st.fds - {key});
    assert forall x :: StreamOps(after, x) == StreamOps(st, x);
    SameStreamsKeep(st, after);
  }

  // Closing one descriptor leaves every other descriptor's handle live.
  lemma CloseReleases(st: State, op: Op, key: FdKey)
    requires Inv(st) && op.kind.OpClose? && key in st.fds && key.stream == op.s
    requires st.fds[key].hasHandle && op.h == Some(st.fds[key].handle)
    ensures HandlesIssued(Add(st.(fds := st.fds - {key}), op))
    ensures DescriptorsLive(Add(st.(fds := st.fds - {key}), op))
  {
    hide Opened, Live, StreamOps;
    var after := Add(st.(fds := st.fds - {key}), op);
    forall s
      ensures Opened(StreamOps(after, s)) == Opened(StreamOps(st, s))
      ensures Live(StreamOps(after, s)) == Live(StreamOps(st, s)) - (if s == op.s then {op.h.value} else {})
    {
      AddEffect(st, op, after, s);
    }
  }

  // ----- The other handlers -----

  lemma SameStreamsKeep(st: State, after: State)
    requires Inv(st)
    requires after.streams == st.streams && after.nextHandle == st.nextHandle
    requires after.targets == st.targets && after.targetIdx == st.targetIdx
    requires DescriptorsLive(after)
    ensures Inv(after)
  {
    hide DescriptorsLive;
    assert forall s :: StreamOps(after, s) == StreamOps(st, s);
  }

  // Only counters and stream numbers changed.
  lemma QuietKeeps(st: State, after: State)
    requires Inv(st)
    requires after == st.(skipped := after.skipped, lossy := after.lossy,
                          pidToStream := after.pidToStream, nextStream := after.nextStream)
    ensures Inv(after)
  {
    SameHandlesKept(st, after);
    SameStreamsKeep(st, after);
  }

  lemma EntryIsLive(st: State, s: int, fd: int)
    requires Inv(st)
    ensures var e := LookUp(st.fds, s, fd);
            e.Some? && e.value.hasHandle ==> e.value.handle in Live(StreamOps(st, s)) && e.value.cursor >= 0
  {
  }

  lemma CursorKeeps(st: State, s: int, fd: int, pos: int)
    requires Inv(st) && pos >= 0
    ensures Inv(st.(fds := WithCursor(st.fds, s, fd, pos)))
  {
    var after := st.(fds := WithCursor(st.fds, s, fd, pos));
    CursorKeepsLive(st, s, fd, pos);
    hide DescriptorsLive, WithCursor;
    SameStreamsKeep(st, after);
  }

  lemma CursorKeepsLive(st: State, s: int, fd: int, pos: int)
    requires DescriptorsLive(st) && pos >= 0
    ensures DescriptorsLive(st.(fds := WithCursor(st.fds, s, fd, pos)))
  {
    var after := st.(fds := WithCursor(st.fds, s, fd, pos));
    assert forall x :: StreamOps(after, x) == StreamOps(st, x);
    hide StreamOps, Live;
  }

  lemma DirKeeps(st: State, key: FdKey, path: string)
    requires Inv(st)
    ensures Inv(st.(fds := st.fds[key := DirEntry(path)]))
  {
    var after := st.(fds := st.fds[key := DirEntry(path)]);
    assert forall x :: StreamOps(after, x) == StreamOps(st, x);
    SameStreamsKeep(st, after);
  }

  // A transfer through a tracked descriptor, at a known offset.
  lemma TransferKeeps(st: State, s: int, t: int, call: Call, e: EntryState, off: int, n: int, dur: Option<nat>)
    requires Inv(st) && call.RwCall? && (call.kind.OpRead? || call.kind.OpWrite?) && n > 0
    requires e.handle in Live(StreamOps(st, s))
    ensures Inv(Add(st, Transfer(s, t, call, e, off, n, dur)))
  {
    AddOnHandle(st, Transfer(s, t, call, e, off, n, dur));
  }

  lemma NotedKeeps(st: State, call: Call)
    requires Inv(st) && call.RwCall?
    ensures Inv(Noted(st, call)) && Noted(st, call).fds == st.fds
    ensures forall s :: StreamOps(Noted(st, call), s) == StreamOps(st, s)
  {
    QuietKeeps(st, Noted(st, call));
  }

  lemma SequentialKeeps(st: State, s: int, t: int, call: Call, e: EntryState, n: int, dur: Option<nat>)
    requires Inv(st) && call.RwCall? && (call.kind.OpRead? || call.kind.OpWrite?) && n > 0 && call.fd.Some?
    requires LookUp(st.fds, s, call.fd.value) == Some(e) && e.hasHandle
    ensures Inv(Add(st.(fds := WithCursor(st.fds, s, call.fd.value, e.cursor + n)),
                    Transfer(s, t, call, e, e.cursor, n, dur)))
  {
    hide Inv, Live, Transfer, Add, WithCursor;
    EntryIsLive(st, s, call.fd.value);
    var moved := st.(fds := WithCursor(st.fds, s, call.fd.value, e.cursor + n));
    assert StreamOps(moved, s) == StreamOps(st, s);
    hide StreamOps;
    CursorKeeps(st, s, call.fd.value, e.cursor + n);
    TransferKeeps(moved, s, t, call, e, e.cursor, n, dur);
  }

  lemma RwEmits(st: State, s: int, t: int, call: Call, e: EntryState, n: int, dur: Option<nat>)
    requires Inv(st) && call.RwCall? && (call.kind.OpRead? || call.kind.OpWrite?) && n > 0 && call.fd.Some?
    requires LookUp(st.fds, s, call.fd.value) == Some(e) && e.hasHandle
    requires !(call.kind.OpWrite? && e.appendMode)
    ensures Inv(DoRW(st, s, t, call, Some(n), dur))
  {
    hide Inv, Live, Transfer, Noted, Add, WithCursor, StreamOps;
    EntryIsLive(st, s, call.fd.value);
    NotedKeeps(st, call);
    var noted := Noted(st, call);
    match call.position {
      case At(off) => TransferKeeps(noted, s, t, call, e, off, n, dur);
      case Sequential => SequentialKeeps(noted, s, t, call, e, n, dur);
      case MissingOffset => QuietKeeps(noted, Skip(noted, UnparsedLine));
      case BadOffset => QuietKeeps(noted, Skip(noted, UnparsedLine));
    }
  }

  lemma RwKeeps(st: State, s: int, t: int, call: Call, ret: Option<int>, dur: Option<nat>)
    requires Inv(st) && call.RwCall? && (call.kind.OpRead? || call.kind.OpWrite?)
    ensures Inv(DoRW(st, s, t, call, ret, dur))
  {
    hide Inv, Add, Transfer, Noted, Skip, WithCursor;
    if call.fd.Some? && LookUp(st.fds, s, call.fd.value).Some? && ret.Some? && ret.value > 0 {
      var e := LookUp(st.fds, s, call.fd.value).value;
      if e.hasHandle && !(call.kind.OpWrite? && e.appendMode) {
        RwEmits(st, s, t, call, e, ret.value, dur);
        return;
      }
    }
    QuietKeeps(st, DoRW(st, s, t, call, ret, dur));
  }

  lemma FsyncKeeps(st: State, s: int, t: int, fd: Option<int>, ret: Option<int>, dur: Option<nat>)
    requires Inv(st)
    ensures Inv(DoFsync(st, s, t, fd, ret, dur))
  {
    hide Inv, Live;
    if fd.None? || (ret.Some? && ret.value < 0) || HandleOf(LookUp(st.fds, s, fd.value)).None? {
      QuietKeeps(st, DoFsync(st, s, t, fd, ret, dur));
    } else {
      EntryIsLive(st, s, fd.value);
      var op := BareOp(t, s, OpFsync).(h := HandleOf(LookUp(st.fds, s, fd.value)), dur := dur);
      hide StreamOps, ShapeButOffset, AsRecorded;
      AddOnHandle(st, op);
    }
  }

  lemma OpenKeeps(st: State, s: int, t: int, call: Call, ret: Option<int>, dur: Option<nat>)
    requires Inv(st) && call.OpenCall?
    ensures Inv(DoOpen(st, s, t, call, ret, dur))
  {
    hide Inv, OpenFile, FlagsOf, ResolveAt;
    var after := DoOpen(st, s, t, call, ret, dur);
    if ret.None? || ret.value < 0 || !call.enoughArgs || call.path.None?
       || ResolveAt(st, s, call.dirfd, call.path.value).None? {
      QuietKeeps(st, after);
    } else {
      var path, f := ResolveAt(st, s, call.dirfd, call.path.value).value, FlagsOf(call.flagTokens);
      FlagsMode(call.flagTokens);
      DirKeeps(st, FdKey(s, ret.value), path);
      OpenFileKeeps(st, s, t, ret.value, path, f.mode, f.flags, f.isAppend, dur);
    }
  }

  ghost predicate EachOnce(flags: seq<string>) {
    forall i, j :: 0 <= i < j < |flags| ==> flags[i] != flags[j]
  }

  lemma FlagAdded(flags: seq<string>, present: bool, flag: string)
    requires EachOnce(flags) && flag !in flags
    ensures EachOnce(flags + FlagIf(present, flag))
    ensures forall x :: x in flags + FlagIf(present, flag) <==> x in flags || (present && x == flag)
  {
  }

  // A flag is recorded, once, exactly when the open carried what it stands for.
  lemma FlagsMeaning(tokens: seq<FlagToken>)
    ensures var flags := FlagsOf(tokens).flags;
            && ("direct" in flags <==> O_DIRECT in tokens) && ("create" in flags <==> O_CREAT in tokens)
            && ("trunc" in flags <==> O_TRUNC in tokens) && ("append" in flags <==> O_APPEND in tokens)
            && ("sync" in flags <==> O_SYNC in tokens || O_DSYNC in tokens)
            && (forall flag :: flag in flags ==> flag in {"direct", "create", "trunc", "append", "sync"})
            && EachOnce(flags)
  {
    FlagsListed(O_DIRECT in tokens, O_CREAT in tokens, O_TRUNC in tokens, O_APPEND in tokens,
                O_SYNC in tokens || O_DSYNC in tokens);
    hide EachOnce, FlagIf;
  }

  lemma NamesDiffer()
    ensures "direct" != "create" && "direct" != "trunc" && "direct" != "append" && "direct" != "sync"
    ensures "create" != "trunc" && "create" != "append" && "create" != "sync"
    ensures "trunc" != "append" && "trunc" != "sync" && "append" != "sync"
  {
    assert "direct"[0] == 'd' && "create"[0] == 'c' && "append"[0] == 'a' && |"trunc"| == 5 && |"sync"| == 4;
  }

  lemma FlagsListed(direct: bool, create: bool, trunc: bool, isAppend: bool, sync: bool)
    ensures var flags := FlagIf(direct, "direct") + FlagIf(create, "create") + FlagIf(trunc, "trunc")
                         + FlagIf(isAppend, "append") + FlagIf(sync, "sync");
            && ("direct" in flags <==> direct) && ("create" in flags <==> create) && ("trunc" in flags <==> trunc)
            && ("append" in flags <==> isAppend) && ("sync" in flags <==> sync)
            && (forall flag :: flag in flags ==> flag in {"direct", "create", "trunc", "append", "sync"})
            && EachOnce(flags)
  {
    hide EachOnce;
    NamesDiffer();
    var one := FlagIf(direct, "direct");
    var two := one + FlagIf(create, "create");
    var three := two + FlagIf(trunc, "trunc");
    var four := three + FlagIf(isAppend, "append");
    OnceAtMost(direct, "direct");
    FlagAdded(one, create, "create");
    FlagAdded(two, trunc, "trunc");
    FlagAdded(three, isAppend, "append");
    FlagAdded(four, sync, "sync");
    hide FlagIf;
  }

  lemma OnceAtMost(present: bool, flag: string)
    ensures EachOnce(FlagIf(present, flag)) && forall x :: x in FlagIf(present, flag) <==> present && x == flag
  {
  }

  predicate NamesMode(token: FlagToken) {
    token == O_WRONLY || token == O_RDWR
  }

  // The last access mode named counts; an open that names none reads.
  lemma {:induction false} LastModeCounts(tokens: seq<FlagToken>, last: nat)
    requires last <= |tokens| && forall j :: last <= j < |tokens| ==> !NamesMode(tokens[j])
    requires last > 0 ==> NamesMode(tokens[last - 1])
    ensures ModeOf(tokens)
            == if last == 0 then ModeRead else if tokens[last - 1] == O_WRONLY then ModeWrite else ModeReadWrite
  {
    if last < |tokens| {
      LastModeCounts(tokens[..|tokens|-1], last);
    }
  }

  lemma FlagsMode(tokens: seq<FlagToken>)
    ensures FlagsOf(tokens).mode.Valid()
  {
    ModeIsValid(tokens);
  }

  lemma CreatKeeps(st: State, s: int, t: int, call: Call, ret: Option<int>, dur: Option<nat>)
    requires Inv(st) && call.CreatCall?
    ensures Inv(DoCreat(st, s, t, call, ret, dur))
  {
    hide Inv, OpenFile;
    if ret.None? || ret.value < 0 || !call.enoughArgs || call.path.None? {
      QuietKeeps(st, DoCreat(st, s, t, call, ret, dur));
    } else {
      OpenFileKeeps(st, s, t, ret.value, call.path.value, ModeWrite, ["create", "trunc"], false, dur);
    }
  }

  // The path a stat-like call resolves to, if it emits a STAT at all.
  function StatTarget(st: State, s: int, ev: Event): Option<string>
    requires ev.call.StatCall? || ev.call.FstatCall?
  {
    if (ev.ret.Some? && ev.ret.value < 0) || !ev.call.enoughArgs then None
    else if ev.call.FstatCall? then FdTarget(st, s, ev.call.file)
    else if ev.call.path.None? || ev.call.dirfd.NoDirfd? then ev.call.path
    else if ev.call.path.value == "" then FdTarget(st, s, AsFdArg(ev.call.dirfd))
    else ResolveAt(st, s, ev.call.dirfd, ev.call.path.value)
  }

  lemma StatEffect(st: State, s: int, ev: Event)
    requires ev.call.StatCall? || ev.call.FstatCall?
    ensures var path, after := StatTarget(st, s, ev), Dispatch(st, s, ev);
            if path.Some? then after == StatFile(st, s, ev.t, path.value, ev.dur)
            else after == st.(skipped := after.skipped)
  {
    hide StatFile, ResolveAt, FdTarget, Skip, DoOpen, DoCreat, DoRW, DoClose, DoFsync, DoLseek;
  }

  lemma StatKeeps(st: State, s: int, ev: Event)
    requires Inv(st) && (ev.call.StatCall? || ev.call.FstatCall?)
    ensures Inv(Dispatch(st, s, ev))
  {
    hide Inv, StatFile, ResolveAt, FdTarget, Skip, DoOpen, DoCreat, DoRW, DoClose, DoFsync, DoLseek;
    var path := StatTarget(st, s, ev);
    StatEffect(st, s, ev);
    hide Dispatch, StatTarget;
    if path.Some? {
      StatFileKeeps(st, s, ev.t, path.value, ev.dur);
    } else {
      QuietKeeps(st, Dispatch(st, s, ev));
    }
  }

  lemma DispatchKeeps(st: State, s: int, ev: Event)
    requires Inv(st)
    ensures Inv(Dispatch(st, s, ev))
  {
    hide Inv, DoOpen, DoCreat, DoRW, DoFsync, DoStatPath, DoFstat;
    match ev.call {
      case OpenCall(_, _, _, _) => OpenKeeps(st, s, ev.t, ev.call, ev.ret, ev.dur);
      case CreatCall(_, path) => CreatKeeps(st, s, ev.t, ev.call, ev.ret, ev.dur);
      case RwCall(kind, _, _, _) =>
        if kind.OpRead? || kind.OpWrite? {
          RwKeeps(st, s, ev.t, ev.call, ev.ret, ev.dur);
        }
      case CloseCall(fd) =>
        if fd.None? || (ev.ret.Some? && ev.ret.value < 0) {
          QuietKeeps(st, Dispatch(st, s, ev));
        } else {
          CloseKeeps(st, s, ev.t, fd.value, ev.dur);
        }
      case FsyncCall(fd) => FsyncKeeps(st, s, ev.t, fd, ev.ret, ev.dur);
      case LseekCall(fd) =>
        if fd.Some? && ev.ret.Some? && ev.ret.value >= 0 {
          CursorKeeps(st, s, fd.value, ev.ret.value);
        }
      case StatCall(_, _, _) => StatKeeps(st, s, ev);
      case FstatCall(_, _) => StatKeeps(st, s, ev);
      case OtherCall =>
    }
  }

  lemma {:induction false} EveryRunKeepsInv(events: seq<Event>)
    ensures Inv(HandleAll(events))
  {
    if events == [] {
      assert StreamHandlesOk([]);
    } else {
      var st, ev := HandleAll(events[..|events|-1]), events[|events|-1];
      EveryRunKeepsInv(events[..|events|-1]);
      hide Inv, Dispatch;
      QuietKeeps(st, WithStream(st, ev.pid));
      DispatchKeeps(WithStream(st, ev.pid), StreamOf(st, ev.pid), ev);
    }
  }

  // ----- Streams -----

  function Pids(events: seq<Event>): set<int> {
    set ev <- events :: ev.pid
  }

  lemma PidsSnoc(events: seq<Event>)
    requires events != []
    ensures Pids(events) == Pids(events[..|events|-1]) + {events[|events|-1].pid}
  {
    assert events == events[..|events|-1] + [events[|events|-1]];
  }

  lemma {:induction false} PidsHaveStreams(events: seq<Event>)
    ensures HandleAll(events).pidToStream.Keys == Pids(events) && HandleAll(events).nextStream == |Pids(events)|
  {
    if events != [] {
      var front, last := events[..|events|-1], events[|events|-1];
      PidsHaveStreams(front);
      StreamsStay(HandleAll(front), last);
      PidsSnoc(events);
      hide Handle, Pids;
    }
  }

  lemma {:induction false} StreamNumbersStay(events: seq<Event>, i: nat, pid: int)
    requires i <= |events| && pid in HandleAll(events[..i]).pidToStream
    ensures pid in HandleAll(events).pidToStream
    ensures HandleAll(events).pidToStream[pid] == HandleAll(events[..i]).pidToStream[pid]
  {
    if i == |events| {
      assert events[..i] == events;
    } else {
      var front, last := events[..|events|-1], events[|events|-1];
      assert front[..i] == events[..i];
      StreamNumbersStay(front, i, pid);
      StreamsStay(HandleAll(front), last);
      hide Handle;
    }
  }

  // Each process has one stream, and its number is how many processes appeared
  // before it.
  lemma StreamsByFirstAppearance(events: seq<Event>, i: nat)
    ensures HandleAll(events).pidToStream.Keys == Pids(events) && HandleAll(events).nextStream == |Pids(events)|
    ensures i < |events| && events[i].pid !in Pids(events[..i]) ==>
              HandleAll(events).pidToStream[events[i].pid] == |Pids(events[..i])|
  {
    PidsHaveStreams(events);
    if i < |events| && events[i].pid !in Pids(events[..i]) {
      var first := events[..i+1];
      assert first[..i] == events[..i] && first[i] == events[i];
      PidsHaveStreams(events[..i]);
      StreamsStay(HandleAll(events[..i]), events[i]);
      hide Handle, Pids;
      assert HandleAll(first) == Handle(HandleAll(events[..i]), events[i]);
      StreamNumbersStay(events, i + 1, events[i].pid);
    }
  }

  lemma StreamsStay(st: State, ev: Event)
    ensures var after := Handle(st, ev);
            if ev.pid in st.pidToStream then SameStreams(st, after)
            else after.pidToStream == st.pidToStream[ev.pid := st.nextStream]
                 && after.nextStream == st.nextStream + 1
  {
    hide DoOpen, DoCreat, DoRW, DoClose, DoFsync, DoLseek, DoStatPath, DoFstat;
  }

  // ----- Paths -----

  lemma {:induction false} SlashesTrimmed(s: string) returns (slashes: string)
    ensures s == TrimRightSlashes(s) + slashes && forall ch :: ch in slashes ==> ch == '/'
    ensures var t := TrimRightSlashes(s); t == "" || t[|t|-1] != '/'
  {
    if s != "" && s[|s|-1] == '/' {
      var rest := SlashesTrimmed(s[..|s|-1]);
      slashes := rest + "/";
    } else {
      slashes := "";
    }
  }

  // The path strace shows beside a descriptor stands in for one on record, and one
  // on record is preferred to it.
  lemma DecorationStandsIn(st: State, s: int, fd: int, shown: string, path: string)
    requires LookUp(st.fds, s, fd).None? && shown != ""
    ensures var known := st.(fds := st.fds[FdKey(s, fd) := DirEntry(shown)]);
            && (forall other :: ResolveAt(st, s, AtFd(fd, shown), path) == ResolveAt(known, s, AtFd(fd, other), path))
            && (forall other :: FdTarget(st, s, Fd(fd, shown)) == FdTarget(known, s, Fd(fd, other)) == Some(shown))
    ensures FdTarget(st, s, Fd(fd, "")).None?
    ensures ResolveAt(st, s, AtFd(fd, ""), path) == if FromRoot(path) then Some(path) else None
  {
  }

  predicate FromRoot(path: string) {
    path != "" && path[0] == '/'
  }
}
