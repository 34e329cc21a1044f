// When the strace importer's own validation accepts the trace it assembled:
// always, unless a target has no name or a recorded offset is negative.
module StraceImport {
  import opened Trace
  import opened TraceContract
  import opened FDTable
  import opened StraceSpec
  import opened StraceTheorems
  import opened Builder
  import opened BuilderTheorems
  import opened Merge
  import opened SortedIds
  import Extents
  import PrepMeta
  import Preparation
  import Replay

  function Assemble(meta: HeaderMeta, events: seq<Event>): Written {
    Assembled(meta, HandleAll(events).targets, HandleAll(events).streams)
  }

  ghost predicate NoNamelessTarget(st: State) {
    forall i :: 0 <= i < |st.targets| ==> st.targets[i].name != ""
  }

  predicate OffsetOk(op: Op) {
    op.kind.OpRead? || op.kind.OpWrite? ==> op.off.GetOr(0) >= 0
  }

  ghost predicate NoNegativeOffset(st: State) {
    forall s, op :: s in st.streams && op in st.streams[s] ==> OffsetOk(op)
  }

  lemma InvIsSound(st: State)
    requires Inv(st)
    ensures Sound(st.streams)
  {
    forall s, s' | s in st.streams && s' in st.streams && s != s'
      ensures Opened(st.streams[s]) !! Opened(st.streams[s'])
    {
      assert StreamOps(st, s) == st.streams[s] && StreamOps(st, s') == st.streams[s'];
    }
  }

  lemma ShapeFromOffset(targets: seq<TargetInfo>, op: Op)
    requires ShapeButOffset(targets, op)
    ensures ShapeIn(targets, op) <==> OffsetOk(op)
  {
  }

  lemma ShapesFromOffsets(st: State)
    requires ShapesKept(st)
    ensures ShapesIn(st.targets, st.streams) <==> NoNegativeOffset(st)
  {
    hide ShapeIn, ShapeButOffset, OffsetOk;
    forall s, op | s in st.streams && op in st.streams[s] ensures ShapeIn(st.targets, op) <==> OffsetOk(op) {
      assert ShapeButOffset(st.targets, op);
      ShapeFromOffset(st.targets, op);
    }
  }

  lemma TargetsFromNames(st: State)
    requires TargetsInterned(st)
    ensures TargetsOk(st.targets) <==> NoNamelessTarget(st)
  {
    forall i | 0 <= i < |st.targets| ensures TargetOk(st.targets[i], i) <==> st.targets[i].name != "" {
    }
  }

  // For every sequence of calls: self-validation accepts what was assembled
  // exactly when no target is nameless and no recorded offset is negative.
  lemma ImportIsCleanExactlyWhen(meta: HeaderMeta, events: seq<Event>)
    requires MetaOk(meta)
    ensures var all := Assemble(meta, events); var st := HandleAll(events);
            CleanTrace(all.header, all.ops) <==> NoNamelessTarget(st) && NoNegativeOffset(st)
  {
    hide HandleAll, CleanTrace, Inv;
    var st := HandleAll(events);
    EveryRunKeepsInv(events);
    InvParts(st);
    InvIsSound(st);
    ShapesFromOffsets(st);
    TargetsFromNames(st);
    hide Sound, TargetsOk, ShapesIn, NoNamelessTarget, NoNegativeOffset;
    WriteToSucceedsExactlyWhen(meta, st.targets, st.streams);
  }

  lemma InvParts(st: State)
    requires Inv(st)
    ensures ShapesKept(st) && TargetsInterned(st)
  {
  }

  // ----- In terms of the calls alone -----

  // A call that succeeded names the file it names, and a transfer that moved
  // something at a position has one.
  predicate CallOk(call: Call, ret: Option<int>) {
    match call
    case OpenCall(enoughArgs, _, path, _) => enoughArgs && ret.Some? && ret.value >= 0 ==> path != Some("")
    case CreatCall(enoughArgs, path) => enoughArgs && ret.Some? && ret.value >= 0 ==> path != Some("")
    case RwCall(_, _, _, position) => ret.Some? && ret.value > 0 && position.At? ==> position.off >= 0
    case StatCall(enoughArgs, dirfd, path) =>
      enoughArgs && (ret.None? || ret.value >= 0) && dirfd.NoDirfd? ==> path != Some("")
    case _ => true
  }

  ghost predicate PathsNamed(st: State) {
    && (forall k :: k in st.fds ==> st.fds[k].path != "")
    && NoNamelessTarget(st)
  }

  lemma ResolvedIsNamed(st: State, s: int, dirfd: Dirfd, path: string)
    requires PathsNamed(st) && path != ""
    ensures ResolveAt(st, s, dirfd, path) != Some("")
  {
  }

  lemma FdTargetIsNamed(st: State, s: int, arg: FdArg)
    requires PathsNamed(st)
    ensures FdTarget(st, s, arg) != Some("")
  {
  }

  lemma OpenFileKeepsNames(st: State, s: int, t: int, fd: int, path: string, mode: Mode, flags: seq<string>,
                           isAppend: bool, dur: Option<nat>)
    requires PathsNamed(st) && path != ""
    ensures PathsNamed(OpenFile(st, s, t, fd, path, mode, flags, isAppend, dur))
  {
  }

  lemma StatKeepsNames(st: State, s: int, ev: Event)
    requires PathsNamed(st) && CallOk(ev.call, ev.ret) && (ev.call.StatCall? || ev.call.FstatCall?)
    ensures PathsNamed(Dispatch(st, s, ev))
  {
    hide PathsNamed, StatFile, ResolveAt, FdTarget, Skip, DoOpen, DoCreat, DoRW, DoClose, DoFsync, DoLseek;
    var path := StatTarget(st, s, ev);
    if path.Some? {
      if ev.call.FstatCall? {
        FdTargetIsNamed(st, s, ev.call.file);
      } else if ev.call.path.Some? && !ev.call.dirfd.NoDirfd? {
        FdTargetIsNamed(st, s, AsFdArg(ev.call.dirfd));
        if ev.call.path.value != "" {
          ResolvedIsNamed(st, s, ev.call.dirfd, ev.call.path.value);
        }
      }
      assert Dispatch(st, s, ev) == StatFile(st, s, ev.t, path.value, ev.dur);
      StatFileKeepsNames(st, s, ev.t, path.value, ev.dur);
    } else {
      QuietKeepsNames(st, Dispatch(st, s, ev));
    }
  }

  lemma StatFileKeepsNames(st: State, s: int, t: int, path: string, dur: Option<nat>)
    requires PathsNamed(st) && path != ""
    ensures PathsNamed(StatFile(st, s, t, path, dur))
  {
  }

  ghost predicate SamePaths(fds: map<FdKey, EntryState>, after: map<FdKey, EntryState>) {
    forall k :: k in after ==> k in fds && after[k].path == fds[k].path
  }

  lemma CursorKeepsPaths(fds: map<FdKey, EntryState>, s: int, fd: int, pos: int)
    ensures SamePaths(fds, WithCursor(fds, s, fd, pos))
  {
  }

  lemma SamePathsRefl(fds: map<FdKey, EntryState>)
    ensures SamePaths(fds, fds)
  {
  }

  lemma QuietKeepsNames(st: State, after: State)
    requires PathsNamed(st) && after.targets == st.targets
    requires SamePaths(st.fds, after.fds)
    ensures PathsNamed(after)
  {
  }

  lemma OpenKeepsNames(st: State, s: int, t: int, call: Call, ret: Option<int>, dur: Option<nat>)
    requires PathsNamed(st) && CallOk(call, ret) && call.OpenCall?
    ensures PathsNamed(DoOpen(st, s, t, call, ret, dur))
  {
    hide OpenFile, FlagsOf, ResolveAt, PathsNamed, SamePaths;
    SamePathsRefl(st.fds);
    var path := if call.path.Some? then ResolveAt(st, s, call.dirfd, call.path.value) else None;
    if ret.Some? && ret.value >= 0 && call.enoughArgs && path.Some? {
      ResolvedIsNamed(st, s, call.dirfd, call.path.value);
      var f := FlagsOf(call.flagTokens);
      OpenFileKeepsNames(st, s, t, ret.value, path.value, f.mode, f.flags, f.isAppend, dur);
      DirKeepsNames(st, FdKey(s, ret.value), path.value);
    } else {
      QuietKeepsNames(st, DoOpen(st, s, t, call, ret, dur));
    }
  }

  lemma DirKeepsNames(st: State, key: FdKey, path: string)
    requires PathsNamed(st) && path != ""
    ensures PathsNamed(st.(fds := st.fds[key := DirEntry(path)]))
  {
  }

  // Handlers that can at most forget a descriptor or move a cursor.
  lemma TransferKeepsNames(st: State, s: int, ev: Event)
    requires PathsNamed(st) && ev.call.RwCall?
    ensures PathsNamed(DoRW(st, s, ev.t, ev.call, ev.ret, ev.dur))
  {
    hide PathsNamed, SamePaths, Transfer, Add, Skip, Noted, WithCursor;
    SamePathsRefl(st.fds);
    forall fd, pos ensures SamePaths(st.fds, WithCursor(st.fds, s, fd, pos)) {
      CursorKeepsPaths(st.fds, s, fd, pos);
    }
    QuietKeepsNames(st, DoRW(st, s, ev.t, ev.call, ev.ret, ev.dur));
  }

  lemma CloseKeepsNames(st: State, s: int, t: int, fd: Option<int>, ret: Option<int>, dur: Option<nat>)
    requires PathsNamed(st)
    ensures PathsNamed(DoClose(st, s, t, fd, ret, dur))
  {
    if fd.Some? {
      ForgetKeepsPaths(st.fds, FdKey(s, fd.value));
    }
    hide PathsNamed, SamePaths, HandleOf;
    QuietKeepsNames(st, DoClose(st, s, t, fd, ret, dur));
  }

  lemma ForgetKeepsPaths(fds: map<FdKey, EntryState>, key: FdKey)
    ensures SamePaths(fds, fds) && SamePaths(fds, fds - {key})
  {
  }

  lemma FsyncKeepsNames(st: State, s: int, t: int, fd: Option<int>, ret: Option<int>, dur: Option<nat>)
    requires PathsNamed(st)
    ensures PathsNamed(DoFsync(st, s, t, fd, ret, dur))
  {
    hide PathsNamed, Add, Skip, HandleOf;
    QuietKeepsNames(st, DoFsync(st, s, t, fd, ret, dur));
  }

  lemma LseekKeepsNames(st: State, s: int, fd: Option<int>, ret: Option<int>)
    requires PathsNamed(st)
    ensures PathsNamed(DoLseek(st, s, fd, ret))
  {
    hide PathsNamed;
    QuietKeepsNames(st, DoLseek(st, s, fd, ret));
  }

  lemma CreatKeepsNames(st: State, s: int, t: int, call: Call, ret: Option<int>, dur: Option<nat>)
    requires PathsNamed(st) && CallOk(call, ret) && call.CreatCall?
    ensures PathsNamed(DoCreat(st, s, t, call, ret, dur))
  {
    hide OpenFile, PathsNamed;
    if ret.Some? && ret.value >= 0 && call.enoughArgs && call.path.Some? {
      OpenFileKeepsNames(st, s, t, ret.value, call.path.value, ModeWrite, ["create", "trunc"], false, dur);
    } else {
      QuietKeepsNames(st, DoCreat(st, s, t, call, ret, dur));
    }
  }

  lemma DispatchKeepsNames(st: State, s: int, ev: Event)
    requires PathsNamed(st) && CallOk(ev.call, ev.ret)
    ensures PathsNamed(Dispatch(st, s, ev))
  {
    hide PathsNamed, DoOpen, DoCreat, DoRW, DoClose, DoFsync, DoLseek, DoStatPath, DoFstat;
    match ev.call {
      case OpenCall(_, _, _, _) => OpenKeepsNames(st, s, ev.t, ev.call, ev.ret, ev.dur);
      case CreatCall(_, _) => CreatKeepsNames(st, s, ev.t, ev.call, ev.ret, ev.dur);
      case RwCall(_, _, _, _) => TransferKeepsNames(st, s, ev);
      case StatCall(_, _, _) => StatKeepsNames(st, s, ev);
      case FstatCall(_, _) => StatKeepsNames(st, s, ev);
      case CloseCall(fd) => CloseKeepsNames(st, s, ev.t, fd, ev.ret, ev.dur);
      case FsyncCall(fd) => FsyncKeepsNames(st, s, ev.t, fd, ev.ret, ev.dur);
      case LseekCall(fd) => LseekKeepsNames(st, s, fd, ev.ret);
      case OtherCall =>
    }
  }

  // ----- Offsets -----

  lemma AddKeepsOffsets(st: State, op: Op)
    requires NoNegativeOffset(st) && OffsetOk(op)
    ensures NoNegativeOffset(Add(st, op))
  {
    var mine := StreamOps(st, op.s);
    assert forall x :: x in mine + [op] <==> x in mine || x == op;
  }

  lemma SameStreamsSameOffsets(st: State, after: State)
    requires NoNegativeOffset(st) && after.streams == st.streams
    ensures NoNegativeOffset(after)
  {
  }

  lemma TransferKeepsOffsets(st: State, s: int, t: int, call: Call, e: EntryState, n: int, dur: Option<nat>)
    requires NoNegativeOffset(st) && call.RwCall? && CallOk(call, Some(n)) && call.fd.Some? && e.cursor >= 0 && n > 0
    requires LookUp(st.fds, s, call.fd.value) == Some(e) && e.hasHandle && !(call.kind.OpWrite? && e.appendMode)
    ensures NoNegativeOffset(DoRW(st, s, t, call, Some(n), dur))
  {
    hide NoNegativeOffset, Add, Noted;
    var noted := Noted(st, call);
    var moved := noted.(fds := WithCursor(noted.fds, s, call.fd.value, e.cursor + n));
    SameStreamsSameOffsets(st, noted);
    SameStreamsSameOffsets(st, moved);
    match call.position {
      case At(off) => AddKeepsOffsets(noted, Transfer(s, t, call, e, off, n, dur));
      case Sequential => AddKeepsOffsets(moved, Transfer(s, t, call, e, e.cursor, n, dur));
      case _ => SameStreamsSameOffsets(st, DoRW(st, s, t, call, Some(n), dur));
    }
  }

  lemma RwKeepsOffsets(st: State, s: int, t: int, call: Call, ret: Option<int>, dur: Option<nat>)
    requires Inv(st) && NoNegativeOffset(st) && call.RwCall? && CallOk(call, ret)
    ensures NoNegativeOffset(DoRW(st, s, t, call, ret, dur))
  {
    hide Inv, NoNegativeOffset, Add, Noted, Transfer, Live, Skip, WithCursor;
    if call.fd.Some? && LookUp(st.fds, s, call.fd.value).Some? && ret.Some? && ret.value > 0 {
      var e := LookUp(st.fds, s, call.fd.value).value;
      if e.hasHandle && !(call.kind.OpWrite? && e.appendMode) {
        EntryIsLive(st, s, call.fd.value);
        TransferKeepsOffsets(st, s, t, call, e, ret.value, dur);
        return;
      }
    }
    SameStreamsSameOffsets(st, DoRW(st, s, t, call, ret, dur));
  }

  lemma OpenFileKeepsOffsets(st: State, s: int, t: int, fd: int, path: string, mode: Mode, flags: seq<string>,
                             isAppend: bool, dur: Option<nat>)
    requires NoNegativeOffset(st)
    ensures NoNegativeOffset(OpenFile(st, s, t, fd, path, mode, flags, isAppend, dur))
  {
    var tracked := Intern(st, path).(
      fds := st.fds[FdKey(s, fd) := FileEntry(st.nextHandle, TargetId(st, path), path, isAppend)],
      nextHandle := st.nextHandle + 1);
    SameStreamsSameOffsets(st, tracked);
    hide NoNegativeOffset;
    AddKeepsOffsets(tracked, BareOp(t, s, OpOpen).(tgt := Some(TargetId(st, path)), h := Some(st.nextHandle),
                                                   mode := mode, flags := flags, dur := dur));
  }

  lemma OpenKeepsOffsets(st: State, s: int, t: int, call: Call, ret: Option<int>, dur: Option<nat>)
    requires NoNegativeOffset(st) && call.OpenCall?
    ensures NoNegativeOffset(DoOpen(st, s, t, call, ret, dur))
  {
    hide OpenFile, FlagsOf, ResolveAt, NoNegativeOffset, Skip;
    var after := DoOpen(st, s, t, call, ret, dur);
    if after.streams == st.streams {
      SameStreamsSameOffsets(st, after);
    } else {
      var path, f := ResolveAt(st, s, call.dirfd, call.path.value), FlagsOf(call.flagTokens);
      OpenFileKeepsOffsets(st, s, t, ret.value, path.value, f.mode, f.flags, f.isAppend, dur);
    }
  }

  lemma CreatKeepsOffsets(st: State, s: int, t: int, call: Call, ret: Option<int>, dur: Option<nat>)
    requires NoNegativeOffset(st) && call.CreatCall?
    ensures NoNegativeOffset(DoCreat(st, s, t, call, ret, dur))
  {
    hide OpenFile, NoNegativeOffset, Skip;
    var after := DoCreat(st, s, t, call, ret, dur);
    if after.streams == st.streams {
      SameStreamsSameOffsets(st, after);
    } else {
      OpenFileKeepsOffsets(st, s, t, ret.value, call.path.value, ModeWrite, ["create", "trunc"], false, dur);
    }
  }

  lemma StatFileKeepsOffsets(st: State, s: int, t: int, path: string, dur: Option<nat>)
    requires NoNegativeOffset(st)
    ensures NoNegativeOffset(StatFile(st, s, t, path, dur))
  {
    SameStreamsSameOffsets(st, Intern(st, path));
    hide NoNegativeOffset;
    AddKeepsOffsets(Intern(st, path), BareOp(t, s, OpStat).(tgt := Some(TargetId(st, path)), dur := dur));
  }

  lemma StatKeepsOffsets(st: State, s: int, ev: Event)
    requires NoNegativeOffset(st) && (ev.call.StatCall? || ev.call.FstatCall?)
    ensures NoNegativeOffset(Dispatch(st, s, ev))
  {
    hide NoNegativeOffset, StatFile, ResolveAt, FdTarget, Skip, DoOpen, DoCreat, DoRW, DoClose, DoFsync, DoLseek;
    var path := StatTarget(st, s, ev);
    StatEffect(st, s, ev);
    hide Dispatch, StatTarget;
    if path.Some? {
      StatFileKeepsOffsets(st, s, ev.t, path.value, ev.dur);
    } else {
      SameStreamsSameOffsets(st, Dispatch(st, s, ev));
    }
  }

  lemma CloseKeepsOffsets(st: State, s: int, t: int, fd: Option<int>, ret: Option<int>, dur: Option<nat>)
    requires NoNegativeOffset(st)
    ensures NoNegativeOffset(DoClose(st, s, t, fd, ret, dur))
  {
    hide NoNegativeOffset, Add, Skip, HandleOf;
    if fd.Some? {
      var closed := st.(fds := st.fds - {FdKey(s, fd.value)});
      SameStreamsSameOffsets(st, closed);
      AddKeepsOffsets(closed, BareOp(t, s, OpClose).(h := HandleOf(LookUp(st.fds, s, fd.value)), dur := dur));
      SameStreamsSameOffsets(st, Skip(st, FailedSyscall));
    }
  }

  lemma FsyncKeepsOffsets(st: State, s: int, t: int, fd: Option<int>, ret: Option<int>, dur: Option<nat>)
    requires NoNegativeOffset(st)
    ensures NoNegativeOffset(DoFsync(st, s, t, fd, ret, dur))
  {
    hide NoNegativeOffset, Add, Skip, HandleOf;
    var after := DoFsync(st, s, t, fd, ret, dur);
    if after.streams == st.streams {
      SameStreamsSameOffsets(st, after);
    } else {
      AddKeepsOffsets(st, BareOp(t, s, OpFsync).(h := HandleOf(LookUp(st.fds, s, fd.value)), dur := dur));
    }
  }

  lemma DispatchKeepsOffsets(st: State, s: int, ev: Event)
    requires Inv(st) && NoNegativeOffset(st) && CallOk(ev.call, ev.ret)
    ensures NoNegativeOffset(Dispatch(st, s, ev))
  {
    hide Inv, NoNegativeOffset, DoRW, DoOpen, DoCreat, DoClose, DoFsync, DoLseek, DoStatPath, DoFstat;
    match ev.call {
      case OpenCall(_, _, _, _) => OpenKeepsOffsets(st, s, ev.t, ev.call, ev.ret, ev.dur);
      case CreatCall(_, _) => CreatKeepsOffsets(st, s, ev.t, ev.call, ev.ret, ev.dur);
      case RwCall(_, _, _, _) => RwKeepsOffsets(st, s, ev.t, ev.call, ev.ret, ev.dur);
      case CloseCall(fd) => CloseKeepsOffsets(st, s, ev.t, fd, ev.ret, ev.dur);
      case FsyncCall(fd) => FsyncKeepsOffsets(st, s, ev.t, fd, ev.ret, ev.dur);
      case LseekCall(fd) => LseekKeepsOffsets(st, s, fd, ev.ret);
      case StatCall(_, _, _) => StatKeepsOffsets(st, s, ev);
      case FstatCall(_, _) => StatKeepsOffsets(st, s, ev);
      case OtherCall =>
    }
  }

  lemma LseekKeepsOffsets(st: State, s: int, fd: Option<int>, ret: Option<int>)
    requires NoNegativeOffset(st)
    ensures NoNegativeOffset(DoLseek(st, s, fd, ret))
  {
    hide NoNegativeOffset;
    SameStreamsSameOffsets(st, DoLseek(st, s, fd, ret));
  }

  lemma {:induction false} GoodCallsStayGood(events: seq<Event>)
    requires forall ev :: ev in events ==> CallOk(ev.call, ev.ret)
    ensures PathsNamed(HandleAll(events)) && NoNegativeOffset(HandleAll(events))
  {
    if events != [] {
      var st, ev := HandleAll(events[..|events|-1]), events[|events|-1];
      GoodCallsStayGood(events[..|events|-1]);
      EveryRunKeepsInv(events[..|events|-1]);
      var known := WithStream(st, ev.pid);
      QuietKeeps(st, known);
      QuietKeepsNames(st, known);
      SameStreamsSameOffsets(st, known);
      hide Inv, Dispatch, PathsNamed, NoNegativeOffset;
      DispatchKeepsNames(known, StreamOf(st, ev.pid), ev);
      DispatchKeepsOffsets(known, StreamOf(st, ev.pid), ev);
    }
  }

  // Import always validates.
  lemma ImportAlwaysValidates(meta: HeaderMeta, events: seq<Event>)
    requires MetaOk(meta)
    requires forall ev :: ev in events ==> CallOk(ev.call, ev.ret)
    ensures var all := Assemble(meta, events); CleanTrace(all.header, all.ops)
  {
    hide CleanTrace, HandleAll, Assemble, NoNegativeOffset;
    ImportIsCleanExactlyWhen(meta, events);
    GoodCallsStayGood(events);
  }

  // ----- Imported reads are reproduced from the derived extents -----

  ghost predicate WrittenFrom(streams: map<int, seq<Op>>, op: Op) {
    exists s, source :: s in streams && source in streams[s] && op == source.(t := op.t, opId := op.opId)
  }

  lemma WrittenComesFromStream(streams: map<int, seq<Op>>, op: Op)
    requires StreamsLabelled(streams) && op in Unnumbered(streams)
    ensures WrittenFrom(streams, op)
  {
    SortIdsLists(streams.Keys);
    var minT := Origin(streams);
    MergedMembers(SortIds(streams.Keys), AllTimed(streams, minT), op);
    var s :| s in streams && op in AllTimed(streams, minT)[s];
    var i :| 0 <= i < |streams[s]| && Timed(streams[s], minT)[i] == op;
    assert streams[s][i] in streams[s];
  }

  lemma WrittenAsRecorded(st: State, s: int, source: Op, op: Op)
    requires ShapesKept(st) && s in st.streams && source in st.streams[s]
    requires op == source.(t := op.t, opId := op.opId)
    ensures AsRecorded(op)
  {
    assert AsRecorded(source);
  }

  // Every written operation is one some stream collected, with another time and id.
  lemma ImportedSource(meta: HeaderMeta, events: seq<Event>, op: Op) returns (s: int, source: Op)
    requires op in Assemble(meta, events).ops
    ensures s in HandleAll(events).streams && source in HandleAll(events).streams[s]
    ensures op == source.(t := op.t, opId := op.opId)
  {
    var st := HandleAll(events);
    EveryRunKeepsInv(events);
    InvIsSound(st);
    hide HandleAll, Inv, Sound, Unnumbered;
    var ops := Unnumbered(st.streams);
    WrittenHeader(meta, st.targets, st.streams);
    var i :| 0 <= i < |ops| && Renumber(ops)[i] == op;
    WrittenComesFromStream(st.streams, ops[i]);
    s, source :| s in st.streams && source in st.streams[s] && ops[i] == source.(t := ops[i].t, opId := ops[i].opId);
  }

  lemma ImportedAsRecorded(meta: HeaderMeta, events: seq<Event>, op: Op)
    requires op in Assemble(meta, events).ops
    ensures AsRecorded(op)
  {
    EveryRunKeepsInv(events);
    InvParts(HandleAll(events));
    hide HandleAll, Inv, ShapesKept, AsRecorded, Assembled;
    var s, source := ImportedSource(meta, events, op);
    WrittenAsRecorded(HandleAll(events), s, source, op);
  }

  // A replay against an engine with offset writes admits every imported operation.
  lemma ImportedIsAdmitted(meta: HeaderMeta, events: seq<Event>, direct: bool)
    ensures forall op :: op in Assemble(meta, events).ops ==> Preparation.Admits(Replay.FileEngine(direct), op)
  {
    hide Assembled, HandleAll, AsRecorded;
    forall op | op in Assemble(meta, events).ops ensures Preparation.Admits(Replay.FileEngine(direct), op) {
      ImportedAsRecorded(meta, events, op);
      RecordedIsAdmitted(op, direct);
    }
  }

  lemma RecordedIsAdmitted(op: Op, direct: bool)
    requires AsRecorded(op)
    ensures Preparation.Admits(Replay.FileEngine(direct), op)
  {
  }

  // Each file has one target, of undeclared size.
  lemma ImportedTargets(meta: HeaderMeta, events: seq<Event>)
    ensures var targets := Assemble(meta, events).header.targets;
            Extents.DistinctNames(targets) && forall i :: 0 <= i < |targets| ==> targets[i].size == 0
  {
    var st := HandleAll(events);
    EveryRunKeepsInv(events);
    InvParts(st);
    WrittenHeader(meta, st.targets, st.streams);
    hide HandleAll, Inv, ShapesKept, Assembled;
  }

  // The importer drops reads at end of file and gives each file one target, so a
  // file that is only read is prepared, if any read of it was recorded, at a size
  // that reproduces every one.
  lemma ImportedReadsAreReproduced(meta: HeaderMeta, events: seq<Event>, target: int, source: nat)
    requires MetaOk(meta) && forall ev :: ev in events ==> CallOk(ev.call, ev.ret)
    requires 0 <= target < |Assemble(meta, events).header.targets|
    requires var all := Assemble(meta, events); var name := all.header.targets[target].name;
             && Extents.Unwritten(all.header.targets, all.ops, name)
             && Extents.RecordedFrom(all.header.targets, all.ops, name, source)
    ensures var all := Assemble(meta, events); var name := all.header.targets[target].name;
            var sizes := PrepMeta.RequiredSizes(all.header.targets, PrepMeta.ObserveAll(all.ops).extents);
            && (name in sizes <==> exists i :: Extents.ReadsTarget(all.ops, i, target))
            && (name in sizes ==> Extents.AllReproduced(all.header.targets, all.ops, name, sizes[name]))
  {
    ImportAlwaysValidates(meta, events);
    ImportedTargets(meta, events);
    var all := Assemble(meta, events);
    var h, ops := all.header, all.ops;
    hide HandleAll, Assemble, AsRecorded, HeaderOk, CleanOps, Extents.ReachAt, Extents.DistinctNames,
         PrepMeta.ObserveAll, Extents.Unwritten, Extents.RecordedFrom, Extents.AllReproduced, PrepMeta.RequiredSizes;
    forall i | Extents.ReadsTarget(ops, i, target) ensures ops[i].Moved() > 0 && Extents.End(ops[i]) > 0 {
      ImportedAsRecorded(meta, events, ops[i]);
      ReadsMove(h, ops, i);
    }
    Extents.DistinctNamesReproduceReads(h, ops, target, source);
  }

  lemma ReadsMove(h: Header, ops: seq<Op>, i: int)
    requires CleanOps(h, ops) && 0 <= i < |ops| && IsRead(ops[i]) && AsRecorded(ops[i])
    ensures ops[i].Moved() > 0 && Extents.End(ops[i]) > 0
  {
    assert ShapeOk(h, ops[i]);
  }

  // ----- Which imported traces can be materialized -----

  // Every transfer the importer recorded reached past the start of its file.
  lemma TransfersReach(h: Header, ops: seq<Op>, i: int, target: int)
    requires CleanOps(h, ops) && Extents.Touches(ops, i, target) && AsRecorded(ops[i])
    ensures Extents.ReachAt(ops, i).value.1 > 0
  {
    assert ShapeOk(h, ops[i]);
  }

  lemma SizedWhenTouched(meta: HeaderMeta, events: seq<Event>, target: int)
    requires var all := Assemble(meta, events); CleanTrace(all.header, all.ops)
    requires 0 <= target < |Assemble(meta, events).header.targets|
    ensures var all := Assemble(meta, events);
            all.header.targets[target].name in
              PrepMeta.RequiredSizes(all.header.targets, PrepMeta.ObserveAll(all.ops).extents) <==>
            Extents.Touched(all.ops, target)
  {
    hide Assembled, HandleAll, HeaderOk, CleanOps, Extents.ReachAt, PrepMeta.ObserveAll, PrepMeta.RequiredSizes,
         AsRecorded, SummaryAgrees, Extents.Touched;
    var h, ops := Assemble(meta, events).header, Assemble(meta, events).ops;
    ImportedTargets(meta, events);
    Extents.SizedByExtent(h, PrepMeta.ObserveAll(ops).extents, target);
    forall i | Extents.Touches(ops, i, target) ensures Extents.ReachAt(ops, i).value.1 > 0 {
      ImportedAsRecorded(meta, events, ops[i]);
      TransfersReach(h, ops, i, target);
    }
    Extents.ExtentWhenTouched(ops, target);
  }

  // Preparation materializes the files of an imported trace exactly when every one
  // of them was read or written: one that was only opened or asked about has no
  // size, and the whole table is refused for it.
  lemma ImportedIsMaterializedExactlyWhen(meta: HeaderMeta, events: seq<Event>)
    requires MetaOk(meta) && forall ev :: ev in events ==> CallOk(ev.call, ev.ret)
    ensures var all := Assemble(meta, events);
            PrepMeta.AllSized(all.header.targets,
                              PrepMeta.RequiredSizes(all.header.targets, PrepMeta.ObserveAll(all.ops).extents)) <==>
            forall target :: 0 <= target < |all.header.targets| ==> Extents.Touched(all.ops, target)
  {
    hide Assembled, HandleAll, CleanTrace, Extents.Touched, PrepMeta.ObserveAll, PrepMeta.RequiredSizes, CallOk;
    ImportAlwaysValidates(meta, events);
    var h, ops := Assemble(meta, events).header, Assemble(meta, events).ops;
    var sizes := PrepMeta.RequiredSizes(h.targets, PrepMeta.ObserveAll(ops).extents);
    forall target | 0 <= target < |h.targets|
      ensures h.targets[target].name in sizes <==> Extents.Touched(ops, target)
    {
      SizedWhenTouched(meta, events, target);
    }
    hide Assemble;
    assert forall target :: 0 <= target < |h.targets| ==> h.targets[target] in h.targets;
  }
}
