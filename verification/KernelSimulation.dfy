// The importer's reconstruction agrees with the kernel: every operation it
// records names the open description the call went to and the offset it used.
module KernelSimulation {
  import opened Trace
  import opened FDTable
  import opened StraceSpec
  import opened StraceTheorems
  import K = Kernel
  import B = Builder

  // The flags of an OPEN say exactly what the open asked for, each once.
  ghost predicate FlagsTell(flags: seq<string>, how: K.Opening) {
    && ("direct" in flags <==> how.direct) && ("create" in flags <==> how.create)
    && ("trunc" in flags <==> how.trunc) && ("append" in flags <==> how.append) && ("sync" in flags <==> how.sync)
    && (forall flag :: flag in flags ==> flag in {"direct", "create", "trunc", "append", "sync"})
    && EachOnce(flags)
  }

  // What an access must look like in the trace. A read keeps what it asked for;
  // a write keeps what landed. Where the cursor is after an appending write, the
  // importer does not know.
  ghost predicate Shows(targets: seq<TargetInfo>, op: Op, a: K.Access) {
    match a
    case Opened(serial, path, mode, how) =>
      && op.kind.OpOpen? && op.h == Some(serial) && op.mode == mode && FlagsTell(op.flags, how)
      && op.tgt.Some? && 0 <= op.tgt.value < |targets| && targets[op.tgt.value].name == path
    case Moved(kind, serial, off, adrift, asked, got) =>
      && op.kind == kind && op.h == Some(serial) && (!adrift ==> op.off == Some(off)) && op.Moved() == got
      && op.len == Some(if kind.OpRead? then asked else got)
      && (op.ret.Some? <==> kind.OpRead? && got < asked)
    case Synced(serial) => op.kind.OpFsync? && op.h == Some(serial)
    case Closed(serial) => op.kind.OpClose? && op.h == Some(serial)
    case Examined(path) =>
      op.kind.OpStat? && op.tgt.Some? && 0 <= op.tgt.value < |targets| && targets[op.tgt.value].name == path
  }

  ghost predicate Records(targets: seq<TargetInfo>, op: Op, m: K.Mark) {
    op.t == m.t && op.dur == m.dur && Shows(targets, op, m.access)
  }

  ghost predicate RecordsAll(targets: seq<TargetInfo>, ops: seq<Op>, log: seq<K.Mark>) {
    |ops| == |log| && forall i :: 0 <= i < |ops| ==> Records(targets, ops[i], log[i])
  }

  // ----- The simulation relation -----

  ghost predicate Owned(pidToStream: map<int, int>, s: int) {
    exists p :: p in pidToStream && pidToStream[p] == s
  }

  ghost predicate PidsApart(st: State) {
    && (forall p :: p in st.pidToStream ==> st.pidToStream[p] < st.nextStream)
    && (forall p, q :: p in st.pidToStream && q in st.pidToStream && p != q ==>
          st.pidToStream[p] != st.pidToStream[q])
    && (forall s :: s in st.streams ==> Owned(st.pidToStream, s))
  }

  function EntryOf(f: K.File): EntryState {
    EntryState(!f.isDir, f.serial, 0, f.cursor, f.path, f.append)
  }

  predicate SameFile(e: EntryState, f: K.File) {
    e.(targetId := 0, cursor := f.cursor) == EntryOf(f) && (!f.adrift ==> e.cursor == f.cursor)
  }

  // The importer's entry is the kernel's file; its target id is not compared.
  predicate Tracks(st: State, key: K.ProcFd, f: K.File) {
    && key.pid in st.pidToStream
    && var k := FdKey(st.pidToStream[key.pid], key.fd);
       k in st.fds && SameFile(st.fds[k], f)
  }

  ghost predicate FilesTracked(k: K.State, st: State) {
    forall key :: key in k.files ==> Tracks(st, key, k.files[key])
  }

  function PidOps(st: State, pid: int): seq<Op> {
    if pid in st.pidToStream then StreamOps(st, st.pidToStream[pid]) else []
  }

  ghost predicate LogsMatch(k: K.State, st: State) {
    forall pid :: RecordsAll(st.targets, PidOps(st, pid), K.LogOf(k, pid))
  }

  ghost predicate Sim(k: K.State, st: State) {
    && PidsApart(st) && FilesTracked(k, st) && LogsMatch(k, st)
    && st.nextHandle == |k.modes|
    && TargetsInterned(st)
  }

  // ----- How the relation is kept -----

  lemma StaysOwned(before: map<int, int>, pid: int, next: int, s: int)
    requires Owned(before, s) && pid !in before
    ensures Owned(before[pid := next], s)
  {
    var p :| p in before && before[p] == s;
    assert before[pid := next][p] == s;
  }

  lemma OwnedIsOld(st: State, s: int)
    requires PidsApart(st) && s in st.streams
    ensures s < st.nextStream
  {
    var p :| p in st.pidToStream && st.pidToStream[p] == s;
  }

  lemma KnownPidApart(st: State, pid: int)
    requires PidsApart(st)
    ensures PidsApart(WithStream(st, pid))
    ensures forall p :: PidOps(WithStream(st, pid), p) == PidOps(st, p)
  {
    forall s | s in st.streams ensures s < st.nextStream && Owned(WithStream(st, pid).pidToStream, s) {
      OwnedIsOld(st, s);
      if pid !in st.pidToStream {
        StaysOwned(st.pidToStream, pid, st.nextStream, s);
      }
    }
    hide Owned;
  }

  lemma KnownPidTracks(k: K.State, st: State, pid: int)
    requires FilesTracked(k, st)
    ensures FilesTracked(k, WithStream(st, pid))
  {
    forall key | key in k.files ensures Tracks(WithStream(st, pid), key, k.files[key]) {
      assert Tracks(st, key, k.files[key]);
    }
  }

  lemma KnownPid(k: K.State, st: State, pid: int)
    requires Sim(k, st)
    ensures Sim(k, WithStream(st, pid))
    ensures pid in WithStream(st, pid).pidToStream
    ensures WithStream(st, pid).pidToStream[pid] == StreamOf(st, pid)
  {
    KnownPidApart(st, pid);
    KnownPidTracks(k, st, pid);
    hide Records, RecordsAll, PidOps, PidsApart, FilesTracked;
    SameTargets(st, WithStream(st, pid));
    hide TargetsInterned;
  }

  lemma RecordsGrow(targets: seq<TargetInfo>, more: seq<TargetInfo>, op: Op, a: K.Mark)
    requires targets <= more && Records(targets, op, a)
    ensures Records(more, op, a)
  {
  }

  // Recording one access of a process leaves every other process alone.
  lemma AddMatches(k: K.State, st: State, pid: int, op: Op, a: K.Mark)
    requires PidsApart(st) && LogsMatch(k, st) && pid in st.pidToStream && op.s == st.pidToStream[pid]
    requires Records(st.targets, op, a)
    ensures LogsMatch(K.Log(k, pid, a), Add(st, op))
    ensures PidsApart(Add(st, op))
  {
    hide Records;
    var after := Add(st, op);
    forall p ensures RecordsAll(after.targets, PidOps(after, p), K.LogOf(K.Log(k, pid, a), p)) {
      assert RecordsAll(st.targets, PidOps(st, p), K.LogOf(k, p));
      assert PidOps(after, p) == PidOps(st, p) + if p == pid then [op] else [];
    }
  }

  lemma AddKeepsFiles(k: K.State, st: State, op: Op)
    requires FilesTracked(k, st)
    ensures FilesTracked(k, Add(st, op))
  {
    forall key | key in k.files ensures Tracks(Add(st, op), key, k.files[key]) {
      assert Tracks(st, key, k.files[key]);
    }
  }

  // Both sides record one access.
  lemma AddSimulates(k: K.State, st: State, pid: int, op: Op, a: K.Mark)
    requires Sim(k, st) && pid in st.pidToStream && op.s == st.pidToStream[pid]
    requires Records(st.targets, op, a)
    ensures Sim(K.Log(k, pid, a), Add(st, op))
  {
    AddMatches(k, st, pid, op, a);
    AddKeepsFiles(k, st, op);
    SameTargets(st, Add(st, op));
    LogKeepsFiles(k, Add(st, op), pid, a);
    hide PidsApart, FilesTracked, LogsMatch, TargetsInterned;
  }

  lemma LogKeepsFiles(k: K.State, st: State, pid: int, a: K.Mark)
    requires FilesTracked(k, st)
    ensures FilesTracked(K.Log(k, pid, a), st)
  {
  }

  // Both sides set one descriptor of one process.
  lemma SetSimulates(k: K.State, st: State, key: K.ProcFd, f: K.File, e: EntryState)
    requires Sim(k, st) && key.pid in st.pidToStream && SameFile(e, f)
    ensures Sim(k.(files := k.files[key := f]),
                st.(fds := st.fds[FdKey(st.pidToStream[key.pid], key.fd) := e]))
  {
    var k', st' := k.(files := k.files[key := f]), st.(fds := st.fds[FdKey(st.pidToStream[key.pid], key.fd) := e]);
    forall o | o in k'.files ensures Tracks(st', o, k'.files[o]) {
      assert o in k.files ==> Tracks(st, o, k.files[o]);
    }
    SameLogs(k, k', st, st');
    SameTargets(st, st');
  }

  lemma ClearSimulates(k: K.State, st: State, key: K.ProcFd)
    requires Sim(k, st) && key.pid in st.pidToStream
    ensures Sim(k.(files := k.files - {key}), st.(fds := st.fds - {FdKey(st.pidToStream[key.pid], key.fd)}))
  {
    var k', st' := k.(files := k.files - {key}), st.(fds := st.fds - {FdKey(st.pidToStream[key.pid], key.fd)});
    forall o | o in k'.files ensures Tracks(st', o, k'.files[o]) {
      assert Tracks(st, o, k.files[o]);
    }
    SameLogs(k, k', st, st');
    SameTargets(st, st');
  }

  lemma SameLogs(k: K.State, k': K.State, st: State, st': State)
    requires LogsMatch(k, st) && k'.log == k.log && st'.streams == st.streams
    requires st'.pidToStream == st.pidToStream && st.targets <= st'.targets
    ensures LogsMatch(k', st')
  {
    forall pid ensures RecordsAll(st'.targets, PidOps(st', pid), K.LogOf(k', pid)) {
      var ops, log := PidOps(st, pid), K.LogOf(k, pid);
      assert RecordsAll(st.targets, ops, log);
      forall i | 0 <= i < |ops| ensures Records(st'.targets, ops[i], log[i]) {
        RecordsGrow(st.targets, st'.targets, ops[i], log[i]);
      }
    }
  }

  lemma QuietSimulates(k: K.State, st: State, after: State)
    requires Sim(k, st) && after == st.(skipped := after.skipped, lossy := after.lossy)
    ensures Sim(k, after)
  {
    forall key | key in k.files ensures Tracks(after, key, k.files[key]) {
      assert Tracks(st, key, k.files[key]);
    }
    SameLogs(k, k, st, after);
    SameTargets(st, after);
  }

  lemma InternSimulates(k: K.State, st: State, name: string)
    requires Sim(k, st)
    ensures Sim(k, Intern(st, name))
  {
    var after := Intern(st, name);
    InternKeepsTable(st, name);
    forall key | key in k.files ensures Tracks(after, key, k.files[key]) {
      assert Tracks(st, key, k.files[key]);
    }
    SameLogs(k, k, st, after);
  }

  // ----- One call -----

  lemma TrackedEntry(k: K.State, st: State, pid: int, fd: int)
    requires Sim(k, st) && K.ProcFd(pid, fd) in k.files
    ensures pid in st.pidToStream
    ensures var e := LookUp(st.fds, st.pidToStream[pid], fd);
            e.Some? && SameFile(e.value, k.files[K.ProcFd(pid, fd)])
  {
    assert Tracks(st, K.ProcFd(pid, fd), k.files[K.ProcFd(pid, fd)]);
  }

  lemma PathAgrees(k: K.State, st: State, pid: int, dirfd: Dirfd, path: string)
    requires Sim(k, st) && pid in st.pidToStream && K.Resolvable(k, pid, dirfd, path)
    ensures ResolveAt(st, st.pidToStream[pid], dirfd, path) == Some(K.FullPath(k, pid, dirfd, path))
  {
    if dirfd.AtFd? && K.ProcFd(pid, dirfd.fd) in k.files {
      TrackedEntry(k, st, pid, dirfd.fd);
    }
  }

  lemma CountSimulates(k: K.State, st: State, mode: Mode)
    requires Sim(k, st)
    ensures Sim(k.(modes := k.modes + [mode]), st.(nextHandle := st.nextHandle + 1))
  {
    var k', st' := k.(modes := k.modes + [mode]), st.(nextHandle := st.nextHandle + 1);
    forall key | key in k.files ensures Tracks(st', key, k.files[key]) {
      assert Tracks(st, key, k.files[key]);
    }
    SameLogs(k, k', st, st');
    SameTargets(st, st');
  }

  lemma OpenFileSimulates(k: K.State, st: State, ran: K.Ran, path: string, mode: Mode, how: K.Opening,
                          flags: seq<string>)
    requires Sim(k, st) && ran.pid in st.pidToStream && FlagsTell(flags, how)
    ensures Sim(K.OpenFile(k, ran, path, mode, how),
                OpenFile(st, st.pidToStream[ran.pid], ran.t, ran.result, path, mode, flags, how.append, ran.dur))
  {
    hide Sim;
    var s, id, h := st.pidToStream[ran.pid], TargetId(st, path), st.nextHandle;
    var interned := Intern(st, path);
    InternSimulates(k, st, path);
    SimParts(k, st);
    InternKeepsTable(st, path);
    var key, e := K.ProcFd(ran.pid, ran.result), FileEntry(h, id, path, how.append);
    var f := K.NewFile(path, mode, how.append, |k.modes|);
    hide Intern, TargetId;
    CountSimulates(k, interned, mode);
    var k1, st1 := k.(modes := k.modes + [mode]), interned.(nextHandle := h + 1);
    SetSimulates(k1, st1, key, f, e);
    var st2 := st1.(fds := st1.fds[FdKey(s, ran.result) := e]);
    var op := BareOp(ran.t, s, OpOpen).(tgt := Some(id), h := Some(h), mode := mode, flags := flags, dur := ran.dur);
    AddSimulates(k1.(files := k1.files[key := f]), st2, ran.pid, op, K.Did(ran, K.Opened(|k.modes|, path, mode, how)));
  }

  lemma SimParts(k: K.State, st: State)
    requires Sim(k, st)
    ensures TargetsInterned(st) && st.nextHandle == |k.modes|
  {
  }

  lemma FlagsAgree(tokens: seq<FlagToken>)
    ensures FlagsOf(tokens).isDir == (O_DIRECTORY in tokens)
    ensures FlagsOf(tokens).isAppend == (O_APPEND in tokens)
    ensures K.OneAccessMode(tokens) ==> FlagsOf(tokens).mode == K.AccessMode(tokens)
    ensures FlagsTell(FlagsOf(tokens).flags, K.Asked(tokens))
  {
    FlagsMeaning(tokens);
    if K.OneAccessMode(tokens) {
      ModesAgree(tokens);
    }
  }

  lemma {:induction false} ModesAgree(tokens: seq<FlagToken>)
    requires K.OneAccessMode(tokens)
    ensures ModeOf(tokens) == K.AccessMode(tokens)
  {
    if tokens != [] {
      var front, last := tokens[..|tokens|-1], tokens[|tokens|-1];
      assert tokens == front + [last];
      assert last in tokens;
      ModesAgree(front);
    }
  }

  lemma OpenSimulates(k: K.State, st: State, ran: K.Ran)
    requires Sim(k, st) && ran.pid in st.pidToStream && ran.call.Open? && ran.result >= 0 && K.Legal(k, ran)
    ensures Sim(K.OpenStep(k, ran), Dispatch(st, st.pidToStream[ran.pid], K.Traced(ran)))
  {
    hide Sim, OpenFile, FlagsOf, ResolveAt;
    var s := st.pidToStream[ran.pid];
    PathAgrees(k, st, ran.pid, ran.call.dirfd, ran.call.path);
    FlagsAgree(ran.call.flags);
    var path, f := K.FullPath(k, ran.pid, ran.call.dirfd, ran.call.path), FlagsOf(ran.call.flags);
    if f.isDir {
      SetSimulates(k, st, K.ProcFd(ran.pid, ran.result), K.Directory(path), DirEntry(path));
    } else {
      OpenFileSimulates(k, st, ran, path, f.mode, K.Asked(ran.call.flags), f.flags);
    }
  }

  lemma CreatSimulates(k: K.State, st: State, ran: K.Ran)
    requires Sim(k, st) && ran.pid in st.pidToStream && ran.call.Creat? && ran.result >= 0 && K.Legal(k, ran)
    ensures Sim(K.Step(k, ran), Dispatch(st, st.pidToStream[ran.pid], K.Traced(ran)))
  {
    hide Sim, OpenFile, K.OpenFile;
    OpenFileSimulates(k, st, ran, ran.call.path, ModeWrite, K.CREATING, ["create", "trunc"]);
  }

  // A call that only asks about a file interns its path.
  lemma StatFileSimulates(k: K.State, st: State, ran: K.Ran, path: string)
    requires Sim(k, st) && ran.pid in st.pidToStream
    ensures Sim(K.Log(k, ran.pid, K.Did(ran, K.Examined(path))),
                StatFile(st, st.pidToStream[ran.pid], ran.t, path, ran.dur))
  {
    InternSimulates(k, st, path);
    SimParts(k, st);
    InternKeepsTable(st, path);
    hide Sim;
    AddSimulates(k, Intern(st, path), ran.pid,
                 BareOp(ran.t, st.pidToStream[ran.pid], OpStat).(tgt := Some(TargetId(st, path)), dur := ran.dur),
                 K.Did(ran, K.Examined(path)));
  }

  lemma StatPathAgrees(k: K.State, st: State, ran: K.Ran)
    requires Sim(k, st) && ran.pid in st.pidToStream && ran.result >= 0 && K.Legal(k, ran)
    requires ran.call.Stat? || ran.call.Fstat?
    ensures StatTarget(st, st.pidToStream[ran.pid], K.Traced(ran))
            == Some(if ran.call.Fstat? then k.files[K.ProcFd(ran.pid, ran.call.fd)].path
                    else K.ExaminedPath(k, ran.pid, ran.call.dirfd, ran.call.path))
  {
    if ran.call.Fstat? {
      TrackedEntry(k, st, ran.pid, ran.call.fd);
    } else if !ran.call.dirfd.NoDirfd? {
      if ran.call.path == "" {
        TrackedEntry(k, st, ran.pid, ran.call.dirfd.fd);
      } else {
        PathAgrees(k, st, ran.pid, ran.call.dirfd, ran.call.path);
      }
    }
  }

  lemma StatSimulates(k: K.State, st: State, ran: K.Ran)
    requires Sim(k, st) && ran.pid in st.pidToStream && ran.result >= 0 && K.Legal(k, ran)
    requires ran.call.Stat? || ran.call.Fstat?
    ensures Sim(K.Step(k, ran), Dispatch(st, st.pidToStream[ran.pid], K.Traced(ran)))
  {
    hide Sim, StatFile, Dispatch, StatTarget, K.Log;
    var s, ev := st.pidToStream[ran.pid], K.Traced(ran);
    StatPathAgrees(k, st, ran);
    StatEffect(st, s, ev);
    StatFileSimulates(k, st, ran, StatTarget(st, s, ev).value);
  }

  lemma TransferRecords(targets: seq<TargetInfo>, s: int, ran: K.Ran, e: EntryState, off: int, at: int, adrift: bool)
    requires K.IsTransfer(ran.call) && 0 < ran.result <= ran.call.count && (!adrift ==> off == at)
    ensures var op := Transfer(s, ran.t, K.Shown(ran.call), e, off, ran.result, ran.dur);
            op.s == s && Records(targets, op, K.Did(ran, K.MoveOf(ran, e.handle, at, adrift)))
  {
  }

  lemma TransferSimulates(k: K.State, st: State, ran: K.Ran)
    requires Sim(k, st) && ran.pid in st.pidToStream && K.IsTransfer(ran.call) && ran.result >= 0 && K.Legal(k, ran)
    ensures Sim(K.TransferStep(k, ran), Dispatch(st, st.pidToStream[ran.pid], K.Traced(ran)))
  {
    hide Sim, Transfer, Add, Records, K.Log, Skip, K.MoveOf;
    var s, fd, n := st.pidToStream[ran.pid], ran.call.fd, ran.result;
    var key := K.ProcFd(ran.pid, fd);
    TrackedEntry(k, st, ran.pid, fd);
    var f, e := k.files[key], LookUp(st.fds, s, fd).value;
    if n == 0 {
      NothingMoved(k, st, ran);
    } else if ran.call.Write? && f.append {
      AppendSimulates(k, st, ran);
    } else if ran.call.at.Some? {
      TransferRecords(st.targets, s, ran, e, ran.call.at.value, ran.call.at.value, false);
      AddSimulates(k, st, ran.pid, Transfer(s, ran.t, K.Shown(ran.call), e, ran.call.at.value, n, ran.dur),
                   K.Did(ran, K.MoveOf(ran, f.serial, ran.call.at.value, false)));
    } else {
      var f', e' := f.(cursor := f.cursor + n), e.(cursor := e.cursor + n);
      SetSimulates(k, st, key, f', e');
      var k', st' := k.(files := k.files[key := f']), st.(fds := st.fds[FdKey(s, fd) := e']);
      TransferRecords(st'.targets, s, ran, e, e.cursor, f.cursor, f.adrift);
      AddSimulates(k', st', ran.pid, Transfer(s, ran.t, K.Shown(ran.call), e, e.cursor, n, ran.dur),
                   K.Did(ran, K.MoveOf(ran, f.serial, f.cursor, f.adrift)));
    }
  }

  // An appending write is counted and not recorded, and the importer loses track of
  // the cursor it moves.
  lemma AppendSimulates(k: K.State, st: State, ran: K.Ran)
    requires Sim(k, st) && ran.pid in st.pidToStream && ran.call.Write? && ran.result > 0 && K.Legal(k, ran)
    requires k.files[K.ProcFd(ran.pid, ran.call.fd)].append
    ensures Sim(K.AppendStep(k, ran), Dispatch(st, st.pidToStream[ran.pid], K.Traced(ran)))
  {
    hide Sim, Add, Skip, Transfer, WithCursor, Noted;
    var s, key := st.pidToStream[ran.pid], K.ProcFd(ran.pid, ran.call.fd);
    TrackedEntry(k, st, ran.pid, ran.call.fd);
    var e := LookUp(st.fds, s, ran.call.fd).value;
    assert Dispatch(st, s, K.Traced(ran)) == Skip(st, B.AppendWriteUnmodeled);
    hide Dispatch;
    var f := k.files[key].(cursor := ran.call.eof + ran.result, adrift := true);
    SetSimulates(k, st, key, f, e);
    assert st.fds[FdKey(s, ran.call.fd) := e] == st.fds;
    var k' := K.AppendStep(k, ran);
    QuietSimulates(k', st, Skip(st, B.AppendWriteUnmodeled));
  }

  lemma NothingMoved(k: K.State, st: State, ran: K.Ran)
    requires Sim(k, st) && ran.pid in st.pidToStream && K.IsTransfer(ran.call) && ran.result == 0 && K.Legal(k, ran)
    ensures Sim(K.TransferStep(k, ran), Dispatch(st, st.pidToStream[ran.pid], K.Traced(ran)))
  {
    hide Sim, Add, Skip;
    TrackedEntry(k, st, ran.pid, ran.call.fd);
    var key := K.ProcFd(ran.pid, ran.call.fd);
    assert k.files[key := k.files[key].(cursor := k.files[key].cursor + 0)] == k.files;
    assert K.TransferStep(k, ran) == k;
    QuietSimulates(k, st, Dispatch(st, st.pidToStream[ran.pid], K.Traced(ran)));
  }

  lemma LseekSimulates(k: K.State, st: State, ran: K.Ran)
    requires Sim(k, st) && ran.pid in st.pidToStream && ran.call.Lseek? && ran.result >= 0 && K.Legal(k, ran)
    ensures Sim(K.Step(k, ran), Dispatch(st, st.pidToStream[ran.pid], K.Traced(ran)))
  {
    hide Sim;
    var s, fd := st.pidToStream[ran.pid], ran.call.fd;
    TrackedEntry(k, st, ran.pid, fd);
    var key := K.ProcFd(ran.pid, fd);
    SetSimulates(k, st, key, k.files[key].(cursor := ran.result, adrift := false),
                 st.fds[FdKey(s, fd)].(cursor := ran.result));
  }

  lemma FsyncSimulates(k: K.State, st: State, ran: K.Ran)
    requires Sim(k, st) && ran.pid in st.pidToStream && ran.call.Fsync? && ran.result >= 0 && K.Legal(k, ran)
    ensures Sim(K.Step(k, ran), Dispatch(st, st.pidToStream[ran.pid], K.Traced(ran)))
  {
    hide Sim, Add, Skip, K.Log;
    var s, fd := st.pidToStream[ran.pid], ran.call.fd;
    TrackedEntry(k, st, ran.pid, fd);
    var f := k.files[K.ProcFd(ran.pid, fd)];
    if f.isDir {
      QuietSimulates(k, st, Skip(st, B.UnresolvedFd));
    } else {
      AddSimulates(k, st, ran.pid, BareOp(ran.t, s, OpFsync).(h := Some(f.serial), dur := ran.dur),
                   K.Did(ran, K.Synced(f.serial)));
    }
  }

  lemma CloseSimulates(k: K.State, st: State, ran: K.Ran)
    requires Sim(k, st) && ran.pid in st.pidToStream && ran.call.Close? && ran.result >= 0 && K.Legal(k, ran)
    ensures Sim(K.Step(k, ran), Dispatch(st, st.pidToStream[ran.pid], K.Traced(ran)))
  {
    hide Sim, Add, K.Log;
    var s, fd := st.pidToStream[ran.pid], ran.call.fd;
    TrackedEntry(k, st, ran.pid, fd);
    var key := K.ProcFd(ran.pid, fd);
    var f := k.files[key];
    ClearSimulates(k, st, key);
    if !f.isDir {
      AddSimulates(k.(files := k.files - {key}), st.(fds := st.fds - {FdKey(s, fd)}), ran.pid,
                   BareOp(ran.t, s, OpClose).(h := Some(f.serial), dur := ran.dur), K.Did(ran, K.Closed(f.serial)));
    }
  }

  // A failed call changes neither side.
  predicate OnlySkips(st: State, after: State) {
    after == st.(skipped := after.skipped, lossy := after.lossy)
  }

  lemma FailedOpenSkips(st: State, s: int, ran: K.Ran)
    requires ran.result < 0 && (ran.call.Open? || ran.call.Creat?)
    ensures OnlySkips(st, Dispatch(st, s, K.Traced(ran)))
  {
    hide Skip, FlagsOf, ResolveAt, OpenFile, DoRW, DoClose, DoFsync, DoLseek, DoStatPath, DoFstat;
  }

  lemma FailedHandleCallSkips(st: State, s: int, ran: K.Ran)
    requires ran.result < 0 && (ran.call.Lseek? || ran.call.Fsync? || ran.call.Close?)
    ensures OnlySkips(st, Dispatch(st, s, K.Traced(ran)))
  {
    hide Skip, Add, HandleOf, DoOpen, DoCreat, DoRW, DoStatPath, DoFstat;
  }

  lemma FailedTransferSkips(st: State, s: int, ran: K.Ran)
    requires ran.result < 0 && K.IsTransfer(ran.call)
    ensures OnlySkips(st, DoRW(st, s, ran.t, K.Shown(ran.call), Some(ran.result), ran.dur))
  {
    hide Skip, Add, Transfer, WithCursor, Noted;
  }

  lemma FailedCallSkips(st: State, s: int, ran: K.Ran)
    requires ran.result < 0
    ensures OnlySkips(st, Dispatch(st, s, K.Traced(ran)))
  {
    hide Skip, DoRW, DoOpen, DoCreat, DoClose, DoFsync, DoLseek, DoStatPath, DoFstat;
    match ran.call {
      case Open(_, _, _) => FailedOpenSkips(st, s, ran);
      case Creat(_) => FailedOpenSkips(st, s, ran);
      case Read(_, _, _) => FailedTransferSkips(st, s, ran);
      case Write(_, _, _, _) => FailedTransferSkips(st, s, ran);
      case Stat(_, _) => StatEffect(st, s, K.Traced(ran));
      case Fstat(_) => StatEffect(st, s, K.Traced(ran));
      case _ => FailedHandleCallSkips(st, s, ran);
    }
  }

  lemma FailureSimulates(k: K.State, st: State, s: int, ran: K.Ran)
    requires Sim(k, st) && ran.result < 0
    ensures Sim(k, Dispatch(st, s, K.Traced(ran)))
  {
    hide Sim, Dispatch;
    FailedCallSkips(st, s, ran);
    QuietSimulates(k, st, Dispatch(st, s, K.Traced(ran)));
  }

  lemma StepSimulates(k: K.State, st: State, ran: K.Ran)
    requires Sim(k, st) && K.Legal(k, ran)
    ensures Sim(K.Step(k, ran), Handle(st, K.Traced(ran)))
  {
    hide Sim, Dispatch, K.Legal, K.OpenStep, K.TransferStep;
    var known := WithStream(st, ran.pid);
    KnownPid(k, st, ran.pid);
    if ran.result < 0 {
      FailureSimulates(k, known, StreamOf(st, ran.pid), ran);
    } else {
      match ran.call {
        case Open(_, _, _) => OpenSimulates(k, known, ran);
        case Read(_, _, _) => TransferSimulates(k, known, ran);
        case Write(_, _, _, _) => TransferSimulates(k, known, ran);
        case Lseek(_, _, _) => LseekSimulates(k, known, ran);
        case Fsync(_) => FsyncSimulates(k, known, ran);
        case Close(_) => CloseSimulates(k, known, ran);
        case Creat(_) => CreatSimulates(k, known, ran);
        case Stat(_, _) => StatSimulates(k, known, ran);
        case Fstat(_) => StatSimulates(k, known, ran);
      }
    }
  }

  // ----- Whole runs -----

  lemma {:induction false} RunSimulates(calls: seq<K.Ran>)
    requires K.Run(calls).Some?
    ensures Sim(K.Run(calls).value, HandleAll(K.TracedAll(calls)))
  {
    if calls != [] {
      var n := |calls| - 1;
      RunSimulates(calls[..n]);
      assert K.TracedAll(calls)[..n] == K.TracedAll(calls[..n]);
      hide Sim, Handle, K.Step;
      StepSimulates(K.Run(calls[..n]).value, HandleAll(K.TracedAll(calls[..n])), calls[n]);
    }
  }

  // For every run the kernel can produce, a process's stream records exactly
  // what it did to which open description, in order and at the true offsets.
  lemma OffsetsAreTheKernels(calls: seq<K.Ran>, pid: int)
    requires K.Run(calls).Some?
    ensures var st := HandleAll(K.TracedAll(calls));
            RecordsAll(st.targets, PidOps(st, pid), K.LogOf(K.Run(calls).value, pid))
  {
    hide HandleAll, Records;
    RunSimulates(calls);
  }

  // ----- A cursor the importer loses -----

  // A file opened for reading and appending, written at its end, and then read on
  // from there.
  const APPENDED: seq<K.Ran> := [
    K.Ran(7, 0, K.Open(AtCwd, "/f", [O_RDWR, O_APPEND]), 3, None),
    K.Ran(7, 1, K.Write(3, 4, None, 100), 4, None),
    K.Ran(7, 2, K.Read(3, 10, None), 5, None)]

  lemma AppendedRuns()
    ensures K.Run(APPENDED).Some?
    ensures var log := K.LogOf(K.Run(APPENDED).value, 7);
            |log| == 2 && log[1].access == K.Moved(OpRead, 0, 104, true, 10, 5)
  {
    var key, file := K.ProcFd(7, 3), K.NewFile("/f", ModeReadWrite, true, 0);
    var one := K.OpenStep(K.BOOT, APPENDED[0]);
    assert one.files == map[key := file] && one.modes == [ModeReadWrite] && |K.LogOf(one, 7)| == 1;
    var two := K.AppendStep(one, APPENDED[1]);
    assert two.files == map[key := file.(cursor := 104, adrift := true)] && two.log == one.log;
    var three := K.TransferStep(two, APPENDED[2]);
    assert |K.LogOf(three, 7)| == 2;
    assert APPENDED[..1][..0] == [] && APPENDED[..2][..1] == APPENDED[..1] && APPENDED[..2][1] == APPENDED[1];
    assert K.Run(APPENDED[..1]) == Some(one);
    hide K.OpenStep, K.AppendStep, K.TransferStep;
    assert K.Run(APPENDED[..2]) == Some(two);
  }

  // The READ was made at 104, and is recorded at the start of the file.
  lemma AppendLosesTheCursor()
    ensures K.Run(APPENDED).Some?
    ensures var ops, log := PidOps(HandleAll(K.TracedAll(APPENDED)), 7), K.LogOf(K.Run(APPENDED).value, 7);
            && |ops| == |log| == 2 && ops[1].kind.OpRead? && ops[1].off == Some(0)
            && log[1].access == K.Moved(OpRead, 0, 104, true, 10, 5)
  {
    AppendedRuns();
    OffsetsAreTheKernels(APPENDED, 7);
    AppendedIsImported();
    hide K.Run, HandleAll, Records;
    assert RecordsAll(HandleAll(K.TracedAll(APPENDED)).targets, PidOps(HandleAll(K.TracedAll(APPENDED)), 7),
                      K.LogOf(K.Run(APPENDED).value, 7));
  }

  lemma OpensToAppend() returns (one: State)
    ensures one == HandleAll(K.TracedAll(APPENDED)[..1])
    ensures one.fds == map[FdKey(0, 3) := FileEntry(0, 0, "/f", true)] && one.pidToStream == map[7 := 0]
    ensures |PidOps(one, 7)| == 1
  {
    var start, tokens := WithStream(EMPTY, 7), [O_RDWR, O_APPEND];
    FlagsAgree(tokens);
    hide FlagsOf;
    one := OpenFile(start, 0, 0, 3, "/f", ModeReadWrite, FlagsOf(tokens).flags, true, None);
    var events := K.TracedAll(APPENDED);
    assert events[..1][..0] == [];
    assert HandleAll(events[..1]) == Handle(EMPTY, events[0]);
  }

  lemma AppendedIsImported()
    ensures var ops := PidOps(HandleAll(K.TracedAll(APPENDED)), 7);
            |ops| == 2 && ops[1].kind.OpRead? && ops[1].off == Some(0)
  {
    var events := K.TracedAll(APPENDED);
    var one := OpensToAppend();
    assert events[..2][..1] == events[..1] && events[..2][1] == events[1];
    var two := Skip(one, B.AppendWriteUnmodeled);
    AppendIsSkipped(one);
    ReadFollows(two);
    hide Handle, Skip;
    assert HandleAll(events[..2]) == two;
    assert HandleAll(events) == Handle(two, events[2]);
  }

  lemma AppendIsSkipped(st: State)
    requires st.fds == map[FdKey(0, 3) := FileEntry(0, 0, "/f", true)] && st.pidToStream == map[7 := 0]
    ensures Handle(st, K.Traced(APPENDED[1])) == Skip(st, B.AppendWriteUnmodeled)
  {
    hide Skip;
  }

  lemma ReadFollows(st: State)
    requires st.fds == map[FdKey(0, 3) := FileEntry(0, 0, "/f", true)] && st.pidToStream == map[7 := 0]
    requires |PidOps(st, 7)| == 1
    ensures var ops := PidOps(Handle(st, K.Traced(APPENDED[2])), 7);
            |ops| == 2 && ops[1].kind.OpRead? && ops[1].off == Some(0)
  {
  }

  // ----- Access -----

  // What was done to an open description is what it was opened for.
  predicate Licensed(modes: seq<Mode>, a: K.Access) {
    match a
    case Opened(serial, _, mode, _) => 0 <= serial < |modes| && modes[serial] == mode
    case Moved(kind, serial, _, _, _, _) =>
      (kind.OpRead? || kind.OpWrite?) && 0 <= serial < |modes| && K.Permits(modes[serial], kind)
    case _ => true
  }

  ghost predicate AllLicensed(k: K.State) {
    && (forall pid, i :: 0 <= i < |K.LogOf(k, pid)| ==> Licensed(k.modes, K.LogOf(k, pid)[i].access))
    && (forall key :: key in k.files && !k.files[key].isDir ==>
          0 <= k.files[key].serial < |k.modes| && k.modes[k.files[key].serial] == k.files[key].mode)
  }

  lemma LogKeepsLicense(k: K.State, pid: int, a: K.Mark)
    requires AllLicensed(k) && Licensed(k.modes, a.access)
    ensures AllLicensed(K.Log(k, pid, a))
  {
    var after := K.Log(k, pid, a);
    forall p, i | 0 <= i < |K.LogOf(after, p)| ensures Licensed(after.modes, K.LogOf(after, p)[i].access) {
      assert K.LogOf(after, p) == K.LogOf(k, p) + if p == pid then [a] else [];
      assert i < |K.LogOf(k, p)| ==> Licensed(k.modes, K.LogOf(k, p)[i].access);
    }
  }

  lemma SetKeepsLicense(k: K.State, key: K.ProcFd, f: K.File)
    requires AllLicensed(k)
    requires !f.isDir ==> 0 <= f.serial < |k.modes| && k.modes[f.serial] == f.mode
    ensures AllLicensed(k.(files := k.files[key := f]))
  {
    var after := k.(files := k.files[key := f]);
    assert forall pid :: K.LogOf(after, pid) == K.LogOf(k, pid);
  }

  lemma ClearKeepsLicense(k: K.State, key: K.ProcFd)
    requires AllLicensed(k)
    ensures AllLicensed(k.(files := k.files - {key}))
  {
    var after := k.(files := k.files - {key});
    assert forall pid :: K.LogOf(after, pid) == K.LogOf(k, pid);
  }

  lemma CountKeepsLicense(k: K.State, mode: Mode)
    requires AllLicensed(k)
    ensures AllLicensed(k.(modes := k.modes + [mode]))
  {
    var after := k.(modes := k.modes + [mode]);
    forall pid, i | 0 <= i < |K.LogOf(after, pid)| ensures Licensed(after.modes, K.LogOf(after, pid)[i].access) {
      assert Licensed(k.modes, K.LogOf(k, pid)[i].access);
    }
  }

  lemma OpenKeepsLicense(k: K.State, ran: K.Ran, path: string, mode: Mode, how: K.Opening)
    requires AllLicensed(k)
    ensures AllLicensed(K.OpenFile(k, ran, path, mode, how))
  {
    hide AllLicensed;
    CountKeepsLicense(k, mode);
    var counted := k.(modes := k.modes + [mode]);
    var key, f := K.ProcFd(ran.pid, ran.result), K.NewFile(path, mode, how.append, |k.modes|);
    SetKeepsLicense(counted, key, f);
    LogKeepsLicense(counted.(files := counted.files[key := f]), ran.pid,
                    K.Did(ran, K.Opened(|k.modes|, path, mode, how)));
  }

  lemma TransferKeepsLicense(k: K.State, ran: K.Ran)
    requires AllLicensed(k) && K.IsTransfer(ran.call) && ran.result >= 0 && K.Legal(k, ran)
    ensures AllLicensed(K.TransferStep(k, ran))
  {
    var key := K.ProcFd(ran.pid, ran.call.fd);
    var f := k.files[key];
    assert 0 <= f.serial < |k.modes| && k.modes[f.serial] == f.mode;
    hide AllLicensed, K.Log;
    if ran.call.Write? && f.append {
      SetKeepsLicense(k, key, f.(cursor := ran.call.eof + ran.result, adrift := true));
    } else {
      var sequential := ran.call.at.None?;
      var moved := if sequential then k.(files := k.files[key := f.(cursor := f.cursor + ran.result)]) else k;
      SetKeepsLicense(k, key, f.(cursor := f.cursor + ran.result));
      var off := if sequential then f.cursor else ran.call.at.value;
      LogKeepsLicense(moved, ran.pid, K.Did(ran, K.MoveOf(ran, f.serial, off, sequential && f.adrift)));
    }
  }

  lemma StepKeepsLicense(k: K.State, ran: K.Ran)
    requires AllLicensed(k) && K.Legal(k, ran)
    ensures AllLicensed(K.Step(k, ran))
  {
    if ran.result >= 0 {
      match ran.call {
        case Open(dirfd, path, flags) =>
          var full := K.FullPath(k, ran.pid, dirfd, path);
          SetKeepsLicense(k, K.ProcFd(ran.pid, ran.result), K.Directory(full));
          OpenKeepsLicense(k, ran, full, K.AccessMode(flags), K.Asked(flags));
        case Creat(path) => OpenKeepsLicense(k, ran, path, ModeWrite, K.CREATING);
        case Read(_, _, _) => TransferKeepsLicense(k, ran);
        case Write(_, _, _, _) => TransferKeepsLicense(k, ran);
        case Lseek(fd, _, _) =>
          var key := K.ProcFd(ran.pid, fd);
          SetKeepsLicense(k, key, k.files[key].(cursor := ran.result, adrift := false));
        case Fsync(fd) => LogKeepsLicense(k, ran.pid, K.Did(ran, K.Synced(k.files[K.ProcFd(ran.pid, fd)].serial)));
        case Close(fd) =>
          var key := K.ProcFd(ran.pid, fd);
          ClearKeepsLicense(k, key);
          LogKeepsLicense(k.(files := k.files - {key}), ran.pid, K.Did(ran, K.Closed(k.files[key].serial)));
        case Stat(dirfd, path) =>
          LogKeepsLicense(k, ran.pid, K.Did(ran, K.Examined(K.ExaminedPath(k, ran.pid, dirfd, path))));
        case Fstat(fd) =>
          LogKeepsLicense(k, ran.pid, K.Did(ran, K.Examined(k.files[K.ProcFd(ran.pid, fd)].path)));
      }
    }
  }

  lemma {:induction false} RunIsLicensed(calls: seq<K.Ran>)
    requires K.Run(calls).Some?
    ensures AllLicensed(K.Run(calls).value)
  {
    if calls != [] {
      hide AllLicensed, K.Step;
      RunIsLicensed(calls[..|calls|-1]);
      StepKeepsLicense(K.Run(calls[..|calls|-1]).value, calls[|calls|-1]);
    } else {
      BootIsLicensed();
    }
  }

  lemma BootIsLicensed()
    ensures AllLicensed(K.BOOT)
  {
  }

  // What a recorded operation says of the modes, once it records an access.
  predicate WithinModes(modes: seq<Mode>, op: Op) {
    && (op.kind.OpOpen? ==> op.h.Some? && 0 <= op.h.value < |modes| && op.mode == modes[op.h.value])
    && (op.kind.OpRead? || op.kind.OpWrite? ==>
          op.h.Some? && 0 <= op.h.value < |modes| && K.Permits(modes[op.h.value], op.kind))
  }

  lemma RecordedWithinModes(targets: seq<TargetInfo>, modes: seq<Mode>, op: Op, m: K.Mark)
    requires Records(targets, op, m) && Licensed(modes, m.access)
    ensures WithinModes(modes, op)
  {
  }

  // Every recorded operation of a run stays within the access its file was opened
  // for.
  lemma StreamsWithinModes(calls: seq<K.Ran>, s: int, op: Op)
    requires K.Run(calls).Some?
    requires var st := HandleAll(K.TracedAll(calls)); s in st.streams && op in st.streams[s]
    ensures WithinModes(K.Run(calls).value.modes, op)
  {
    RunSimulates(calls);
    RunIsLicensed(calls);
    hide HandleAll, K.Run, Records, Licensed, WithinModes;
    var st, k := HandleAll(K.TracedAll(calls)), K.Run(calls).value;
    var pid :| pid in st.pidToStream && st.pidToStream[pid] == s;
    assert RecordsAll(st.targets, PidOps(st, pid), K.LogOf(k, pid));
    var i :| 0 <= i < |PidOps(st, pid)| && PidOps(st, pid)[i] == op;
    assert Licensed(k.modes, K.LogOf(k, pid)[i].access);
    RecordedWithinModes(st.targets, k.modes, op, K.LogOf(k, pid)[i]);
  }
}
