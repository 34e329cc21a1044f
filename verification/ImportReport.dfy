// What the importer reports of the calls it did not record (pkg/importer/strace/
// parse.go:247-525): for a run of the kernel, exactly the calls that failed, moved
// nothing, or went to a descriptor it does not track, each under its own reason.
module ImportReport {
  import opened Trace
  import opened FDTable
  import opened StraceSpec
  import opened StraceTheorems
  import opened KernelSimulation
  import B = Builder
  import K = Kernel

  // ----- Nothing is tracked that the kernel does not hold -----

  ghost predicate Mirrors(k: K.State, st: State) {
    && (forall pid, fd :: pid in st.pidToStream && FdKey(st.pidToStream[pid], fd) in st.fds ==>
          K.ProcFd(pid, fd) in k.files)
    && (forall key :: key in st.fds ==> key.stream < st.nextStream)
  }

  lemma KnownPidMirrors(k: K.State, st: State, pid: int)
    requires Mirrors(k, st)
    ensures Mirrors(k, WithStream(st, pid))
  {
  }

  // Both sides added, removed, or kept one descriptor of one process.
  lemma OpenMirrors(k: K.State, st: State, k': K.State, st': State, pid: int, fd: int)
    requires Mirrors(k, st) && PidsApart(st) && pid in st.pidToStream
    requires st'.pidToStream == st.pidToStream && st'.nextStream == st.nextStream
    requires st'.fds.Keys == st.fds.Keys + {FdKey(st.pidToStream[pid], fd)}
    requires k'.files.Keys == k.files.Keys + {K.ProcFd(pid, fd)}
    ensures Mirrors(k', st')
  {
    forall p, x | p in st'.pidToStream && FdKey(st'.pidToStream[p], x) in st'.fds ensures K.ProcFd(p, x) in k'.files {
      assert FdKey(st'.pidToStream[p], x) in st'.fds.Keys;
      if FdKey(st'.pidToStream[p], x) !in st.fds {
        assert p == pid && x == fd;
      }
      assert K.ProcFd(p, x) in k'.files.Keys;
    }
    forall key | key in st'.fds ensures key.stream < st'.nextStream {
      assert key in st'.fds.Keys;
    }
  }

  lemma CloseMirrors(k: K.State, st: State, k': K.State, st': State, pid: int, fd: int)
    requires Mirrors(k, st) && pid in st.pidToStream
    requires st'.pidToStream == st.pidToStream && st'.nextStream == st.nextStream
    requires st'.fds.Keys == st.fds.Keys - {FdKey(st.pidToStream[pid], fd)}
    requires k'.files.Keys == k.files.Keys - {K.ProcFd(pid, fd)}
    ensures Mirrors(k', st')
  {
    forall p, x | p in st'.pidToStream && FdKey(st'.pidToStream[p], x) in st'.fds ensures K.ProcFd(p, x) in k'.files {
      assert FdKey(st'.pidToStream[p], x) in st'.fds.Keys;
      assert FdKey(st.pidToStream[p], x) in st.fds;
      assert K.ProcFd(p, x) in k'.files.Keys;
    }
    forall key | key in st'.fds ensures key.stream < st'.nextStream {
      assert key in st'.fds.Keys;
    }
  }

  lemma QuietMirrors(k: K.State, st: State, k': K.State, st': State)
    requires Mirrors(k, st) && st'.pidToStream == st.pidToStream && st'.nextStream == st.nextStream
    requires st'.fds.Keys == st.fds.Keys && k'.files.Keys == k.files.Keys
    ensures Mirrors(k', st')
  {
    forall p, x | p in st'.pidToStream && FdKey(st'.pidToStream[p], x) in st'.fds ensures K.ProcFd(p, x) in k'.files {
      assert FdKey(st'.pidToStream[p], x) in st'.fds.Keys;
      assert FdKey(st.pidToStream[p], x) in st.fds;
      assert K.ProcFd(p, x) in k'.files.Keys;
    }
    forall key | key in st'.fds ensures key.stream < st'.nextStream {
      assert key in st'.fds.Keys;
    }
  }

  // ----- Why a call of the kernel's is not recorded -----

  predicate HoldsFile(k: K.State, pid: int, fd: int) {
    K.ProcFd(pid, fd) in k.files && !k.files[K.ProcFd(pid, fd)].isDir
  }

  // None for a call that is recorded, or leaves nothing to record: a seek, and the
  // opening and closing of a directory.
  function Lost(k: K.State, ran: K.Ran): Option<B.Reason> {
    match ran.call
    case Open(_, _, _) => if ran.result < 0 then Some(B.FailedOpen) else None
    case Creat(_) => if ran.result < 0 then Some(B.FailedOpen) else None
    case Read(fd, _, _) =>
      if !HoldsFile(k, ran.pid, fd) then Some(B.UnresolvedFd)
      else if ran.result < 0 then Some(B.FailedSyscall)
      else if ran.result == 0 then Some(B.EofRead)
      else None
    case Write(fd, _, _, _) =>
      if !HoldsFile(k, ran.pid, fd) then Some(B.UnresolvedFd)
      else if ran.result <= 0 then Some(B.FailedSyscall)
      else if k.files[K.ProcFd(ran.pid, fd)].append then Some(B.AppendWriteUnmodeled)
      else None
    case Lseek(_, _, _) => None
    case Fsync(fd) =>
      if ran.result < 0 then Some(B.FailedSyscall)
      else if !HoldsFile(k, ran.pid, fd) then Some(B.UnresolvedFd)
      else None
    case _ => if ran.result < 0 then Some(B.FailedSyscall) else None
  }

  function CountOf(counts: map<B.Reason, int>, reason: B.Reason): int {
    if reason in counts then counts[reason] else 0
  }

  // How many calls of a run are lost for a reason.
  function LostCount(calls: seq<K.Ran>, reason: B.Reason): nat
    requires K.Run(calls).Some?
  {
    if calls == [] then 0
    else
      var front, last := calls[..|calls|-1], calls[|calls|-1];
      LostCount(front, reason) + if Lost(K.Run(front).value, last) == Some(reason) then 1 else 0
  }

  // ----- One call -----

  // What one call did to the reported counts and to the tracked descriptors.
  predicate Reports(st: State, after: State, lost: Option<B.Reason>) {
    && after.lossy == st.lossy && after.pidToStream == st.pidToStream && after.nextStream == st.nextStream
    && after.skipped == if lost.Some? then B.Counted(st.skipped, lost.value) else st.skipped
  }

  lemma EntryOrNone(k: K.State, st: State, pid: int, fd: int)
    requires Sim(k, st) && Mirrors(k, st) && pid in st.pidToStream
    ensures HoldsFile(k, pid, fd) <==>
              var e := LookUp(st.fds, st.pidToStream[pid], fd); e.Some? && e.value.hasHandle
    ensures HoldsFile(k, pid, fd) ==>
              LookUp(st.fds, st.pidToStream[pid], fd).value.appendMode == k.files[K.ProcFd(pid, fd)].append
    ensures K.ProcFd(pid, fd) in k.files <==> LookUp(st.fds, st.pidToStream[pid], fd).Some?
  {
    if K.ProcFd(pid, fd) in k.files {
      TrackedEntry(k, st, pid, fd);
    }
    hide Sim;
  }

  // Why a transfer by a tracked file, or by none, is not recorded.
  function LostTransfer(ran: K.Ran, held: bool, append: bool): Option<B.Reason>
    requires K.IsTransfer(ran.call)
  {
    if !held then Some(B.UnresolvedFd)
    else if ran.result == 0 && ran.call.Read? then Some(B.EofRead)
    else if ran.result <= 0 then Some(B.FailedSyscall)
    else if ran.call.Write? && append then Some(B.AppendWriteUnmodeled)
    else None
  }

  // A transfer that is not recorded is counted.
  lemma TransferSkips(st: State, s: int, ran: K.Ran, held: bool, append: bool)
    requires K.IsTransfer(ran.call) && LostTransfer(ran, held, append).Some?
    requires held <==> var e := LookUp(st.fds, s, ran.call.fd); e.Some? && e.value.hasHandle
    requires held ==> LookUp(st.fds, s, ran.call.fd).value.appendMode == append
    ensures DoRW(st, s, ran.t, K.Shown(ran.call), Some(ran.result), ran.dur)
            == Skip(st, LostTransfer(ran, held, append).value)
  {
    hide Add, Transfer, Skip, WithCursor, Noted;
  }

  lemma TransferAdds(st: State, s: int, ran: K.Ran)
    requires K.IsTransfer(ran.call) && ran.result > 0
    requires var e := LookUp(st.fds, s, ran.call.fd);
             e.Some? && e.value.hasHandle && !(ran.call.Write? && e.value.appendMode)
    ensures var e := LookUp(st.fds, s, ran.call.fd).value;
            var moved := if ran.call.at.Some? then st
                         else st.(fds := WithCursor(st.fds, s, ran.call.fd, e.cursor + ran.result));
            var off := if ran.call.at.Some? then ran.call.at.value else e.cursor;
            DoRW(st, s, ran.t, K.Shown(ran.call), Some(ran.result), ran.dur)
            == Add(moved, Transfer(s, ran.t, K.Shown(ran.call), e, off, ran.result, ran.dur))
  {
    assert Noted(st, K.Shown(ran.call)) == st;
    hide Add, Transfer, Skip, WithCursor, Noted, LookUp;
  }

  lemma CursorKeepsKeys(fds: map<FdKey, EntryState>, s: int, fd: int, pos: int)
    ensures WithCursor(fds, s, fd, pos).Keys == fds.Keys
  {
  }

  lemma TransferEffect(st: State, s: int, ran: K.Ran, held: bool, append: bool)
    requires K.IsTransfer(ran.call) && (ran.result > 0 ==> held)
    requires held <==> var e := LookUp(st.fds, s, ran.call.fd); e.Some? && e.value.hasHandle
    requires held ==> LookUp(st.fds, s, ran.call.fd).value.appendMode == append
    ensures var after := DoRW(st, s, ran.t, K.Shown(ran.call), Some(ran.result), ran.dur);
            Reports(st, after, LostTransfer(ran, held, append)) && after.fds.Keys == st.fds.Keys
  {
    hide DoRW, Add, Transfer, WithCursor, LookUp;
    if LostTransfer(ran, held, append).None? {
      TransferAdds(st, s, ran);
      CursorKeepsKeys(st.fds, s, ran.call.fd, LookUp(st.fds, s, ran.call.fd).value.cursor + ran.result);
    } else {
      TransferSkips(st, s, ran, held, append);
    }
  }

  lemma TransferReports(k: K.State, st: State, ran: K.Ran)
    requires Sim(k, st) && Mirrors(k, st) && ran.pid in st.pidToStream && K.Legal(k, ran) && K.IsTransfer(ran.call)
    ensures var after := Dispatch(st, st.pidToStream[ran.pid], K.Traced(ran));
            Reports(st, after, Lost(k, ran)) && after.fds.Keys == st.fds.Keys
  {
    EntryOrNone(k, st, ran.pid, ran.call.fd);
    var held := HoldsFile(k, ran.pid, ran.call.fd);
    assert ran.result > 0 ==> held;
    var append := held && k.files[K.ProcFd(ran.pid, ran.call.fd)].append;
    assert Lost(k, ran) == LostTransfer(ran, held, append);
    hide Sim, Mirrors, HoldsFile, DoRW, DoOpen, DoCreat, DoClose, DoFsync, DoLseek, DoStatPath, DoFstat, K.Legal;
    hide Lost, LostTransfer;
    TransferEffect(st, st.pidToStream[ran.pid], ran, held, append);
  }

  lemma TrackedFileReports(st: State, s: int, t: int, fd: int, path: string, mode: Mode, flags: seq<string>,
                           isAppend: bool, dur: Option<nat>)
    ensures var after := OpenFile(st, s, t, fd, path, mode, flags, isAppend, dur);
            Reports(st, after, None) && after.fds.Keys == st.fds.Keys + {FdKey(s, fd)}
  {
    hide Add;
  }

  lemma OpenReports(k: K.State, st: State, ran: K.Ran)
    requires Sim(k, st) && ran.pid in st.pidToStream && K.Legal(k, ran) && (ran.call.Open? || ran.call.Creat?)
    ensures var s := st.pidToStream[ran.pid]; var after := Dispatch(st, s, K.Traced(ran));
            && Reports(st, after, Lost(k, ran))
            && after.fds.Keys == st.fds.Keys + if ran.result < 0 then {} else {FdKey(s, ran.result)}
  {
    hide Sim, FlagsOf, ResolveAt, OpenFile, K.FullPath, DoRW, DoClose, DoFsync, DoLseek, DoStatPath, DoFstat;
    var s := st.pidToStream[ran.pid];
    if ran.call.Creat? {
      TrackedFileReports(st, s, ran.t, ran.result, ran.call.path, ModeWrite, ["create", "trunc"], false, ran.dur);
    } else if ran.result >= 0 {
      PathAgrees(k, st, ran.pid, ran.call.dirfd, ran.call.path);
      var path, f := K.FullPath(k, ran.pid, ran.call.dirfd, ran.call.path), FlagsOf(ran.call.flags);
      TrackedFileReports(st, s, ran.t, ran.result, path, f.mode, f.flags, f.isAppend, ran.dur);
    }
  }

  lemma CloseReports(k: K.State, st: State, ran: K.Ran)
    requires ran.pid in st.pidToStream && K.Legal(k, ran) && ran.call.Close?
    ensures var s := st.pidToStream[ran.pid]; var after := Dispatch(st, s, K.Traced(ran));
            && Reports(st, after, Lost(k, ran))
            && after.fds.Keys == st.fds.Keys - if ran.result < 0 then {} else {FdKey(s, ran.call.fd)}
  {
    hide Add;
  }

  lemma SyncReports(k: K.State, st: State, ran: K.Ran)
    requires Sim(k, st) && Mirrors(k, st) && ran.pid in st.pidToStream && ran.call.Fsync?
    ensures var after := Dispatch(st, st.pidToStream[ran.pid], K.Traced(ran));
            Reports(st, after, Lost(k, ran)) && after.fds.Keys == st.fds.Keys
  {
    EntryOrNone(k, st, ran.pid, ran.call.fd);
    FsyncReports(st, st.pidToStream[ran.pid], ran, HoldsFile(k, ran.pid, ran.call.fd));
    hide Sim, Mirrors, HoldsFile, LookUp, DoFsync, DoOpen, DoCreat, DoRW, DoClose, DoLseek, DoStatPath, DoFstat,
         Reports;
  }

  lemma FsyncReports(st: State, s: int, ran: K.Ran, held: bool)
    requires ran.call.Fsync?
    requires held <==> var e := LookUp(st.fds, s, ran.call.fd); e.Some? && e.value.hasHandle
    ensures var after := DoFsync(st, s, ran.t, Some(ran.call.fd), Some(ran.result), ran.dur);
            && Reports(st, after, if ran.result < 0 then Some(B.FailedSyscall)
                                  else if !held then Some(B.UnresolvedFd) else None)
            && after.fds.Keys == st.fds.Keys
  {
    hide LookUp;
  }

  lemma SeekReports(k: K.State, st: State, ran: K.Ran)
    requires ran.pid in st.pidToStream && ran.call.Lseek?
    ensures var after := Dispatch(st, st.pidToStream[ran.pid], K.Traced(ran));
            Reports(st, after, Lost(k, ran)) && after.fds.Keys == st.fds.Keys
  {
    CursorKeepsKeys(st.fds, st.pidToStream[ran.pid], ran.call.fd, ran.result);
    hide DoOpen, DoCreat, DoRW, DoClose, DoFsync, DoStatPath, DoFstat, WithCursor;
  }

  lemma StatReports(k: K.State, st: State, ran: K.Ran)
    requires Sim(k, st) && ran.pid in st.pidToStream && K.Legal(k, ran) && (ran.call.Stat? || ran.call.Fstat?)
    ensures var after := Dispatch(st, st.pidToStream[ran.pid], K.Traced(ran));
            Reports(st, after, Lost(k, ran)) && after.fds == st.fds
  {
    hide Sim, ResolveAt, FdTarget, Add, K.FullPath, K.ExaminedPath, K.Legal;
    if ran.result >= 0 {
      StatPathAgrees(k, st, ran);
      StatEffect(st, st.pidToStream[ran.pid], K.Traced(ran));
      hide Dispatch, StatTarget;
    }
  }

  lemma KernelKeys(k: K.State, ran: K.Ran)
    requires K.Legal(k, ran)
    ensures K.Step(k, ran).files.Keys ==
            if ran.result < 0 then k.files.Keys
            else if ran.call.Open? || ran.call.Creat? then k.files.Keys + {K.ProcFd(ran.pid, ran.result)}
            else if ran.call.Close? then k.files.Keys - {K.ProcFd(ran.pid, ran.call.fd)}
            else k.files.Keys
  {
    hide K.FullPath, K.ExaminedPath, K.Asked, K.AccessMode;
  }

  lemma DispatchReports(k: K.State, st: State, ran: K.Ran)
    requires Sim(k, st) && Mirrors(k, st) && ran.pid in st.pidToStream && K.Legal(k, ran)
    ensures var after := Dispatch(st, st.pidToStream[ran.pid], K.Traced(ran));
            Reports(st, after, Lost(k, ran)) && Mirrors(K.Step(k, ran), after)
  {
    hide Dispatch, Mirrors, Lost, K.Step, K.Legal, PidsApart, FilesTracked, LogsMatch, TargetsInterned;
    var after, k' := Dispatch(st, st.pidToStream[ran.pid], K.Traced(ran)), K.Step(k, ran);
    KernelKeys(k, ran);
    if ran.call.Open? || ran.call.Creat? {
      OpenReports(k, st, ran);
      if ran.result < 0 {
        QuietMirrors(k, st, k', after);
      } else {
        OpenMirrors(k, st, k', after, ran.pid, ran.result);
      }
    } else if ran.call.Close? {
      CloseReports(k, st, ran);
      if ran.result < 0 {
        QuietMirrors(k, st, k', after);
      } else {
        CloseMirrors(k, st, k', after, ran.pid, ran.call.fd);
      }
    } else {
      if K.IsTransfer(ran.call) {
        TransferReports(k, st, ran);
      } else if ran.call.Fsync? {
        SyncReports(k, st, ran);
      } else if ran.call.Lseek? {
        SeekReports(k, st, ran);
      } else {
        StatReports(k, st, ran);
      }
      QuietMirrors(k, st, k', after);
    }
  }

  // ----- Whole runs -----

  lemma {:induction false} RunMirrors(calls: seq<K.Ran>)
    requires K.Run(calls).Some?
    ensures Mirrors(K.Run(calls).value, HandleAll(K.TracedAll(calls)))
  {
    if calls != [] {
      var front, last := calls[..|calls|-1], calls[|calls|-1];
      assert calls == front + [last];
      assert K.Run(front).Some? && K.Legal(K.Run(front).value, last);
      hide HandleAll, Mirrors, K.Run, K.Legal, K.Step;
      RunMirrors(front);
      StepReports(front, last);
    }
  }

  lemma StepReports(front: seq<K.Ran>, last: K.Ran)
    requires K.Run(front).Some? && K.Legal(K.Run(front).value, last)
    requires Mirrors(K.Run(front).value, HandleAll(K.TracedAll(front)))
    ensures var k, st := K.Run(front).value, HandleAll(K.TracedAll(front));
            var after := HandleAll(K.TracedAll(front + [last]));
            && K.Run(front + [last]) == Some(K.Step(k, last))
            && Mirrors(K.Step(k, last), after)
            && after.lossy == st.lossy
            && after.skipped == if Lost(k, last).Some? then B.Counted(st.skipped, Lost(k, last).value) else st.skipped
  {
    hide Sim, Mirrors, Dispatch, Lost, K.Legal, K.Step;
    var k, st := K.Run(front).value, HandleAll(K.TracedAll(front));
    assert (front + [last])[..|front|] == front;
    assert K.TracedAll(front + [last])[..|front|] == K.TracedAll(front);
    RunSimulates(front);
    KnownPid(k, st, last.pid);
    KnownPidMirrors(k, st, last.pid);
    DispatchReports(k, WithStream(st, last.pid), last);
  }

  // The report of a run counts, for every reason, the calls lost for it, and
  // records no loss in those it kept.
  lemma {:induction false} ReportCountsTheRun(calls: seq<K.Ran>, reason: B.Reason)
    requires K.Run(calls).Some?
    ensures var st := HandleAll(K.TracedAll(calls));
            CountOf(st.skipped, reason) == LostCount(calls, reason) && st.lossy == map[]
  {
    hide Lost, K.Step;
    if calls != [] {
      var front, last := calls[..|calls|-1], calls[|calls|-1];
      assert calls == front + [last];
      assert K.Run(front).Some? && K.Legal(K.Run(front).value, last);
      hide HandleAll, Mirrors, K.Run, K.Legal;
      ReportCountsTheRun(front, reason);
      RunMirrors(front);
      StepReports(front, last);
    }
  }

  // ----- Calls no run of the kernel shows -----

  // An argument is missing or does not parse.
  predicate Garbled(call: Call) {
    match call
    case OpenCall(enoughArgs, _, path, _) => !enoughArgs || path.None?
    case CreatCall(enoughArgs, path) => !enoughArgs || path.None?
    case RwCall(kind, fd, _, position) =>
      (kind.OpRead? || kind.OpWrite?) && (fd.None? || position.MissingOffset? || position.BadOffset?)
    case FsyncCall(fd) => fd.None?
    case StatCall(enoughArgs, _, path) => !enoughArgs || path.None?
    case FstatCall(enoughArgs, _) => !enoughArgs
    case _ => false
  }

  // A transfer is by a tracked file, and not an appending write.
  predicate ByOpenFile(st: State, s: int, call: Call) {
    call.RwCall? && call.fd.Some? ==>
      var e := LookUp(st.fds, s, call.fd.value);
      e.Some? && e.value.hasHandle && !(call.kind.OpWrite? && e.value.appendMode)
  }

  // Nothing is recorded of such a call, and no cursor or descriptor moves; if it
  // succeeded, it is counted as unparsed.
  lemma GarbledIsSkipped(st: State, s: int, ev: Event)
    requires Garbled(ev.call)
    ensures var after := Dispatch(st, s, ev);
            && after == st.(skipped := after.skipped, lossy := after.lossy)
            && (ev.ret.Some? && ev.ret.value > 0 && ByOpenFile(st, s, ev.call) ==>
                  after.skipped == B.Counted(st.skipped, B.UnparsedLine))
  {
    if ev.call.RwCall? {
      GarbledTransferIsSkipped(st, s, ev.t, ev.call, ev.ret, ev.dur);
    }
    hide Garbled, LookUp, DoRW, OpenFile, StatFile, FlagsOf, ResolveAt, FdTarget;
    GarbledNames(ev.call);
  }

  lemma GarbledNames(call: Call)
    requires Garbled(call)
    ensures call.OpenCall? || call.CreatCall? || call.StatCall? ==> !call.enoughArgs || call.path.None?
    ensures call.RwCall? ==> call.kind.OpRead? || call.kind.OpWrite?
    ensures call.FsyncCall? ==> call.fd.None?
    ensures call.FstatCall? ==> !call.enoughArgs
    ensures !call.CloseCall? && !call.LseekCall? && !call.OtherCall?
  {
  }

  lemma GarbledTransferIsSkipped(st: State, s: int, t: int, call: Call, ret: Option<int>, dur: Option<nat>)
    requires Garbled(call) && call.RwCall?
    ensures var after := DoRW(st, s, t, call, ret, dur);
            && after == st.(skipped := after.skipped, lossy := after.lossy)
            && (ret.Some? && ret.value > 0 && ByOpenFile(st, s, call) ==>
                  after.skipped == B.Counted(st.skipped, B.UnparsedLine))
  {
    var reason := GarbledTransferSkips(st, s, t, call, ret, dur);
    hide DoRW, Garbled, ByOpenFile;
  }

  lemma GarbledTransferSkips(st: State, s: int, t: int, call: Call, ret: Option<int>, dur: Option<nat>)
      returns (reason: B.Reason)
    requires Garbled(call) && call.RwCall?
    ensures DoRW(st, s, t, call, ret, dur) in {Skip(st, reason), Skip(Noted(st, call), reason)}
    ensures ret.Some? && ret.value > 0 && ByOpenFile(st, s, call) ==> reason == B.UnparsedLine
  {
    hide LookUp, Transfer, WithCursor, Noted, Add, Skip;
    if call.fd.None? {
      return B.UnparsedLine;
    }
    assert call.position.MissingOffset? || call.position.BadOffset?;
    hide Garbled;
    var e := LookUp(st.fds, s, call.fd.value);
    reason := if e.None? || !e.value.hasHandle then B.UnresolvedFd
              else if ret.None? || ret.value < 0 then B.FailedSyscall
              else if ret.value == 0 then if call.kind.OpRead? then B.EofRead else B.FailedSyscall
              else if call.kind.OpWrite? && e.value.appendMode then B.AppendWriteUnmodeled
              else B.UnparsedLine;
  }

  // What names a file through a descriptor nothing is known of is counted, and
  // nothing else.
  lemma UnresolvedIsSkipped(st: State, s: int, ev: Event)
    requires !Garbled(ev.call) && ev.ret.Some? && ev.ret.value >= 0
    requires match ev.call
             case OpenCall(_, dirfd, path, _) => ResolveAt(st, s, dirfd, path.value).None?
             case StatCall(_, dirfd, path) =>
               && dirfd.AtFd? && (path.value == "" || !FromRoot(path.value))
               && FdTarget(st, s, Fd(dirfd.fd, dirfd.decoration)).None?
             case FstatCall(_, file) => FdTarget(st, s, file).None?
             case _ => false
    ensures var direct := ev.call.FstatCall? || (ev.call.StatCall? && ev.call.path == Some(""));
            Dispatch(st, s, ev)
            == st.(skipped := B.Counted(st.skipped, if direct then B.UnresolvedFd else B.UnresolvedDirfd))
  {
    hide LookUp, OpenFile, StatFile, FlagsOf;
  }

  // A read that does not say how much it asked for is recorded as asking for what
  // it got, and reported as such.
  lemma UnknownRequestIsReported(st: State, s: int, ev: Event)
    requires ev.call.RwCall? && ev.call.kind.OpRead? && ev.call.fd.Some? && ev.call.count.None?
    requires ev.call.position.At? || ev.call.position.Sequential?
    requires ev.ret.Some? && ev.ret.value > 0 && ByOpenFile(st, s, ev.call)
    ensures var after := Dispatch(st, s, ev); var mine := StreamOps(after, s);
            && after.lossy == B.Counted(st.lossy, B.RequestedLenUnobservable) && after.skipped == st.skipped
            && mine != [] && mine[..|mine|-1] == StreamOps(st, s)
            && mine[|mine|-1].len == ev.ret && mine[|mine|-1].ret.None?
  {
    hide DoRW, Transfer, Noted, LookUp, WithCursor;
    var op, fds := ReadIsAdded(st, s, ev.t, ev.call, ev.ret, ev.dur);
    var noted := Noted(st, ev.call);
    assert StreamOps(Add(noted.(fds := fds), op), s) == StreamOps(st, s) + [op];
  }

  lemma ReadIsAdded(st: State, s: int, t: int, call: Call, ret: Option<int>, dur: Option<nat>)
      returns (op: Op, fds: map<FdKey, EntryState>)
    requires call.RwCall? && call.kind.OpRead? && call.fd.Some? && call.count.None?
    requires call.position.At? || call.position.Sequential?
    requires ret.Some? && ret.value > 0 && ByOpenFile(st, s, call)
    ensures DoRW(st, s, t, call, ret, dur) == Add(Noted(st, call).(fds := fds), op)
    ensures Noted(st, call).lossy == B.Counted(st.lossy, B.RequestedLenUnobservable)
    ensures op.s == s && op.len == ret && op.ret.None?
  {
    assert Noted(st, call).fds == st.fds;
    hide Noted, Add, WithCursor, LookUp;
    var fd := call.fd.value;
    var e := LookUp(st.fds, s, fd).value;
    var noted := Noted(st, call);
    fds := if call.position.At? then noted.fds else WithCursor(st.fds, s, fd, e.cursor + ret.value);
    op := Transfer(s, t, call, e, if call.position.At? then call.position.off else e.cursor, ret.value, dur);
    assert op.s == s && op.len == ret && op.ret.None?;
    hide Transfer;
  }
}
