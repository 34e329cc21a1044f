// The strace importer on already tokenised calls (pkg/importer/strace/parse.go):
// what each handler does, as a function of the importer's state.
module StraceSpec {
  import opened Trace
  import opened FDTable
  import B = Builder

  // ----- Tokenised calls -----

  datatype Dirfd = NoDirfd | AtCwd | AtFd(fd: int, decoration: string) | BadDirfd

  // The offset argument of pread and pwrite; read and write have none.
  datatype Position = Sequential | MissingOffset | BadOffset | At(off: int)

  datatype FdArg = Fd(fd: int, decoration: string) | NotFd

  // One name of an open call's flag argument, split at the bars.
  datatype FlagToken =
    | O_WRONLY | O_RDWR | O_DIRECT | O_CREAT | O_TRUNC | O_APPEND | O_SYNC | O_DSYNC | O_DIRECTORY
    | OtherFlag(name: string)

  // None stands for an argument or result that does not parse.
  datatype Call =
    | OpenCall(enoughArgs: bool, dirfd: Dirfd, path: Option<string>, flagTokens: seq<FlagToken>)
    | CreatCall(enoughArgs: bool, path: Option<string>)
    | RwCall(kind: OpKind, fd: Option<int>, count: Option<int>, position: Position)
    | CloseCall(fd: Option<int>)
    | FsyncCall(fd: Option<int>)
    | LseekCall(fd: Option<int>)
    | StatCall(enoughArgs: bool, dirfd: Dirfd, path: Option<string>)
    | FstatCall(enoughArgs: bool, file: FdArg)
    | OtherCall

  datatype Event = Event(pid: int, t: int, call: Call, ret: Option<int>, dur: Option<nat>)

  // ----- The importer's state -----

  datatype State = State(
    fds: map<FdKey, EntryState>, nextHandle: int,
    pidToStream: map<int, int>, nextStream: int,
    targets: seq<TargetInfo>, targetIdx: map<string, int>,
    streams: map<int, seq<Op>>,
    skipped: map<B.Reason, int>, lossy: map<B.Reason, int>)

  const EMPTY := State(map[], 0, map[], 0, [], map[], map[], map[], map[])

  function Skip(st: State, reason: B.Reason): (r: State)
    ensures r == st.(skipped := r.skipped)
  {
    st.(skipped := B.Counted(st.skipped, reason))
  }

  function Add(st: State, op: Op): (r: State)
    ensures r == st.(streams := r.streams)
  {
    st.(streams := B.Appended(st.streams, op))
  }

  // Only a new process changes the numbering of the streams.
  predicate SameStreams(st: State, after: State) {
    after.pidToStream == st.pidToStream && after.nextStream == st.nextStream
  }

  function Intern(st: State, name: string): (r: State)
    ensures SameStreams(st, r)
  {
    if name in st.targetIdx then st
    else
      st.(targets := st.targets + [TargetInfo(|st.targets|, name, TargetFile, 0)],
          targetIdx := st.targetIdx[name := |st.targets|])
  }

  function TargetId(st: State, name: string): int {
    if name in st.targetIdx then st.targetIdx[name] else |st.targets|
  }

  // ----- Flags and paths -----

  datatype OpenFlags = OpenFlags(mode: Mode, flags: seq<string>, isDir: bool, isAppend: bool)

  function ModeOf(tokens: seq<FlagToken>): Mode {
    if tokens == [] then ModeRead
    else
      var last := tokens[|tokens|-1];
      if last == O_WRONLY then ModeWrite
      else if last == O_RDWR then ModeReadWrite
      else ModeOf(tokens[..|tokens|-1])
  }

  function FlagIf(present: bool, flag: string): seq<string> {
    if present then [flag] else []
  }

  function FlagsOf(tokens: seq<FlagToken>): OpenFlags {
    OpenFlags(
      ModeOf(tokens),
      FlagIf(O_DIRECT in tokens, "direct") + FlagIf(O_CREAT in tokens, "create")
      + FlagIf(O_TRUNC in tokens, "trunc") + FlagIf(O_APPEND in tokens, "append")
      + FlagIf(O_SYNC in tokens || O_DSYNC in tokens, "sync"),
      O_DIRECTORY in tokens,
      O_APPEND in tokens)
  }

  function TrimRightSlashes(s: string): string {
    if s != "" && s[|s|-1] == '/' then TrimRightSlashes(s[..|s|-1]) else s
  }

  function PathFor(st: State, s: int, fd: int): Option<string> {
    match LookUp(st.fds, s, fd)
    case Some(e) => Some(e.path)
    case None => None
  }

  function ResolveAt(st: State, s: int, dirfd: Dirfd, path: string): Option<string> {
    if path != "" && path[0] == '/' then Some(path)
    else
      match dirfd
      case NoDirfd => Some(path)
      case AtCwd => Some(path)
      case BadDirfd => None
      case AtFd(fd, decoration) =>
        match PathFor(st, s, fd)
        case Some(dir) => Some(TrimRightSlashes(dir) + "/" + path)
        case None => if decoration == "" then None else Some(TrimRightSlashes(decoration) + "/" + path)
  }

  // The file an fd argument names: its recorded path, else its decoration.
  function FdTarget(st: State, s: int, arg: FdArg): Option<string> {
    if arg.NotFd? then None
    else
      match PathFor(st, s, arg.fd)
      case Some(path) => Some(path)
      case None => if arg.decoration != "" then Some(arg.decoration) else None
  }

  function AsFdArg(dirfd: Dirfd): FdArg {
    if dirfd.AtFd? then Fd(dirfd.fd, dirfd.decoration) else NotFd
  }

  // ----- The handlers -----

  function OpenFile(st: State, s: int, t: int, fd: int, path: string, mode: Mode, flags: seq<string>,
                    isAppend: bool, dur: Option<nat>): (r: State)
    ensures SameStreams(st, r)
  {
    var h := st.nextHandle;
    var id := TargetId(st, path);
    var tracked := Intern(st, path).(
      fds := st.fds[FdKey(s, fd) := FileEntry(h, id, path, isAppend)],
      nextHandle := h + 1);
    Add(tracked, BareOp(t, s, OpOpen).(tgt := Some(id), h := Some(h), mode := mode, flags := flags, dur := dur))
  }

  function DoOpen(st: State, s: int, t: int, call: Call, ret: Option<int>, dur: Option<nat>): (r: State)
    requires call.OpenCall?
    ensures SameStreams(st, r)
  {
    if ret.None? || ret.value < 0 then Skip(st, B.FailedOpen)
    else if !call.enoughArgs || call.path.None? then Skip(st, B.UnparsedLine)
    else
      match ResolveAt(st, s, call.dirfd, call.path.value)
      case None => Skip(st, B.UnresolvedDirfd)
      case Some(path) =>
        var f := FlagsOf(call.flagTokens);
        if f.isDir then st.(fds := st.fds[FdKey(s, ret.value) := DirEntry(path)])
        else OpenFile(st, s, t, ret.value, path, f.mode, f.flags, f.isAppend, dur)
  }

  function DoCreat(st: State, s: int, t: int, call: Call, ret: Option<int>, dur: Option<nat>): (r: State)
    requires call.CreatCall?
    ensures SameStreams(st, r)
  {
    if ret.None? || ret.value < 0 then Skip(st, B.FailedOpen)
    else if !call.enoughArgs || call.path.None? then Skip(st, B.UnparsedLine)
    else OpenFile(st, s, t, ret.value, call.path.value, ModeWrite, ["create", "trunc"], false, dur)
  }

  // A read records what it asked for when that is known and no smaller than what
  // it got; a write records only what landed.
  function Requested(call: Call, n: int): int
    requires call.RwCall?
  {
    if call.kind.OpRead? && call.count.Some? && call.count.value >= n then call.count.value else n
  }

  function Noted(st: State, call: Call): (r: State)
    requires call.RwCall?
    ensures r == st.(lossy := r.lossy)
  {
    if call.kind.OpRead? && call.count.None?
    then st.(lossy := B.Counted(st.lossy, B.RequestedLenUnobservable))
    else st
  }

  function Transfer(s: int, t: int, call: Call, e: EntryState, off: int, n: int, dur: Option<nat>): Op
    requires call.RwCall?
  {
    var requested := Requested(call, n);
    BareOp(t, s, call.kind).(h := Some(e.handle), off := Some(off), len := Some(requested),
                             ret := if requested != n then Some(n) else None, dur := dur)
  }

  function DoRW(st: State, s: int, t: int, call: Call, ret: Option<int>, dur: Option<nat>): (r: State)
    requires call.RwCall?
    ensures SameStreams(st, r)
  {
    if call.fd.None? then Skip(st, B.UnparsedLine)
    else
      var fd := call.fd.value;
      match LookUp(st.fds, s, fd)
      case None => Skip(st, B.UnresolvedFd)
      case Some(e) =>
        if !e.hasHandle then Skip(st, B.UnresolvedFd)
        else if ret.None? || ret.value < 0 then Skip(st, B.FailedSyscall)
        else if ret.value == 0 then Skip(st, if call.kind.OpRead? then B.EofRead else B.FailedSyscall)
        else if call.kind.OpWrite? && e.appendMode then Skip(st, B.AppendWriteUnmodeled)
        else
          var noted := Noted(st, call);
          match call.position
          case MissingOffset => Skip(noted, B.UnparsedLine)
          case BadOffset => Skip(noted, B.UnparsedLine)
          case At(off) => Add(noted, Transfer(s, t, call, e, off, ret.value, dur))
          case Sequential =>
            var moved := noted.(fds := WithCursor(noted.fds, s, fd, e.cursor + ret.value));
            Add(moved, Transfer(s, t, call, e, e.cursor, ret.value, dur))
  }

  function DoClose(st: State, s: int, t: int, fd: Option<int>, ret: Option<int>, dur: Option<nat>): (r: State)
    ensures SameStreams(st, r)
  {
    if fd.None? then st
    else if ret.Some? && ret.value < 0 then Skip(st, B.FailedSyscall)
    else
      var closed := st.(fds := st.fds - {FdKey(s, fd.value)});
      match HandleOf(LookUp(st.fds, s, fd.value))
      case None => closed
      case Some(h) => Add(closed, BareOp(t, s, OpClose).(h := Some(h), dur := dur))
  }

  function DoFsync(st: State, s: int, t: int, fd: Option<int>, ret: Option<int>, dur: Option<nat>): (r: State)
    ensures SameStreams(st, r)
  {
    if fd.None? then Skip(st, B.UnparsedLine)
    else if ret.Some? && ret.value < 0 then Skip(st, B.FailedSyscall)
    else
      match HandleOf(LookUp(st.fds, s, fd.value))
      case None => Skip(st, B.UnresolvedFd)
      case Some(h) => Add(st, BareOp(t, s, OpFsync).(h := Some(h), dur := dur))
  }

  function DoLseek(st: State, s: int, fd: Option<int>, ret: Option<int>): (r: State)
    ensures SameStreams(st, r)
  {
    if fd.None? || ret.None? || ret.value < 0 then st
    else st.(fds := WithCursor(st.fds, s, fd.value, ret.value))
  }

  function StatFile(st: State, s: int, t: int, path: string, dur: Option<nat>): (r: State)
    ensures SameStreams(st, r)
  {
    Add(Intern(st, path), BareOp(t, s, OpStat).(tgt := Some(TargetId(st, path)), dur := dur))
  }

  function DoStatPath(st: State, s: int, t: int, call: Call, ret: Option<int>, dur: Option<nat>): (r: State)
    requires call.StatCall?
    ensures SameStreams(st, r)
  {
    if ret.Some? && ret.value < 0 then Skip(st, B.FailedSyscall)
    else if !call.enoughArgs || call.path.None? then Skip(st, B.UnparsedLine)
    else if call.dirfd.NoDirfd? then StatFile(st, s, t, call.path.value, dur)
    else if call.path.value == "" then
      match FdTarget(st, s, AsFdArg(call.dirfd))
      case None => Skip(st, B.UnresolvedFd)
      case Some(path) => StatFile(st, s, t, path, dur)
    else
      match ResolveAt(st, s, call.dirfd, call.path.value)
      case None => Skip(st, B.UnresolvedDirfd)
      case Some(path) => StatFile(st, s, t, path, dur)
  }

  function DoFstat(st: State, s: int, t: int, call: Call, ret: Option<int>, dur: Option<nat>): (r: State)
    requires call.FstatCall?
    ensures SameStreams(st, r)
  {
    if ret.Some? && ret.value < 0 then Skip(st, B.FailedSyscall)
    else if !call.enoughArgs then Skip(st, B.UnparsedLine)
    else
      match FdTarget(st, s, call.file)
      case None => Skip(st, B.UnresolvedFd)
      case Some(path) => StatFile(st, s, t, path, dur)
  }

  // Each process or thread is one stream, numbered by first appearance.
  function StreamOf(st: State, pid: int): int {
    if pid in st.pidToStream then st.pidToStream[pid] else st.nextStream
  }

  function WithStream(st: State, pid: int): State {
    if pid in st.pidToStream then st
    else st.(pidToStream := st.pidToStream[pid := st.nextStream], nextStream := st.nextStream + 1)
  }

  function Dispatch(st: State, s: int, ev: Event): State {
    match ev.call
    case OpenCall(_, _, _, _) => DoOpen(st, s, ev.t, ev.call, ev.ret, ev.dur)
    case CreatCall(_, _) => DoCreat(st, s, ev.t, ev.call, ev.ret, ev.dur)
    case RwCall(kind, _, _, _) =>
      if kind.OpRead? || kind.OpWrite? then DoRW(st, s, ev.t, ev.call, ev.ret, ev.dur) else st
    case CloseCall(fd) => DoClose(st, s, ev.t, fd, ev.ret, ev.dur)
    case FsyncCall(fd) => DoFsync(st, s, ev.t, fd, ev.ret, ev.dur)
    case LseekCall(fd) => DoLseek(st, s, fd, ev.ret)
    case StatCall(_, _, _) => DoStatPath(st, s, ev.t, ev.call, ev.ret, ev.dur)
    case FstatCall(_, _) => DoFstat(st, s, ev.t, ev.call, ev.ret, ev.dur)
    case OtherCall => st
  }

  function Handle(st: State, ev: Event): State {
    Dispatch(WithStream(st, ev.pid), StreamOf(st, ev.pid), ev)
  }

  function HandleAll(events: seq<Event>): State {
    if events == [] then EMPTY else Handle(HandleAll(events[..|events|-1]), events[|events|-1])
  }
}
