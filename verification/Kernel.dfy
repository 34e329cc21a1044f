// A reference model of descriptors as the kernel keeps them, for processes that
// share none. What the strace importer reconstructs from
// results alone is compared with it in KernelSimulation.
module Kernel {
  import opened Trace
  import S = StraceSpec

  datatype ProcFd = ProcFd(pid: int, fd: int)

  datatype Whence = SeekSet | SeekCur | SeekEnd(size: nat)

  // Read and write at a position leave the descriptor's own cursor alone. The eof of
  // a write is where the file ends when it is made.
  datatype Syscall =
    | Open(dirfd: S.Dirfd, path: string, flags: seq<S.FlagToken>)
    | Read(fd: int, count: nat, at: Option<nat>)
    | Write(fd: int, count: nat, at: Option<nat>, eof: nat)
    | Creat(path: string)
    | Lseek(fd: int, offset: int, whence: Whence)
    | Fsync(fd: int)
    | Close(fd: int)
    | Stat(dirfd: S.Dirfd, path: string)
    | Fstat(fd: int)

  // A negative result is a failed call.
  datatype Ran = Ran(pid: int, t: int, call: Syscall, result: int, dur: Option<nat>)

  // An open description; serial counts the file opens before it. It is adrift when
  // an appending write has moved the cursor since the last seek.
  datatype File = File(
    path: string, isDir: bool, mode: Mode, append: bool, serial: int, cursor: int, adrift: bool)

  function Directory(path: string): File {
    File(path, true, ModeRead, false, 0, 0, false)
  }

  function NewFile(path: string, mode: Mode, append: bool, serial: int): File {
    File(path, false, mode, append, serial, 0, false)
  }

  // What an open asked for beside access: to bypass the cache, to make the file if
  // it is missing, to empty it, to write at its end, to write through.
  datatype Opening = Opening(direct: bool, create: bool, trunc: bool, append: bool, sync: bool)

  const CREATING := Opening(false, true, true, false, false)

  // What a process did to which open description, and where; adrift is the
  // description's, for a transfer at its cursor.
  datatype Access =
    | Opened(serial: int, path: string, mode: Mode, how: Opening)
    | Moved(kind: OpKind, serial: int, off: int, adrift: bool, asked: int, got: int)
    | Synced(serial: int)
    | Closed(serial: int)
    | Examined(path: string)

  // The same, with when it was done and how long it took.
  datatype Mark = Mark(t: int, dur: Option<nat>, access: Access)

  function Did(ran: Ran, a: Access): Mark {
    Mark(ran.t, ran.dur, a)
  }

  // Modes holds, by serial, how each file was opened.
  datatype State = State(files: map<ProcFd, File>, modes: seq<Mode>, log: map<int, seq<Mark>>)

  const BOOT := State(map[], [], map[])

  function LogOf(k: State, pid: int): seq<Mark> {
    if pid in k.log then k.log[pid] else []
  }

  function Log(k: State, pid: int, m: Mark): State {
    k.(log := k.log[pid := LogOf(k, pid) + [m]])
  }

  predicate IsAbsolute(path: string) {
    path != "" && path[0] == '/'
  }

  // A relative path needs a directory the process holds.
  predicate Resolvable(k: State, pid: int, dirfd: S.Dirfd, path: string) {
    IsAbsolute(path) || dirfd.NoDirfd? || dirfd.AtCwd? || (dirfd.AtFd? && ProcFd(pid, dirfd.fd) in k.files)
  }

  function FullPath(k: State, pid: int, dirfd: S.Dirfd, path: string): string
    requires Resolvable(k, pid, dirfd, path)
  {
    if IsAbsolute(path) || !dirfd.AtFd? then path
    else S.TrimRightSlashes(k.files[ProcFd(pid, dirfd.fd)].path) + "/" + path
  }

  // An empty path asks about the descriptor's own file, where there is one.
  predicate Examinable(k: State, pid: int, dirfd: S.Dirfd, path: string) {
    if dirfd.NoDirfd? then path != ""
    else if path == "" then dirfd.AtFd? && ProcFd(pid, dirfd.fd) in k.files
    else Resolvable(k, pid, dirfd, path)
  }

  function ExaminedPath(k: State, pid: int, dirfd: S.Dirfd, path: string): string
    requires Examinable(k, pid, dirfd, path)
  {
    if dirfd.NoDirfd? then path
    else if path == "" then k.files[ProcFd(pid, dirfd.fd)].path
    else FullPath(k, pid, dirfd, path)
  }

  function SeekBase(f: File, whence: Whence): int {
    match whence
    case SeekSet => 0
    case SeekCur => f.cursor
    case SeekEnd(size) => size
  }

  // The access mode among the flags; the kernel takes one at most.
  predicate OneAccessMode(flags: seq<S.FlagToken>) {
    !(S.O_WRONLY in flags && S.O_RDWR in flags)
  }

  function AccessMode(flags: seq<S.FlagToken>): Mode {
    if S.O_RDWR in flags then ModeReadWrite else if S.O_WRONLY in flags then ModeWrite else ModeRead
  }

  // A transfer needs a file opened for it.
  predicate Permits(mode: Mode, kind: OpKind) {
    (kind.OpRead? ==> mode != ModeWrite) && (kind.OpWrite? ==> mode == ModeWrite || mode == ModeReadWrite)
  }

  predicate IsTransfer(call: Syscall) {
    call.Read? || call.Write?
  }

  // Which results the kernel can give.
  predicate Legal(k: State, ran: Ran) {
    ran.result >= 0 ==>
      match ran.call
      case Open(dirfd, path, flags) =>
        path != "" && Resolvable(k, ran.pid, dirfd, path) && OneAccessMode(flags)
      case Creat(path) => path != ""
      case Read(fd, count, _) =>
        && ProcFd(ran.pid, fd) in k.files && !k.files[ProcFd(ran.pid, fd)].isDir
        && Permits(k.files[ProcFd(ran.pid, fd)].mode, OpRead) && ran.result <= count
      case Write(fd, count, _, _) =>
        && ProcFd(ran.pid, fd) in k.files && !k.files[ProcFd(ran.pid, fd)].isDir
        && Permits(k.files[ProcFd(ran.pid, fd)].mode, OpWrite) && ran.result <= count
      case Lseek(fd, offset, whence) =>
        && ProcFd(ran.pid, fd) in k.files
        && ran.result == SeekBase(k.files[ProcFd(ran.pid, fd)], whence) + offset
      case Fsync(fd) => ProcFd(ran.pid, fd) in k.files
      case Close(fd) => ProcFd(ran.pid, fd) in k.files
      case Stat(dirfd, path) => Examinable(k, ran.pid, dirfd, path)
      case Fstat(fd) => ProcFd(ran.pid, fd) in k.files
  }

  function Asked(flags: seq<S.FlagToken>): Opening {
    Opening(S.O_DIRECT in flags, S.O_CREAT in flags, S.O_TRUNC in flags, S.O_APPEND in flags,
            S.O_SYNC in flags || S.O_DSYNC in flags)
  }

  function OpenFile(k: State, ran: Ran, path: string, mode: Mode, how: Opening): State {
    var key := ProcFd(ran.pid, ran.result);
    Log(k.(files := k.files[key := NewFile(path, mode, how.append, |k.modes|)], modes := k.modes + [mode]),
        ran.pid, Did(ran, Opened(|k.modes|, path, mode, how)))
  }

  function OpenStep(k: State, ran: Ran): State
    requires ran.call.Open? && ran.result >= 0 && Legal(k, ran)
  {
    var path := FullPath(k, ran.pid, ran.call.dirfd, ran.call.path);
    var key := ProcFd(ran.pid, ran.result);
    if S.O_DIRECTORY in ran.call.flags then k.(files := k.files[key := Directory(path)])
    else OpenFile(k, ran, path, AccessMode(ran.call.flags), Asked(ran.call.flags))
  }

  // An appending write lands at the end of the file whatever position was given,
  // and leaves the cursor behind it unless one was.
  function AppendStep(k: State, ran: Ran): State
    requires ran.call.Write? && ran.result >= 0 && Legal(k, ran)
  {
    var key := ProcFd(ran.pid, ran.call.fd);
    if ran.result == 0 || ran.call.at.Some? then k
    else k.(files := k.files[key := k.files[key].(cursor := ran.call.eof + ran.result, adrift := true)])
  }

  // Any other transfer happens at the given position or at the cursor, and only the
  // latter moves the cursor. One that moved nothing leaves no mark.
  function TransferStep(k: State, ran: Ran): State
    requires IsTransfer(ran.call) && ran.result >= 0 && Legal(k, ran)
  {
    var key := ProcFd(ran.pid, ran.call.fd);
    var f := k.files[key];
    if ran.call.Write? && f.append then AppendStep(k, ran)
    else
      var sequential := ran.call.at.None?;
      var off := if sequential then f.cursor else ran.call.at.value;
      var moved := if sequential then k.(files := k.files[key := f.(cursor := f.cursor + ran.result)]) else k;
      if ran.result == 0 then moved
      else Log(moved, ran.pid, Did(ran, MoveOf(ran, f.serial, off, sequential && f.adrift)))
  }

  function MoveOf(ran: Ran, serial: int, off: int, adrift: bool): Access
    requires IsTransfer(ran.call)
  {
    Moved(if ran.call.Read? then OpRead else OpWrite, serial, off, adrift, ran.call.count, ran.result)
  }

  function Step(k: State, ran: Ran): State
    requires Legal(k, ran)
  {
    if ran.result < 0 then k
    else
      match ran.call
      case Open(_, _, _) => OpenStep(k, ran)
      case Creat(path) => OpenFile(k, ran, path, ModeWrite, CREATING)
      case Read(_, _, _) => TransferStep(k, ran)
      case Write(_, _, _, _) => TransferStep(k, ran)
      case Lseek(fd, _, _) =>
        var key := ProcFd(ran.pid, fd);
        k.(files := k.files[key := k.files[key].(cursor := ran.result, adrift := false)])
      case Fsync(fd) =>
        var f := k.files[ProcFd(ran.pid, fd)];
        if f.isDir then k else Log(k, ran.pid, Did(ran, Synced(f.serial)))
      case Close(fd) =>
        var key := ProcFd(ran.pid, fd);
        var closed := k.(files := k.files - {key});
        if k.files[key].isDir then closed else Log(closed, ran.pid, Did(ran, Closed(k.files[key].serial)))
      case Stat(dirfd, path) => Log(k, ran.pid, Did(ran, Examined(ExaminedPath(k, ran.pid, dirfd, path))))
      case Fstat(fd) => Log(k, ran.pid, Did(ran, Examined(k.files[ProcFd(ran.pid, fd)].path)))
  }

  // The state after a run; None when some result is not one the kernel gives.
  function Run(calls: seq<Ran>): Option<State> {
    if calls == [] then Some(BOOT)
    else
      match Run(calls[..|calls|-1])
      case None => None
      case Some(k) => if Legal(k, calls[|calls|-1]) then Some(Step(k, calls[|calls|-1])) else None
  }

  // ----- What strace shows of a call -----

  function PositionOf(at: Option<nat>): S.Position {
    if at.Some? then S.At(at.value) else S.Sequential
  }

  function Shown(call: Syscall): S.Call {
    match call
    case Open(dirfd, path, flags) => S.OpenCall(true, dirfd, Some(path), flags)
    case Creat(path) => S.CreatCall(true, Some(path))
    case Read(fd, count, at) => S.RwCall(OpRead, Some(fd), Some(count), PositionOf(at))
    case Write(fd, count, at, _) => S.RwCall(OpWrite, Some(fd), Some(count), PositionOf(at))
    case Lseek(fd, _, _) => S.LseekCall(Some(fd))
    case Fsync(fd) => S.FsyncCall(Some(fd))
    case Close(fd) => S.CloseCall(Some(fd))
    case Stat(dirfd, path) => S.StatCall(true, dirfd, Some(path))
    case Fstat(fd) => S.FstatCall(true, S.Fd(fd, ""))
  }

  function Traced(ran: Ran): S.Event {
    S.Event(ran.pid, ran.t, Shown(ran.call), Some(ran.result), ran.dur)
  }

  function TracedAll(calls: seq<Ran>): (r: seq<S.Event>)
    ensures |r| == |calls| && forall i :: 0 <= i < |calls| ==> r[i] == Traced(calls[i])
  {
    seq(|calls|, i requires 0 <= i < |calls| => Traced(calls[i]))
  }
}
