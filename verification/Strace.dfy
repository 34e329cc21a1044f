// The strace importer's parser object (pkg/importer/strace/parse.go) over its
// Builder and descriptor table: each handler does what StraceSpec says.
module Strace {
  import opened Trace
  import opened FDTable
  import B = Builder
  import Spec = StraceSpec
  import TraceContract
  import StraceImport
  import BuilderTheorems

  // Whether a flag is among the first n scanned.
  predicate Seen(tokens: seq<Spec.FlagToken>, n: nat, flag: Spec.FlagToken) {
    n <= |tokens| && flag in tokens[..n]
  }

  lemma SeenStep(tokens: seq<Spec.FlagToken>, n: nat)
    requires n < |tokens|
    ensures forall flag :: Seen(tokens, n + 1, flag) <==> Seen(tokens, n, flag) || flag == tokens[n]
    ensures Spec.ModeOf(tokens[..n+1]) ==
            if tokens[n] == Spec.O_WRONLY then ModeWrite
            else if tokens[n] == Spec.O_RDWR then ModeReadWrite
            else Spec.ModeOf(tokens[..n])
  {
    assert tokens[..n+1] == tokens[..n] + [tokens[n]];
    assert tokens[..n+1][..n] == tokens[..n];
    forall flag ensures Seen(tokens, n + 1, flag) <==> Seen(tokens, n, flag) || flag == tokens[n] {
      assert flag in tokens[..n] + [tokens[n]] <==> flag in tokens[..n] || flag == tokens[n];
    }
  }

  // The flags of an open call, scanned in order.
  method ParseOpenFlags(tokens: seq<Spec.FlagToken>) returns (r: Spec.OpenFlags)
    ensures r == Spec.FlagsOf(tokens)
  {
    hide Seen, Spec.ModeOf;
    var mode := ModeRead;
    var direct, create, trunc, sync, isDir, isAppend := false, false, false, false, false, false;
    NothingSeen(tokens);
    for i := 0 to |tokens|
      invariant mode == Spec.ModeOf(tokens[..i])
      invariant direct == Seen(tokens, i, Spec.O_DIRECT) && create == Seen(tokens, i, Spec.O_CREAT)
      invariant trunc == Seen(tokens, i, Spec.O_TRUNC) && isAppend == Seen(tokens, i, Spec.O_APPEND)
      invariant sync == (Seen(tokens, i, Spec.O_SYNC) || Seen(tokens, i, Spec.O_DSYNC))
      invariant isDir == Seen(tokens, i, Spec.O_DIRECTORY)
    {
      SeenStep(tokens, i);
      match tokens[i] {
        case O_WRONLY => mode := ModeWrite;
        case O_RDWR => mode := ModeReadWrite;
        case O_DIRECT => direct := true;
        case O_CREAT => create := true;
        case O_TRUNC => trunc := true;
        case O_APPEND => isAppend := true;
        case O_SYNC | O_DSYNC => sync := true;
        case O_DIRECTORY => isDir := true;
        case OtherFlag(_) =>
      }
    }
    AllSeen(tokens);
    var flags := FlagNames(direct, create, trunc, isAppend, sync);
    r := Spec.OpenFlags(mode, flags, isDir, isAppend);
  }

  lemma NothingSeen(tokens: seq<Spec.FlagToken>)
    ensures forall flag :: !Seen(tokens, 0, flag)
    ensures Spec.ModeOf(tokens[..0]) == ModeRead
  {
  }

  lemma AllSeen(tokens: seq<Spec.FlagToken>)
    ensures tokens[..|tokens|] == tokens
    ensures forall flag :: Seen(tokens, |tokens|, flag) <==> flag in tokens
  {
  }

  method FlagNames(direct: bool, create: bool, trunc: bool, isAppend: bool, sync: bool) returns (flags: seq<string>)
    ensures flags == Spec.FlagIf(direct, "direct") + Spec.FlagIf(create, "create") + Spec.FlagIf(trunc, "trunc")
                     + Spec.FlagIf(isAppend, "append") + Spec.FlagIf(sync, "sync")
  {
    flags := [];
    if direct { flags := flags + ["direct"]; }
    if create { flags := flags + ["create"]; }
    if trunc { flags := flags + ["trunc"]; }
    if isAppend { flags := flags + ["append"]; }
    if sync { flags := flags + ["sync"]; }
  }

  class Parser {
    const b: B.Builder
    const fdt: FDTable
    var pidToStream: map<int, int>
    var nextStream: int

    ghost predicate Valid()
      reads this, b, fdt, fdt.Repr
    {
      b.Valid() && fdt.Valid() && b !in fdt.Repr && this !in fdt.Repr
    }

    ghost function State(): Spec.State
      requires Valid()
      reads this, b, fdt, fdt.Repr
    {
      Spec.State(fdt.View(), fdt.nextHandle, pidToStream, nextStream,
                 b.targets, b.targetIdx, b.Streams(), b.skippedReasons, b.lossy)
    }

    constructor ()
      ensures Valid() && fresh(b) && fresh(fdt.Repr) && State() == Spec.EMPTY
    {
      b := new B.Builder();
      fdt := new FDTable();
      pidToStream, nextStream := map[], 0;
    }

    method Skip(reason: B.Reason)
      requires Valid()
      modifies b`skippedReasons, b`skippedOps
      ensures Valid() && State() == Spec.Skip(old(State()), reason)
    {
      b.Skip(reason);
    }

    method Add(op: Op)
      requires Valid()
      modifies b`perStream
      ensures Valid() && State() == Spec.Add(old(State()), op)
    {
      b.Add(op);
    }

    method Target(name: string) returns (id: int)
      requires Valid()
      modifies b`targets, b`targetIdx
      ensures Valid() && State() == Spec.Intern(old(State()), name) && id == Spec.TargetId(old(State()), name)
    {
      id := b.Target(name, TargetFile);
    }

    // A fresh stream number for an unseen process.
    method Stream(pid: int) returns (s: int)
      requires Valid()
      modifies this
      ensures Valid() && State() == Spec.WithStream(old(State()), pid) && s == Spec.StreamOf(old(State()), pid)
    {
      if pid in pidToStream {
        return pidToStream[pid];
      }
      s := nextStream;
      nextStream := nextStream + 1;
      pidToStream := pidToStream[pid := s];
    }

    method OpenFile(s: int, t: int, fd: int, path: string, mode: Mode, flags: seq<string>, isAppend: bool,
                    dur: Option<nat>)
      requires Valid()
      modifies b, fdt.Repr
      ensures Valid() && fresh(fdt.Repr - old(fdt.Repr))
      ensures State() == Spec.OpenFile(old(State()), s, t, fd, path, mode, flags, isAppend, dur)
    {
      var id := Target(path);
      var h := fdt.Open(s, fd, id, path, isAppend);
      Add(BareOp(t, s, OpOpen).(tgt := Some(id), h := Some(h), mode := mode, flags := flags, dur := dur));
    }

    method DoOpen(s: int, t: int, call: Spec.Call, ret: Option<int>, dur: Option<nat>)
      requires Valid() && call.OpenCall?
      modifies b, fdt.Repr
      ensures Valid() && fresh(fdt.Repr - old(fdt.Repr))
      ensures State() == Spec.DoOpen(old(State()), s, t, call, ret, dur)
    {
      hide Spec.OpenFile, Spec.Skip, Spec.FlagsOf, Spec.ResolveAt;
      if ret.None? || ret.value < 0 {
        Skip(B.FailedOpen);
        return;
      }
      if !call.enoughArgs || call.path.None? {
        Skip(B.UnparsedLine);
        return;
      }
      var path := ResolveAt(s, call.dirfd, call.path.value);
      if path.None? {
        Skip(B.UnresolvedDirfd);
        return;
      }
      var f := ParseOpenFlags(call.flagTokens);
      if f.isDir {
        fdt.OpenDir(s, ret.value, path.value);
        return;
      }
      OpenFile(s, t, ret.value, path.value, f.mode, f.flags, f.isAppend, dur);
    }

    method DoCreat(s: int, t: int, call: Spec.Call, ret: Option<int>, dur: Option<nat>)
      requires Valid() && call.CreatCall?
      modifies b, fdt.Repr
      ensures Valid() && fresh(fdt.Repr - old(fdt.Repr))
      ensures State() == Spec.DoCreat(old(State()), s, t, call, ret, dur)
    {
      hide Spec.OpenFile, Spec.Skip;
      if ret.None? || ret.value < 0 {
        Skip(B.FailedOpen);
        return;
      }
      if !call.enoughArgs || call.path.None? {
        Skip(B.UnparsedLine);
        return;
      }
      OpenFile(s, t, ret.value, call.path.value, ModeWrite, ["create", "trunc"], false, dur);
    }

    method DoRW(s: int, t: int, call: Spec.Call, ret: Option<int>, dur: Option<nat>)
      requires Valid() && call.RwCall?
      modifies b, fdt.Repr
      ensures Valid() && fdt.Repr == old(fdt.Repr)
      ensures State() == Spec.DoRW(old(State()), s, t, call, ret, dur)
    {
      hide Spec.Add, Spec.Skip, WithCursor;
      if call.fd.None? {
        Skip(B.UnparsedLine);
        return;
      }
      var e := fdt.Resolve(s, call.fd.value);
      if e.None? || !e.value.hasHandle {
        Skip(B.UnresolvedFd);
        return;
      }
      if ret.None? || ret.value < 0 {
        Skip(B.FailedSyscall);
        return;
      }
      if ret.value == 0 {
        Skip(if call.kind.OpRead? then B.EofRead else B.FailedSyscall);
        return;
      }
      if call.kind.OpWrite? && e.value.appendMode {
        Skip(B.AppendWriteUnmodeled);
        return;
      }
      Transfer(s, t, call, e.value, ret.value, dur);
    }

    method Request(call: Spec.Call, n: int) returns (requested: int)
      requires Valid() && call.RwCall?
      modifies b`lossy
      ensures Valid() && requested == Spec.Requested(call, n)
      ensures State() == Spec.Noted(old(State()), call)
    {
      requested := n;
      if call.kind.OpRead? {
        if call.count.Some? && call.count.value >= n {
          requested := call.count.value;
        } else if call.count.None? {
          b.Note(B.RequestedLenUnobservable);
        }
      }
    }

    // Where a call moved its bytes: a sequential one at the cursor, which it advances.
    method Place(s: int, call: Spec.Call, e: EntryState, n: int) returns (off: int)
      requires Valid() && call.RwCall? && call.fd.Some? && (call.position.At? || call.position.Sequential?)
      requires LookUp(State().fds, s, call.fd.value) == Some(e)
      modifies fdt.Repr
      ensures Valid() && fdt.Repr == old(fdt.Repr)
      ensures call.position.At? ==> off == call.position.off && State() == old(State())
      ensures call.position.Sequential? ==>
                && off == e.cursor
                && State() == old(State()).(fds := WithCursor(old(State()).fds, s, call.fd.value, e.cursor + n))
    {
      hide WithCursor;
      if call.position.At? {
        off := call.position.off;
      } else {
        off := e.cursor;
        fdt.Advance(s, call.fd.value, n);
      }
    }

    // The tail of doRW: what to record once the descriptor is known.
    method Transfer(s: int, t: int, call: Spec.Call, e: EntryState, n: int, dur: Option<nat>)
      requires Valid() && call.RwCall? && call.fd.Some?
      requires LookUp(State().fds, s, call.fd.value) == Some(e) && e.hasHandle && n > 0
      requires !(call.kind.OpWrite? && e.appendMode)
      modifies b, fdt.Repr
      ensures Valid() && fdt.Repr == old(fdt.Repr)
      ensures State() == Spec.DoRW(old(State()), s, t, call, Some(n), dur)
    {
      hide Spec.Add, Spec.Skip, Spec.Noted, Spec.Requested, WithCursor, BareOp;
      ghost var was := State();
      var requested := Request(call, n);
      if call.position.MissingOffset? || call.position.BadOffset? {
        Skip(B.UnparsedLine);
        return;
      }
      var off := Place(s, call, e, n);
      ghost var placed := State();
      var op := BareOp(t, s, call.kind).(h := Some(e.handle), off := Some(off), len := Some(requested),
                                         ret := if requested != n then Some(n) else None, dur := dur);
      assert Spec.DoRW(was, s, t, call, Some(n), dur) == Spec.Add(placed, op);
      hide Spec.DoRW;
      Add(op);
    }

    method DoClose(s: int, t: int, fd: Option<int>, ret: Option<int>, dur: Option<nat>)
      requires Valid()
      modifies b, fdt.Repr
      ensures Valid() && fdt.Repr == old(fdt.Repr)
      ensures State() == Spec.DoClose(old(State()), s, t, fd, ret, dur)
    {
      hide Spec.Add, Spec.Skip;
      if fd.None? {
        return;
      }
      if ret.Some? && ret.value < 0 {
        Skip(B.FailedSyscall);
        return;
      }
      var h := fdt.Close(s, fd.value);
      if h.None? {
        return;
      }
      Add(BareOp(t, s, OpClose).(h := h, dur := dur));
    }

    method DoFsync(s: int, t: int, fd: Option<int>, ret: Option<int>, dur: Option<nat>)
      requires Valid()
      modifies b
      ensures Valid()
      ensures State() == Spec.DoFsync(old(State()), s, t, fd, ret, dur)
    {
      hide Spec.Add, Spec.Skip;
      if fd.None? {
        Skip(B.UnparsedLine);
        return;
      }
      if ret.Some? && ret.value < 0 {
        Skip(B.FailedSyscall);
        return;
      }
      var e := fdt.Resolve(s, fd.value);
      if e.None? || !e.value.hasHandle {
        Skip(B.UnresolvedFd);
        return;
      }
      Add(BareOp(t, s, OpFsync).(h := Some(e.value.handle), dur := dur));
    }

    method DoLseek(s: int, fd: Option<int>, ret: Option<int>)
      requires Valid()
      modifies fdt.Repr
      ensures Valid() && fdt.Repr == old(fdt.Repr)
      ensures State() == Spec.DoLseek(old(State()), s, fd, ret)
    {
      if fd.None? || ret.None? || ret.value < 0 {
        return;
      }
      fdt.SetCursor(s, fd.value, ret.value);
    }

    method PathFor(s: int, fd: int) returns (path: Option<string>)
      requires Valid()
      ensures path == Spec.PathFor(State(), s, fd)
    {
      var e := fdt.Resolve(s, fd);
      path := if e.Some? then Some(e.value.path) else None;
    }

    method ResolveAt(s: int, dirfd: Spec.Dirfd, path: string) returns (r: Option<string>)
      requires Valid()
      ensures r == Spec.ResolveAt(State(), s, dirfd, path)
    {
      if path != "" && path[0] == '/' {
        return Some(path);
      }
      match dirfd {
        case NoDirfd => r := Some(path);
        case AtCwd => r := Some(path);
        case BadDirfd => r := None;
        case AtFd(fd, decoration) =>
          var dir := PathFor(s, fd);
          if dir.None? && decoration == "" {
            return None;
          }
          var base := if dir.Some? then dir.value else decoration;
          r := Some(Spec.TrimRightSlashes(base) + "/" + path);
      }
    }

    method FdTarget(s: int, arg: Spec.FdArg) returns (r: Option<string>)
      requires Valid()
      ensures r == Spec.FdTarget(State(), s, arg)
    {
      if arg.NotFd? {
        return None;
      }
      r := PathFor(s, arg.fd);
      if r.None? && arg.decoration != "" {
        r := Some(arg.decoration);
      }
    }

    method StatFile(s: int, t: int, path: string, dur: Option<nat>)
      requires Valid()
      modifies b
      ensures Valid()
      ensures State() == Spec.StatFile(old(State()), s, t, path, dur)
    {
      var id := Target(path);
      Add(BareOp(t, s, OpStat).(tgt := Some(id), dur := dur));
    }

    method DoStatPath(s: int, t: int, call: Spec.Call, ret: Option<int>, dur: Option<nat>)
      requires Valid() && call.StatCall?
      modifies b
      ensures Valid()
      ensures State() == Spec.DoStatPath(old(State()), s, t, call, ret, dur)
    {
      hide Spec.StatFile, Spec.Skip, Spec.FdTarget, Spec.ResolveAt;
      if ret.Some? && ret.value < 0 {
        Skip(B.FailedSyscall);
        return;
      }
      if !call.enoughArgs || call.path.None? {
        Skip(B.UnparsedLine);
        return;
      }
      var path := call.path.value;
      if !call.dirfd.NoDirfd? {
        var resolved;
        if path == "" {
          resolved := FdTarget(s, Spec.AsFdArg(call.dirfd));
          if resolved.None? {
            Skip(B.UnresolvedFd);
            return;
          }
        } else {
          resolved := ResolveAt(s, call.dirfd, path);
          if resolved.None? {
            Skip(B.UnresolvedDirfd);
            return;
          }
        }
        path := resolved.value;
      }
      StatFile(s, t, path, dur);
    }

    method DoFstat(s: int, t: int, call: Spec.Call, ret: Option<int>, dur: Option<nat>)
      requires Valid() && call.FstatCall?
      modifies b
      ensures Valid()
      ensures State() == Spec.DoFstat(old(State()), s, t, call, ret, dur)
    {
      hide Spec.StatFile, Spec.Skip, Spec.FdTarget;
      if ret.Some? && ret.value < 0 {
        Skip(B.FailedSyscall);
        return;
      }
      if !call.enoughArgs {
        Skip(B.UnparsedLine);
        return;
      }
      var path := FdTarget(s, call.file);
      if path.None? {
        Skip(B.UnresolvedFd);
        return;
      }
      StatFile(s, t, path.value, dur);
    }

    method Dispatch(s: int, ev: Spec.Event)
      requires Valid()
      modifies b, fdt.Repr
      ensures Valid() && fresh(fdt.Repr - old(fdt.Repr))
      ensures State() == Spec.Dispatch(old(State()), s, ev)
    {
      hide Spec.DoOpen, Spec.DoCreat, Spec.DoRW, Spec.DoClose, Spec.DoFsync, Spec.DoLseek, Spec.DoStatPath,
           Spec.DoFstat;
      match ev.call {
        case OpenCall(_, _, _, _) => DoOpen(s, ev.t, ev.call, ev.ret, ev.dur);
        case CreatCall(_, _) => DoCreat(s, ev.t, ev.call, ev.ret, ev.dur);
        case RwCall(kind, _, _, _) =>
          if kind.OpRead? || kind.OpWrite? {
            DoRW(s, ev.t, ev.call, ev.ret, ev.dur);
          }
        case CloseCall(fd) => DoClose(s, ev.t, fd, ev.ret, ev.dur);
        case FsyncCall(fd) => DoFsync(s, ev.t, fd, ev.ret, ev.dur);
        case LseekCall(fd) => DoLseek(s, fd, ev.ret);
        case StatCall(_, _, _) => DoStatPath(s, ev.t, ev.call, ev.ret, ev.dur);
        case FstatCall(_, _) => DoFstat(s, ev.t, ev.call, ev.ret, ev.dur);
        case OtherCall =>
      }
    }

    method Handle(ev: Spec.Event)
      requires Valid()
      modifies this, b, fdt.Repr
      ensures Valid() && fresh(fdt.Repr - old(fdt.Repr))
      ensures State() == Spec.Handle(old(State()), ev)
    {
      hide Spec.Dispatch;
      var s := Stream(ev.pid);
      Dispatch(s, ev);
    }
  }

  // A whole import. When every call that names a file names it and every
  // positional transfer has a position, the trace is written.
  method Import(meta: B.HeaderMeta, events: seq<Spec.Event>) returns (r: B.Written)
    requires BuilderTheorems.MetaOk(meta)
    ensures var all := StraceImport.Assemble(meta, events);
            r == if TraceContract.CleanTrace(all.header, all.ops) then all else B.Invalid
    ensures (forall ev :: ev in events ==> StraceImport.CallOk(ev.call, ev.ret)) ==>
              r.Written? && TraceContract.CleanTrace(r.header, r.ops)
  {
    hide Spec.Handle, B.Assembled, TraceContract.CleanTrace, StraceImport.CallOk;
    var p := new Parser();
    for i := 0 to |events|
      invariant p.Valid() && fresh(p) && fresh(p.b) && fresh(p.fdt.Repr)
      invariant p.State() == Spec.HandleAll(events[..i])
    {
      p.Handle(events[i]);
      assert events[..i+1][..i] == events[..i];
    }
    assert events[..|events|] == events;
    r := p.b.WriteTo(meta);
    if forall ev :: ev in events ==> StraceImport.CallOk(ev.call, ev.ret) {
      StraceImport.ImportAlwaysValidates(meta, events);
    }
  }
}
