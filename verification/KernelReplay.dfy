// What a run of the kernel records is replayed, against an engine with offset
// writes, without a failure: no transfer asks for access its file was not opened
// for.
module KernelReplay {
  import opened Trace
  import opened TraceContract
  import opened KernelSimulation
  import opened ReplayTheorems
  import opened TraceReplay
  import Builder
  import BuilderTheorems
  import K = Kernel
  import Replay
  import StraceImport
  import StraceSpec

  lemma WrittenWithinModes(meta: Builder.HeaderMeta, calls: seq<K.Ran>, op: Op)
    requires K.Run(calls).Some? && op in StraceImport.Assemble(meta, K.TracedAll(calls)).ops
    ensures WithinModes(K.Run(calls).value.modes, op)
  {
    hide StraceSpec.HandleAll, Builder.Assembled, K.Run;
    var s, source := StraceImport.ImportedSource(meta, K.TracedAll(calls), op);
    StreamsWithinModes(calls, s, source);
  }

  lemma ModesServe(modes: seq<Mode>, opener: Op, op: Op, direct: bool)
    requires WithinModes(modes, opener) && WithinModes(modes, op)
    requires opener.kind.OpOpen? && op.h == opener.h
    ensures WithinAccess(direct, opener, op)
  {
  }

  // Every run the kernel can produce is imported into a trace whose transfers
  // respect the access their handles were opened for.
  lemma RunsRespectAccess(meta: Builder.HeaderMeta, calls: seq<K.Ran>, direct: bool)
    requires K.Run(calls).Some?
    ensures AccessOk(direct, StraceImport.Assemble(meta, K.TracedAll(calls)).ops)
  {
    hide StraceSpec.HandleAll, Builder.Assembled, K.Run, WithinModes, WithinAccess;
    var ops := StraceImport.Assemble(meta, K.TracedAll(calls)).ops;
    forall op, opener | op in ops && opener in ops && opener.kind.OpOpen? && opener.h.Some? && op.h == opener.h
      ensures WithinAccess(direct, opener, op)
    {
      WrittenWithinModes(meta, calls, op);
      WrittenWithinModes(meta, calls, opener);
      ModesServe(K.Run(calls).value.modes, opener, op, direct);
    }
  }

  // The kernel lets no call succeed that leaves its file unnamed.
  lemma LegalIsOk(k: K.State, ran: K.Ran)
    requires K.Legal(k, ran)
    ensures StraceImport.CallOk(K.Shown(ran.call), Some(ran.result))
  {
  }

  lemma {:induction false} RunIsOk(calls: seq<K.Ran>)
    requires K.Run(calls).Some?
    ensures forall ev :: ev in K.TracedAll(calls) ==> StraceImport.CallOk(ev.call, ev.ret)
  {
    if calls != [] {
      var front, last := calls[..|calls|-1], calls[|calls|-1];
      RunIsOk(front);
      LegalIsOk(K.Run(front).value, last);
      assert K.TracedAll(calls) == K.TracedAll(front) + [K.Traced(last)];
    }
  }

  lemma RunsNeverFail(meta: Builder.HeaderMeta, calls: seq<K.Ran>, direct: bool)
    requires BuilderTheorems.MetaOk(meta) && K.Run(calls).Some?
    ensures NothingFails(Replay.Files(direct), StraceImport.Assemble(meta, K.TracedAll(calls)).ops)
  {
    hide StraceSpec.HandleAll, Builder.Assembled, K.Run, AccessOk, NothingFails, CleanOps, StraceImport.CallOk;
    RunsRespectAccess(meta, calls, direct);
    RunIsOk(calls);
    StraceImport.ImportAlwaysValidates(meta, K.TracedAll(calls));
    var all := StraceImport.Assemble(meta, K.TracedAll(calls));
    FilesReplayExactlyWhen(all.header, all.ops, direct);
  }
}
