// What the checkpoint generator's output is worth: the validator accepts it, an
// object store can replay it, and it writes the model, exactly, every time.
module CheckpointTheorems {
  import opened Arithmetic
  import opened Trace
  import opened TraceContract
  import opened Merge
  import opened ObjectWrite
  import opened Checkpoint
  import Files

  function Handle(p: Params, c: nat, r: nat): int {
    ShardId(p, c, r) + 1
  }

  function TargetTable(p: Params): seq<TargetInfo>
    requires ValidateParams(p)
  {
    Targets(p, p.numCheckpoints)
  }

  // ----- What a handle wrote, whatever the bytes were -----

  function ChunkOf(op: Op): (r: seq<Files.Byte>)
  {
    if op.kind.OpWrite? && op.len.Some? && op.len.value >= 0 then Files.Zeros(op.len.value) else []
  }

  function Chunks(ops: seq<Op>): (r: seq<seq<Files.Byte>>)
    ensures |r| == |ops| && forall i :: 0 <= i < |ops| ==> r[i] == ChunkOf(ops[i])
  {
    seq(|ops|, i requires 0 <= i < |ops| => ChunkOf(ops[i]))
  }

  function LifeIn(ops: seq<Op>, h: int): Life {
    LifeOf(ops, Chunks(ops), h)
  }

  lemma LifeInSnoc(ops: seq<Op>, op: Op, h: int)
    ensures LifeIn(ops + [op], h) == LifeAfter(LifeIn(ops, h), op, ChunkOf(op), h)
  {
    assert Chunks(ops + [op]) == Chunks(ops) + [ChunkOf(op)];
    LifeSnoc(ops, op, Chunks(ops), ChunkOf(op), h);
  }

  predicate AcceptableAfter(targets: seq<TargetInfo>, past: seq<Op>, op: Op) {
    op.h.Some? ==> Acceptable(targets, LifeIn(past, op.h.value), op)
  }

  ghost predicate StreamAcceptable(targets: seq<TargetInfo>, mine: seq<Op>) {
    forall k :: 0 <= k < |mine| ==> AcceptableAfter(targets, mine[..k], mine[k])
  }

  lemma StreamAcceptableStep(targets: seq<TargetInfo>, mine: seq<Op>, op: Op)
    requires StreamAcceptable(targets, mine) && AcceptableAfter(targets, mine, op)
    ensures StreamAcceptable(targets, mine + [op])
  {
    hide AcceptableAfter;
    var all := mine + [op];
    forall k | 0 <= k < |all| ensures AcceptableAfter(targets, all[..k], all[k]) {
      assert k < |mine| ==> all[..k] == mine[..k];
      assert all[..|mine|] == mine;
    }
  }

  // ----- One shard, appended to a rank's stream -----

  // A stream that obeys both contracts so far.
  ghost predicate Good(targets: seq<TargetInfo>, mine: seq<Op>) {
    StreamHandlesOk(mine) && StreamAcceptable(targets, mine)
  }

  // The stream is inside shard (c, r), with off bytes written.
  ghost predicate Writing(p: Params, mine: seq<Op>, c: nat, r: nat, off: int)
    requires ValidateParams(p)
  {
    var life := LifeIn(mine, Handle(p, c, r));
    && Good(TargetTable(p), mine)
    && Live(mine) == {Handle(p, c, r)}
    && InProgress(life) && life.mode == ModeWrite && life.target == ShardId(p, c, r) && |life.streamed| == off
  }

  // The whole shard was written and its file closed.
  ghost predicate Complete(p: Params, ops: seq<Op>, c: nat, r: nat)
    requires ValidateParams(p)
  {
    var life := LifeIn(ops, Handle(p, c, r));
    ClosedWrite(life, ShardId(p, c, r)) && |life.streamed| == ShardSize(p, r)
  }

  lemma Extend(targets: seq<TargetInfo>, mine: seq<Op>, op: Op)
    requires Good(targets, mine) && LocalHandleOk(mine, op) && AcceptableAfter(targets, mine, op)
    ensures Good(targets, mine + [op])
    ensures Live(mine + [op]) == LiveAfter(Live(mine), op)
    ensures Opened(mine + [op]) == Opened(mine) + if op.kind.OpOpen? && op.h.Some? then {op.h.value} else {}
  {
    StreamHandlesOkStep(mine, op);
    StreamAcceptableStep(targets, mine, op);
    LiveSnoc(mine, op, 0);
    OpenedSnoc(mine, op);
  }

  lemma OpenShard(p: Params, mine: seq<Op>, c: nat, r: nat)
    requires ValidateParams(p) && Good(TargetTable(p), mine) && Live(mine) == {}
    requires Handle(p, c, r) !in Opened(mine)
    ensures Writing(p, mine + [OpenOp(p, c, r)], c, r, 0)
    ensures Opened(mine + [OpenOp(p, c, r)]) == Opened(mine) + {Handle(p, c, r)}
  {
    hide Good, Live, Opened, ShardId, LifeIn;
    Extend(TargetTable(p), mine, OpenOp(p, c, r));
    LifeInSnoc(mine, OpenOp(p, c, r), Handle(p, c, r));
  }

  lemma WriteOnce(p: Params, mine: seq<Op>, c: nat, r: nat, off: int, n: int)
    requires ValidateParams(p) && off >= 0 && n >= 0 && Writing(p, mine, c, r, off)
    ensures Writing(p, mine + [WriteOp(p, c, r, off, n)], c, r, off + n)
    ensures Opened(mine + [WriteOp(p, c, r, off, n)]) == Opened(mine)
  {
    hide Good, Live, Opened, ShardId, LifeIn;
    Extend(TargetTable(p), mine, WriteOp(p, c, r, off, n));
    LifeInSnoc(mine, WriteOp(p, c, r, off, n), Handle(p, c, r));
  }

  lemma {:induction false} WriteShard(p: Params, mine: seq<Op>, c: nat, r: nat, off: int)
    requires ValidateParams(p) && 0 <= off <= ShardSize(p, r) && Writing(p, mine, c, r, off)
    ensures Writing(p, mine + Writes(p, c, r, off), c, r, ShardSize(p, r))
    ensures Opened(mine + Writes(p, c, r, off)) == Opened(mine)
    decreases ShardSize(p, r) - off
  {
    hide Writing, Opened, ShardSize, WriteOp;
    if off >= ShardSize(p, r) {
      assert mine + [] == mine;
    } else {
      var n := Min(p.writeBlock, ShardSize(p, r) - off);
      var op := WriteOp(p, c, r, off, n);
      WriteOnce(p, mine, c, r, off, n);
      WriteShard(p, mine + [op], c, r, off + n);
      assert mine + ([op] + Writes(p, c, r, off + n)) == mine + [op] + Writes(p, c, r, off + n);
    }
  }

  lemma SyncShard(p: Params, mine: seq<Op>, c: nat, r: nat, off: int)
    requires ValidateParams(p) && Writing(p, mine, c, r, off)
    ensures Writing(p, mine + Fsyncs(p, c, r), c, r, off)
    ensures Opened(mine + Fsyncs(p, c, r)) == Opened(mine)
  {
    hide Good, Live, Opened, ShardId, LifeIn;
    if Fsyncs(p, c, r) == [] {
      assert mine + [] == mine;
    } else {
      Extend(TargetTable(p), mine, HandleOp(p, c, r, OpFsync));
      LifeInSnoc(mine, HandleOp(p, c, r, OpFsync), Handle(p, c, r));
    }
  }

  lemma CloseShard(p: Params, mine: seq<Op>, c: nat, r: nat)
    requires ValidateParams(p) && c < p.numCheckpoints && r < p.writerRanks
    requires Writing(p, mine, c, r, ShardSize(p, r))
    ensures var all := mine + [HandleOp(p, c, r, OpClose)];
            Good(TargetTable(p), all) && Live(all) == {} && Complete(p, all, c, r) && Opened(all) == Opened(mine)
  {
    TargetAt(p, c, p.numCheckpoints, r);
    hide Good, Live, Opened, ShardId, LifeIn, ShardSize, Targets;
    assert DeclaredSize(TargetTable(p), ShardId(p, c, r)) == ShardSize(p, r);
    hide DeclaredSize;
    Extend(TargetTable(p), mine, HandleOp(p, c, r, OpClose));
    LifeInSnoc(mine, HandleOp(p, c, r, OpClose), Handle(p, c, r));
  }

  lemma AppendShard(p: Params, mine: seq<Op>, c: nat, r: nat)
    requires ValidateParams(p) && c < p.numCheckpoints && r < p.writerRanks
    requires Good(TargetTable(p), mine) && Live(mine) == {} && Handle(p, c, r) !in Opened(mine)
    ensures var all := mine + Shard(p, c, r);
            && Good(TargetTable(p), all) && Live(all) == {} && Complete(p, all, c, r)
            && Opened(all) == Opened(mine) + {Handle(p, c, r)}
  {
    hide Good, Live, Opened, ShardId, LifeIn, ShardSize, Writing, Writes, Fsyncs, OpenOp, HandleOp, Complete;
    SizesPositive(p, r);
    OpenShard(p, mine, c, r);
    var one := mine + [OpenOp(p, c, r)];
    WriteShard(p, one, c, r, 0);
    var two := one + Writes(p, c, r, 0);
    SyncShard(p, two, c, r, ShardSize(p, r));
    var three := two + Fsyncs(p, c, r);
    CloseShard(p, three, c, r);
    assert mine + Shard(p, c, r) == three + [HandleOp(p, c, r, OpClose)];
  }

  // ----- The shape of a shard's operations -----

  // A whole block, or what is left of the shard.
  predicate IsBlock(p: Params, r: nat, off: int, n: int)
    requires ValidateParams(p)
  {
    && 0 <= off && 0 < n <= p.writeBlock && off + n <= ShardSize(p, r)
    && (off + n < ShardSize(p, r) ==> n == p.writeBlock)
  }

  predicate InShard(p: Params, c: nat, r: nat, op: Op)
    requires ValidateParams(p)
  {
    && op.s == r && op.t == Burst(p, c) && op.h == Some(Handle(p, c, r)) && op.ret.None? && op.group.None?
    && (op.kind.OpOpen? || op.kind.OpWrite? || op.kind.OpFsync? || op.kind.OpClose?)
    && (op.kind.OpOpen? ==> op == OpenOp(p, c, r))
    && (!op.kind.OpOpen? ==> op.mode == NoMode && op.flags == [] && op.tgt.None?)
    && (if op.kind.OpWrite? then op.off.Some? && op.len.Some? && IsBlock(p, r, op.off.value, op.len.value)
        else NotPositional(op))
    && op.dur.None?
  }

  lemma {:induction false} WritesInShard(p: Params, c: nat, r: nat, off: int)
    requires ValidateParams(p) && off >= 0
    ensures forall op :: op in Writes(p, c, r, off) ==> InShard(p, c, r, op)
    decreases ShardSize(p, r) - off
  {
    hide ShardId, Burst;
    if off < ShardSize(p, r) {
      WritesInShard(p, c, r, off + Min(p.writeBlock, ShardSize(p, r) - off));
    }
  }

  lemma ShardOps(p: Params, c: nat, r: nat)
    requires ValidateParams(p)
    ensures forall op :: op in Shard(p, c, r) ==> InShard(p, c, r, op)
  {
    WritesInShard(p, c, r, 0);
    hide Writes, Burst, ShardId;
  }

  ghost predicate InRank(p: Params, r: nat, n: nat, op: Op)
    requires ValidateParams(p)
  {
    exists c: nat :: c < n && InShard(p, c, r, op)
  }

  lemma {:induction false} RankMembers(p: Params, r: nat, n: nat)
    requires ValidateParams(p)
    ensures forall op :: op in RankOps(p, r, n) ==> InRank(p, r, n, op)
  {
    if n > 0 {
      RankMembers(p, r, n - 1);
      ShardOps(p, n - 1, r);
      hide Shard, InShard;
      forall op | op in RankOps(p, r, n) ensures InRank(p, r, n, op) {
        if op in RankOps(p, r, n - 1) {
          var c: nat :| c < n - 1 && InShard(p, c, r, op);
          assert c < n;
        } else {
          assert op in Shard(p, n - 1, r);
        }
      }
    }
  }

  lemma {:induction false} BurstGrows(p: Params, c: nat, d: nat)
    requires p.intervalNS >= 0 && c <= d
    ensures 0 <= Burst(p, c) <= Burst(p, d)
    decreases d
  {
    if c < d {
      BurstGrows(p, c, d - 1);
    } else if d > 0 {
      BurstGrows(p, d - 1, d - 1);
    }
  }

  lemma RankTime(p: Params, r: nat, n: nat, op: Op)
    requires ValidateParams(p) && InRank(p, r, n, op)
    ensures n > 0 && 0 <= op.t <= Burst(p, n - 1)
  {
    var c: nat :| c < n && InShard(p, c, r, op);
    BurstGrows(p, c, n - 1);
  }

  lemma RankStepInTime(p: Params, r: nat, n: nat)
    requires ValidateParams(p) && n > 0 && TimesOk(RankOps(p, r, n - 1))
    ensures TimesOk(RankOps(p, r, n))
  {
    hide Shard, RankOps, InRank, TimesOk;
    RankMembers(p, r, n - 1);
    ShardOps(p, n - 1, r);
    RankUnfold(p, r, n);
    forall op | op in RankOps(p, r, n - 1) ensures op.t <= Burst(p, n - 1) {
      RankTime(p, r, n - 1, op);
      BurstGrows(p, n - 2, n - 1);
    }
    AppendInTime(RankOps(p, r, n - 1), Shard(p, n - 1, r), Burst(p, n - 1));
  }

  lemma {:induction false} RankInTime(p: Params, r: nat, n: nat)
    requires ValidateParams(p)
    ensures TimesOk(RankOps(p, r, n))
  {
    hide Shard;
    if n > 0 {
      RankInTime(p, r, n - 1);
      RankStepInTime(p, r, n);
    }
  }

  lemma RankUnfold(p: Params, r: nat, n: nat)
    requires ValidateParams(p) && n > 0
    ensures RankOps(p, r, n) == RankOps(p, r, n - 1) + Shard(p, n - 1, r)
  {
  }

  // ----- Handles are distinct across shards -----

  lemma HandlesDiffer(p: Params, c: nat, r: nat, d: nat, q: nat)
    requires p.writerRanks > 0 && r < p.writerRanks && q < p.writerRanks && Handle(p, c, r) == Handle(p, d, q)
    ensures c == d && r == q
  {
    if c < d {
      FirstShardGrows(p, c, d);
    } else {
      FirstShardGrows(p, d, c);
    }
  }

  // An operation of another handle leaves a life alone.
  lemma {:induction false} LifeUntouched(mine: seq<Op>, more: seq<Op>, h: int)
    requires forall op :: op in more ==> op.h != Some(h)
    ensures LifeIn(mine + more, h) == LifeIn(mine, h)
  {
    hide LifeIn;
    if more == [] {
      assert mine + more == mine;
    } else {
      var init, last := more[..|more|-1], more[|more|-1];
      LifeUntouched(mine, init, h);
      assert mine + more == mine + init + [last] && last in more;
      LifeInSnoc(mine + init, last, h);
    }
  }

  ghost predicate OpenedByRank(p: Params, r: nat, n: nat, opens: set<int>) {
    forall x :: x in opens ==> exists c: nat :: c < n && x == Handle(p, c, r)
  }

  lemma NextHandleIsFresh(p: Params, r: nat, c: nat, opens: set<int>)
    requires p.writerRanks > r && OpenedByRank(p, r, c, opens)
    ensures Handle(p, c, r) !in opens
    ensures OpenedByRank(p, r, c + 1, opens + {Handle(p, c, r)})
  {
    hide Handle;
    if Handle(p, c, r) in opens {
      var d: nat :| d < c && Handle(p, c, r) == Handle(p, d, r);
      HandlesDiffer(p, c, r, d, r);
    }
    forall x | x in opens + {Handle(p, c, r)} ensures exists d: nat :: d < c + 1 && x == Handle(p, d, r) {
      if x in opens {
        var d: nat :| d < c && x == Handle(p, d, r);
        assert d < c + 1;
      }
    }
  }

  ghost predicate CompleteUpTo(p: Params, ops: seq<Op>, r: nat, n: nat)
    requires ValidateParams(p)
  {
    forall c: nat :: c < n ==> Complete(p, ops, c, r)
  }

  lemma CompleteStep(p: Params, before: seq<Op>, c: nat, r: nat)
    requires ValidateParams(p) && r < p.writerRanks
    requires CompleteUpTo(p, before, r, c) && Complete(p, before + Shard(p, c, r), c, r)
    ensures CompleteUpTo(p, before + Shard(p, c, r), r, c + 1)
  {
    hide Complete, Shard;
    forall d: nat | d < c ensures Complete(p, before + Shard(p, c, r), d, r) {
      EarlierStaysComplete(p, before, c, d, r);
    }
  }

  ghost predicate RankGood(p: Params, r: nat, n: nat, mine: seq<Op>)
    requires ValidateParams(p)
  {
    && Good(TargetTable(p), mine) && Live(mine) == {} && OpenedByRank(p, r, n, Opened(mine))
    && CompleteUpTo(p, mine, r, n)
  }

  lemma RankStaysGood(p: Params, r: nat, c: nat, mine: seq<Op>)
    requires ValidateParams(p) && r < p.writerRanks && c < p.numCheckpoints && RankGood(p, r, c, mine)
    ensures RankGood(p, r, c + 1, mine + Shard(p, c, r))
  {
    hide Good, Live, Opened, Shard, TargetTable, Handle, OpenedByRank, CompleteUpTo, Complete;
    NextHandleIsFresh(p, r, c, Opened(mine));
    AppendShard(p, mine, c, r);
    CompleteStep(p, mine, c, r);
  }

  lemma NothingIsGood(p: Params, r: nat)
    requires ValidateParams(p)
    ensures RankGood(p, r, 0, [])
  {
  }

  lemma {:induction false} RankIsGood(p: Params, r: nat, n: nat)
    requires ValidateParams(p) && r < p.writerRanks && n <= p.numCheckpoints
    ensures RankGood(p, r, n, RankOps(p, r, n))
  {
    hide RankGood, Shard;
    if n > 0 {
      RankIsGood(p, r, n - 1);
      RankStaysGood(p, r, n - 1, RankOps(p, r, n - 1));
    } else {
      NothingIsGood(p, r);
    }
  }

  lemma EarlierStaysComplete(p: Params, before: seq<Op>, c: nat, d: nat, r: nat)
    requires ValidateParams(p) && r < p.writerRanks && d < c && Complete(p, before, d, r)
    ensures Complete(p, before + Shard(p, c, r), d, r)
  {
    ShardOps(p, c, r);
    forall op | op in Shard(p, c, r) ensures op.h != Some(Handle(p, d, r)) {
      if Handle(p, c, r) == Handle(p, d, r) {
        HandlesDiffer(p, c, r, d, r);
      }
    }
    LifeUntouched(before, Shard(p, c, r), Handle(p, d, r));
  }

  // ----- The trace is well formed -----

  lemma RankShape(p: Params, h: Header, r: nat, op: Op)
    requires ValidateParams(p) && r < p.writerRanks && InRank(p, r, p.numCheckpoints, op)
    requires h.targets == TargetTable(p)
    ensures ShapeOk(h, op) && op.s == r && op.ret.None?
  {
    var c: nat :| c < p.numCheckpoints && InShard(p, c, r, op);
    TargetAt(p, c, p.numCheckpoints, r);
    hide Targets, Burst;
  }

  lemma RanksApart(p: Params, r: nat, q: nat, n: nat, a: set<int>, b: set<int>)
    requires p.writerRanks > 0 && r < p.writerRanks && q < p.writerRanks && r != q
    requires OpenedByRank(p, r, n, a) && OpenedByRank(p, q, n, b)
    ensures a !! b
  {
    hide Handle;
    forall x | x in a ensures x !in b {
      if x in b {
        var c: nat :| c < n && x == Handle(p, c, r);
        var d: nat :| d < n && x == Handle(p, d, q);
        HandlesDiffer(p, c, r, d, q);
      }
    }
  }

  lemma RankIsSound(p: Params, h: Header, r: nat)
    requires ValidateParams(p) && r < p.writerRanks && h.targets == TargetTable(p)
    ensures var mine := RankOps(p, r, p.numCheckpoints);
            && TimesOk(mine) && StreamHandlesOk(mine) && mine != []
            && OpenedByRank(p, r, p.numCheckpoints, Opened(mine))
            && forall op :: op in mine ==> ShapeOk(h, op) && op.s == r
  {
    RankIsGood(p, r, p.numCheckpoints);
    RankInTime(p, r, p.numCheckpoints);
    RankMembers(p, r, p.numCheckpoints);
    RankUnfold(p, r, p.numCheckpoints);
    hide RankOps, InRank, ShapeOk, TimesOk, Live, Opened, StreamHandlesOk, StreamAcceptable, OpenedByRank,
         CompleteUpTo, Writes, Fsyncs, OpenOp, TargetTable;
    forall op | op in RankOps(p, r, p.numCheckpoints) ensures ShapeOk(h, op) && op.s == r {
      RankShape(p, h, r, op);
    }
  }

  lemma StreamsAreSound(p: Params, h: Header)
    requires ValidateParams(p) && h.targets == TargetTable(p)
    ensures StreamsSound(h, Streams(p))
  {
    var streams := Streams(p);
    hide RankOps, Opened, ShapeOk, StreamHandlesOk, TimesOk, OpenedByRank, TargetTable, ValidateParams;
    forall s | s in streams
      ensures TimesOk(streams[s]) && StreamHandlesOk(streams[s]) && streams[s] != []
      ensures OpenedByRank(p, s, p.numCheckpoints, Opened(streams[s]))
      ensures forall op :: op in streams[s] ==> ShapeOk(h, op) && op.s == s
    {
      RankIsSound(p, h, s);
    }
    forall s, q | s in streams && q in streams && s != q ensures Opened(streams[s]) !! Opened(streams[q]) {
      RanksApart(p, s, q, p.numCheckpoints, Opened(streams[s]), Opened(streams[q]));
    }
    assert StreamsLabelled(streams);
  }

  lemma {:induction false} NoPartials(ops: seq<Op>)
    requires forall op :: op in ops ==> op.ret.None?
    ensures NumPartial(ops) == 0 && MinVersionForOps(ops) == TRACE_FORMAT_VERSION
  {
    if ops != [] {
      NoPartials(ops[..|ops|-1]);
    }
  }

  lemma {:induction false} CountRanks(n: nat, s: set<int>)
    requires forall x :: x in s <==> 0 <= x < n
    ensures |s| == n
  {
    if n == 0 {
      assert forall x :: x !in s;
      assert s == {};
    } else {
      CountRanks(n - 1, s - {n - 1});
    }
  }

  // What the merge of the ranks' streams contains.
  lemma MergedRankOps(p: Params, op: Op)
    requires ValidateParams(p) && (forall s :: s in Ranks(p.writerRanks) ==> s in Streams(p))
    requires op in Merged(Ranks(p.writerRanks), Streams(p))
    ensures 0 <= op.s < p.writerRanks && InRank(p, op.s, p.numCheckpoints, op)
  {
    RanksListed(p.writerRanks);
    hide Merged;
    MergedMembers(Ranks(p.writerRanks), Streams(p), op);
    var s :| s in Ranks(p.writerRanks) && op in Streams(p)[s];
    RankMembers(p, s, p.numCheckpoints);
    var c: nat :| c < p.numCheckpoints && InShard(p, c, s, op);
  }

  lemma MergedFacts(p: Params)
    requires ValidateParams(p) && (forall s :: s in Ranks(p.writerRanks) ==> s in Streams(p))
    ensures var ops := Merged(Ranks(p.writerRanks), Streams(p));
            && NumPartial(ops) == 0 && |StreamIds(ops)| == p.writerRanks
            && forall op :: op in ops ==> op.t >= 0
  {
    RanksListed(p.writerRanks);
    var h := HeaderFor(p, [], 0);
    var ops := Merged(Ranks(p.writerRanks), Streams(p));
    StreamsAreSound(p, h);
    MergedStreamIds(h, Ranks(p.writerRanks), Streams(p));
    CountRanks(p.writerRanks, StreamIds(ops));
    hide Merged, InRank, StreamIds;
    forall op | op in ops ensures op.ret.None? && op.t >= 0 {
      MergedRankOps(p, op);
      RankShape(p, h, op.s, op);
      RankTime(p, op.s, p.numCheckpoints, op);
    }
    NoPartials(ops);
  }

  lemma GeneratedHeaderOk(p: Params, ops: seq<Op>)
    requires ValidateParams(p) && forall op :: op in ops ==> op.t >= 0
    ensures HeaderOk(HeaderFor(p, ops, p.modelSize * p.numCheckpoints))
  {
    assert p.modelSize * p.numCheckpoints >= 0;
    TargetTableOk(p);
    assert ops != [] ==> ops[|ops|-1] in ops;
    hide TargetOk, Targets;
    var h := HeaderFor(p, ops, p.modelSize * p.numCheckpoints);
    assert h.targets == TargetTable(p) && SummaryOk(h.summary) && CaptureOk(h);
  }

  lemma GeneratedSummaryAgrees(p: Params)
    requires ValidateParams(p) && (forall s :: s in Ranks(p.writerRanks) ==> s in Streams(p))
    ensures SummaryAgrees(HeaderFor(p, AllOps(p), p.modelSize * p.numCheckpoints).summary,
                          Merged(Ranks(p.writerRanks), Streams(p)))
    ensures forall op :: op in AllOps(p) ==> op.t >= 0
  {
    MergedFacts(p);
    var ops := Merged(Ranks(p.writerRanks), Streams(p));
    hide Merged, Streams, StreamIds, NumPartial;
    forall op | op in Renumber(ops) ensures op.t >= 0 {
      var i :| 0 <= i < |ops| && Renumber(ops)[i] == op;
      assert ops[i] in ops;
    }
  }

  // Every accepted parameter set yields a trace the validator accepts.
  lemma GeneratedIsClean(p: Params)
    requires ValidateParams(p)
    ensures CleanTrace(HeaderFor(p, AllOps(p), p.modelSize * p.numCheckpoints), AllOps(p))
  {
    hide Merged, StreamsSound, HeaderOk, Targets, StreamIds, NumPartial, CleanTrace, Renumber, RankOps, SummaryAgrees;
    RanksListed(p.writerRanks);
    var h := HeaderFor(p, AllOps(p), p.modelSize * p.numCheckpoints);
    StreamsAreSound(p, h);
    GeneratedSummaryAgrees(p);
    GeneratedHeaderOk(p, AllOps(p));
    hide HeaderFor;
    MergedIsClean(h, Ranks(p.writerRanks), Streams(p));
  }

  lemma {:induction false} TargetsOkUpTo(p: Params, n: nat)
    requires ValidateParams(p)
    ensures forall i :: 0 <= i < FirstShard(p, n) ==> TargetOk(Targets(p, n)[i], i)
  {
    if n > 0 {
      TargetsOkUpTo(p, n - 1);
      FirstShardGrows(p, n - 1, n);
      forall i | 0 <= i < FirstShard(p, n) ensures TargetOk(Targets(p, n)[i], i) {
        if i >= FirstShard(p, n - 1) {
          SizesPositive(p, i - FirstShard(p, n - 1));
          hide ShardName, ShardSize;
          assert Targets(p, n)[i] == Target(p, n - 1, i - FirstShard(p, n - 1));
        } else {
          assert Targets(p, n)[i] == Targets(p, n - 1)[i];
        }
      }
    }
  }

  lemma TargetTableOk(p: Params)
    requires ValidateParams(p)
    ensures forall i :: 0 <= i < |TargetTable(p)| ==> TargetOk(TargetTable(p)[i], i)
  {
    TargetsOkUpTo(p, p.numCheckpoints);
  }

  // ----- The trace can be replayed against an object store -----

  // A handle used on one stream lives its whole life there.
  lemma {:induction false} LifeOnStream(ops: seq<Op>, h: int, s: int)
    requires forall op :: op in ops && op.h == Some(h) ==> op.s == s
    ensures LifeIn(ops, h) == LifeIn(OnStream(ops, s), h)
  {
    hide LifeIn;
    if ops != [] {
      var past, op := ops[..|ops|-1], ops[|ops|-1];
      assert ops == past + [op] && op in ops;
      LifeOnStream(past, h, s);
      LifeInSnoc(past, op, h);
      if op.s == s {
        LifeInSnoc(OnStream(past, s), op, h);
      }
    }
  }

  lemma {:induction false} LifeIgnoresIds(ops: seq<Op>, h: int)
    ensures LifeIn(Renumber(ops), h) == LifeIn(ops, h)
  {
    hide LifeIn;
    if ops == [] {
      assert Renumber(ops) == ops;
    } else {
      var past, op := ops[..|ops|-1], ops[|ops|-1];
      LifeIgnoresIds(past, h);
      assert ops == past + [op];
      RenumberSnoc(past, op);
      LifeInSnoc(past, op, h);
      LifeInSnoc(Renumber(past), op.(opId := Some(|past|)), h);
    }
  }

  ghost predicate HandlesStayOnStream(ops: seq<Op>) {
    forall a, b :: a in ops && b in ops && a.h.Some? && a.h == b.h ==> a.s == b.s
  }

  lemma AcceptableInTrace(targets: seq<TargetInfo>, ops: seq<Op>, i: nat)
    requires i < |ops| && StreamAcceptable(targets, OnStream(ops, ops[i].s)) && HandlesStayOnStream(ops)
    ensures AcceptableAfter(targets, ops[..i], ops[i])
  {
    hide LifeIn, OnStream;
    var op, mine := ops[i], OnStream(ops, ops[i].s);
    var k := |OnStream(ops[..i], op.s)|;
    OnStreamAt(ops, i);
    assert AcceptableAfter(targets, mine[..k], mine[k]);
    if op.h.Some? {
      LifeOnStream(ops[..i], op.h.value, op.s);
    }
  }

  lemma AcceptableRenumbered(targets: seq<TargetInfo>, ops: seq<Op>)
    requires forall i :: 0 <= i < |ops| ==> AcceptableAfter(targets, ops[..i], ops[i])
    ensures AllAcceptable(targets, Renumber(ops), Chunks(Renumber(ops)))
  {
    var out := Renumber(ops);
    hide LifeOf;
    forall i | 0 <= i < |out| && out[i].h.Some?
      ensures Acceptable(targets, LifeOf(out[..i], Chunks(out)[..i], out[i].h.value), out[i])
    {
      assert AcceptableAfter(targets, ops[..i], ops[i]);
      assert out[..i] == Renumber(ops[..i]) && Chunks(out)[..i] == Chunks(out[..i]);
      LifeIgnoresIds(ops[..i], ops[i].h.value);
    }
  }

  lemma RankHandlesStay(p: Params)
    requires ValidateParams(p) && (forall s :: s in Ranks(p.writerRanks) ==> s in Streams(p))
    ensures HandlesStayOnStream(Merged(Ranks(p.writerRanks), Streams(p)))
  {
    hide Merged, Handle, Streams;
    var ops := Merged(Ranks(p.writerRanks), Streams(p));
    forall a, b | a in ops && b in ops && a.h.Some? && a.h == b.h ensures a.s == b.s {
      MergedRankOps(p, a);
      MergedRankOps(p, b);
      var c: nat :| c < p.numCheckpoints && InShard(p, c, a.s, a);
      var d: nat :| d < p.numCheckpoints && InShard(p, d, b.s, b);
      HandlesDiffer(p, c, a.s, d, b.s);
    }
  }

  lemma MergedIsRank(p: Params, r: nat)
    requires ValidateParams(p) && (forall s :: s in Ranks(p.writerRanks) ==> s in Streams(p)) && r < p.writerRanks
    ensures OnStream(Merged(Ranks(p.writerRanks), Streams(p)), r) == RankOps(p, r, p.numCheckpoints)
  {
    var h := HeaderFor(p, [], 0);
    RanksListed(p.writerRanks);
    hide Merged, RankOps, TimesOk, StreamHandlesOk, ShapeOk, Opened;
    StreamsAreSound(p, h);
    MergedKeepsStream(Ranks(p.writerRanks), Streams(p), r);
  }

  lemma GeneratedIsAcceptable(p: Params)
    requires ValidateParams(p)
    ensures AllAcceptable(TargetTable(p), AllOps(p), Chunks(AllOps(p)))
  {
    RanksListed(p.writerRanks);
    hide Merged, Streams, StreamAcceptable, HandlesStayOnStream, AcceptableAfter, AllAcceptable, TargetTable, RankOps;
    var ops := Merged(Ranks(p.writerRanks), Streams(p));
    RankHandlesStay(p);
    forall i | 0 <= i < |ops| ensures AcceptableAfter(TargetTable(p), ops[..i], ops[i]) {
      MergedRankOps(p, ops[i]);
      MergedIsRank(p, ops[i].s);
      RankIsGood(p, ops[i].s, p.numCheckpoints);
      AcceptableInTrace(TargetTable(p), ops, i);
    }
    AcceptableRenumbered(TargetTable(p), ops);
  }

  lemma CleanIsChunked(h: Header, ops: seq<Op>)
    requires CleanOps(h, ops)
    ensures Chunked(ops, Chunks(ops))
  {
    forall i | 0 <= i < |ops| && ops[i].kind.OpWrite? ensures ops[i].len == Some(|Chunks(ops)[i]|) {
      assert ShapeOk(h, ops[i]);
    }
  }

  // The PREPARE pass of an object-store replay accepts every generated trace.
  lemma GeneratedIsEligible(p: Params)
    requires ValidateParams(p)
    ensures ObserveAll(AllOps(p), TargetTable(p)).Some?
  {
    GeneratedIsClean(p);
    GeneratedIsAcceptable(p);
    hide AllOps, CleanOps, AllAcceptable, ObserveAll, PassKnows;
    var h := HeaderFor(p, AllOps(p), p.modelSize * p.numCheckpoints);
    CleanIsChunked(h, AllOps(p));
    EligibleExactlyWhen(h, AllOps(p), Chunks(AllOps(p)));
  }

  lemma HandleStaysOnRank(p: Params, c: nat, r: nat)
    requires ValidateParams(p) && (forall s :: s in Ranks(p.writerRanks) ==> s in Streams(p))
    requires c < p.numCheckpoints && r < p.writerRanks
    ensures forall op :: op in Merged(Ranks(p.writerRanks), Streams(p)) && op.h == Some(Handle(p, c, r)) ==> op.s == r
  {
    hide Merged, Streams, Handle;
    forall op | op in Merged(Ranks(p.writerRanks), Streams(p)) && op.h == Some(Handle(p, c, r)) ensures op.s == r {
      MergedRankOps(p, op);
      var d: nat :| d < p.numCheckpoints && InShard(p, d, op.s, op);
      HandlesDiffer(p, c, r, d, op.s);
    }
  }

  // Every shard's WRITEs cover its target exactly, in order, and it is closed.
  lemma EveryShardIsComplete(p: Params, c: nat, r: nat)
    requires ValidateParams(p) && c < p.numCheckpoints && r < p.writerRanks
    ensures Complete(p, AllOps(p), c, r)
  {
    hide Merged, Streams, RankOps, Handle, LifeIn, Good, Live, Opened, Renumber, OpenedByRank, ValidateParams;
    RanksListed(p.writerRanks);
    var ops := Merged(Ranks(p.writerRanks), Streams(p));
    MergedIsRank(p, r);
    RankIsGood(p, r, p.numCheckpoints);
    assert Complete(p, RankOps(p, r, p.numCheckpoints), c, r);
    HandleStaysOnRank(p, c, r);
    LifeOnStream(ops, Handle(p, c, r), r);
    LifeIgnoresIds(ops, Handle(p, c, r));
  }

  predicate Continues(life: Life, op: Op) {
    InProgress(life) && op.off == Some(|life.streamed|)
  }

  lemma WriteContinues(h: Header, targets: seq<TargetInfo>, ops: seq<Op>, i: nat)
    requires CleanOps(h, ops) && AllAcceptable(targets, ops, Chunks(ops)) && i < |ops| && ops[i].kind.OpWrite?
    ensures ops[i].h.Some? && Continues(LifeIn(ops[..i], ops[i].h.value), ops[i])
  {
    CleanOpsTake(h, ops, i);
    assert ShapeOk(h, ops[i]) && HandleOk(ops[..i], ops[i]);
    CleanIsInProgress(h, ops[..i], Chunks(ops[..i]));
    assert Chunks(ops)[..i] == Chunks(ops[..i]);
    hide CleanOps, HandlesOk, LifeOf, Live, OnStream;
    assert ops[i].h.value in Live(OnStream(ops[..i], ops[i].s));
  }

  // Every WRITE starts where the earlier ones of its shard ended.
  lemma EveryWriteContinues(p: Params, i: nat)
    requires ValidateParams(p) && i < |AllOps(p)| && AllOps(p)[i].kind.OpWrite?
    ensures var op := AllOps(p)[i];
            op.h.Some? && Continues(LifeIn(AllOps(p)[..i], op.h.value), op)
  {
    hide AllOps, AllAcceptable, HeaderFor, HeaderOk, SummaryAgrees, Continues;
    GeneratedIsClean(p);
    GeneratedIsAcceptable(p);
    WriteContinues(HeaderFor(p, AllOps(p), p.modelSize * p.numCheckpoints), TargetTable(p), AllOps(p), i);
  }

  // ----- Bytes -----

  lemma {:induction false} WritesBytes(p: Params, c: nat, r: nat, off: int)
    requires ValidateParams(p) && 0 <= off <= ShardSize(p, r)
    ensures TotalBytes(Writes(p, c, r, off)) == ShardSize(p, r) - off
    decreases ShardSize(p, r) - off
  {
    hide TotalBytes, ShardSize;
    if off < ShardSize(p, r) {
      var n := Min(p.writeBlock, ShardSize(p, r) - off);
      WritesBytes(p, c, r, off + n);
      BytesOfOne(WriteOp(p, c, r, off, n));
      TotalBytesAppend([WriteOp(p, c, r, off, n)], Writes(p, c, r, off + n));
    } else {
      NoBytes();
    }
  }

  lemma ShardBytes(p: Params, c: nat, r: nat)
    requires ValidateParams(p)
    ensures TotalBytes(Shard(p, c, r)) == ShardSize(p, r)
  {
    hide TotalBytes, ShardSize, Writes;
    SizesPositive(p, r);
    WritesBytes(p, c, r, 0);
    BytesOfOne(OpenOp(p, c, r));
    BytesOfOne(HandleOp(p, c, r, OpFsync));
    BytesOfOne(HandleOp(p, c, r, OpClose));
    NoBytes();
    TotalBytesAppend([OpenOp(p, c, r)], Writes(p, c, r, 0));
    TotalBytesAppend([OpenOp(p, c, r)] + Writes(p, c, r, 0), Fsyncs(p, c, r));
    TotalBytesAppend([OpenOp(p, c, r)] + Writes(p, c, r, 0) + Fsyncs(p, c, r), [HandleOp(p, c, r, OpClose)]);
  }

  lemma {:induction false} RankBytes(p: Params, r: nat, n: nat)
    requires ValidateParams(p)
    ensures TotalBytes(RankOps(p, r, n)) == n * ShardSize(p, r)
  {
    hide Shard, ShardSize, TotalBytes;
    if n > 0 {
      RankBytes(p, r, n - 1);
      ShardBytes(p, n - 1, r);
      TotalBytesAppend(RankOps(p, r, n - 1), Shard(p, n - 1, r));
      assert (n - 1) * ShardSize(p, r) + ShardSize(p, r) == n * ShardSize(p, r);
    } else {
      NoBytes();
    }
  }

  lemma {:induction false} RanksBytes(p: Params, r: nat)
    requires ValidateParams(p) && r <= p.writerRanks && (forall s :: s in Ranks(r) ==> s in Streams(p))
    ensures BytesOfStreams(Ranks(r), Streams(p)) == p.numCheckpoints * SizesSum(p, r)
  {
    hide RankOps, ShardSize, TotalBytes;
    if r > 0 {
      RanksListed(r - 1);
      RanksBytes(p, r - 1);
      assert Ranks(r)[..r-1] == Ranks(r - 1);
      RankBytes(p, r - 1, p.numCheckpoints);
    }
  }

  // The declared total is what the WRITEs move, and it is the model written once
  // per checkpoint.
  lemma GeneratedBytes(p: Params)
    requires ValidateParams(p)
    ensures TotalBytes(AllOps(p)) == p.modelSize * p.numCheckpoints
  {
    RanksListed(p.writerRanks);
    hide TotalBytes, Streams, Merged, BytesOfStreams;
    RenumberKeepsSums(Merged(Ranks(p.writerRanks), Streams(p)));
    MergedBytes(Ranks(p.writerRanks), Streams(p));
    RanksBytes(p, p.writerRanks);
    ShardsHoldTheModel(p);
  }
}
