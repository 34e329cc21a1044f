// What a generated checkpoint trace looks like, in terms of the parameters alone
// (pkg/gen/checkpoint/generate.go:76-215): which operation stands on which rank,
// when, on which file, and how large it is.
module CheckpointLayout {
  import opened Arithmetic
  import opened Trace
  import opened TraceContract
  import opened Merge
  import opened Checkpoint
  import opened CheckpointTheorems
  import opened CheckpointReplay

  // The model split evenly, what is left over going to the last rank.
  function ShareOfModel(p: Params, r: int): int
    requires ValidateParams(p)
  {
    var even := p.modelSize / p.writerRanks;
    if r < p.writerRanks - 1 then even else p.modelSize - (p.writerRanks - 1) * even
  }

  lemma SharesAgree(p: Params, r: nat)
    requires ValidateParams(p) && r < p.writerRanks
    ensures ShardSize(p, r) == ShareOfModel(p, r)
  {
    var n, q := p.writerRanks, p.modelSize / p.writerRanks;
    assert p.modelSize == n * q + p.modelSize % n;
    assert (n - 1) * q == n * q - q;
  }

  // ----- The files -----

  // One file for each checkpoint and rank, checkpoint by checkpoint.
  lemma TableLayout(p: Params, c: nat, r: nat)
    requires ValidateParams(p) && c < p.numCheckpoints && r < p.writerRanks
    ensures |TargetTable(p)| == p.numCheckpoints * p.writerRanks
    ensures 0 <= c * p.writerRanks + r < |TargetTable(p)|
    ensures TargetTable(p)[c * p.writerRanks + r]
            == TargetInfo(c * p.writerRanks + r, ShardName(c, r), TargetFile, ShareOfModel(p, r))
  {
    FirstShardIsProduct(p, p.numCheckpoints);
    FirstShardIsProduct(p, c);
    TargetAt(p, c, p.numCheckpoints, r);
    SharesAgree(p, r);
    hide Targets, ShardName, FirstShard, ShardSize, ShareOfModel;
  }

  // A number in decimal, in four digits or as many as it needs.
  ghost predicate FourDigits(digits: string, n: nat) {
    && Reading(digits) == n && (forall ch :: ch in digits ==> IsDigit(ch))
    && |digits| >= 4 && (|digits| > 4 ==> digits[0] != '0')
  }

  lemma {:induction false} NoLeadingZero(n: nat)
    requires n > 0
    ensures Digits(n)[0] != '0'
  {
    if n < 10 {
      assert "0123456789"[n] != '0' by {
        assert n == 1 || n == 2 || n == 3 || n == 4 || n == 5 || n == 6 || n == 7 || n == 8 || n == 9;
      }
    } else {
      NoLeadingZero(n / 10);
    }
  }

  lemma {:induction false} PaddedWidth(digits: string)
    ensures |Padded(digits)| == if |digits| < 4 then 4 else |digits|
    ensures |digits| >= 4 ==> Padded(digits) == digits
    decreases 4 - |digits|
  {
    if |digits| < 4 {
      PaddedWidth("0" + digits);
    }
  }

  lemma PaddedIsFourDigits(n: nat)
    ensures FourDigits(Padded(Digits(n)), n)
  {
    DigitsRead(n);
    PaddedReads(Digits(n));
    PaddedWidth(Digits(n));
    hide Padded, Reading;
    if n > 0 {
      NoLeadingZero(n);
    } else {
      assert |Digits(0)| == 1;
    }
  }

  // A file is named after its checkpoint and its rank.
  lemma ShardNameReads(c: nat, r: nat) returns (first: string, second: string)
    ensures ShardName(c, r) == "checkpoint_" + first + "/shard_" + second + ".pt"
    ensures FourDigits(first, c) && FourDigits(second, r)
  {
    first, second := Padded(Digits(c)), Padded(Digits(r));
    PaddedIsFourDigits(c);
    PaddedIsFourDigits(r);
    hide FourDigits, Padded, Digits;
  }

  // ----- The operations -----

  // Operation of rank r in checkpoint c. A WRITE is a whole block, unless it ends
  // its file.
  predicate InLayout(p: Params, op: Op, c: int, r: int)
    requires ValidateParams(p)
  {
    var file := c * p.writerRanks + r;
    && 0 <= c < p.numCheckpoints && 0 <= r < p.writerRanks
    && op.s == r && op.t == c * p.intervalNS && op.h == Some(file + 1) && op.dur.None? && op.ret.None?
    && op.kind in {OpOpen, OpWrite, OpFsync, OpClose}
    && (op.kind.OpOpen? ==> op.tgt == Some(file) && op.mode == ModeWrite && op.flags == ["create", "trunc"])
    && (op.kind.OpWrite? ==>
          && op.off.Some? && op.len.Some? && 0 <= op.off.value && 0 < op.len.value <= p.writeBlock
          && op.off.value + op.len.value <= ShareOfModel(p, r)
          && (op.off.value + op.len.value < ShareOfModel(p, r) ==> op.len.value == p.writeBlock))
  }

  lemma ShardOpInLayout(p: Params, op: Op, c: nat, source: Op)
    requires ValidateParams(p) && FromShard(p, op, c, source)
    ensures InLayout(p, op, c, op.s)
  {
    BurstIsProduct(p, c);
    FirstShardIsProduct(p, c);
    SharesAgree(p, op.s);
    hide Burst, FirstShard, ShardSize, ShareOfModel;
  }

  // Every operation of a generated trace is one rank's in one checkpoint, due at
  // the start of the burst.
  lemma EveryOpInLayout(p: Params, op: Op) returns (c: int, r: int)
    requires ValidateParams(p) && op in AllOps(p)
    ensures InLayout(p, op, c, r)
  {
    var source;
    c, source := GeneratedOp(p, op);
    r := op.s;
    hide AllOps, InLayout;
    ShardOpInLayout(p, op, c, source);
  }

  lemma {:induction false} ShardIsOnRank(p: Params, c: nat, r: nat, n: nat, op: Op)
    requires ValidateParams(p) && c < n && op in Shard(p, c, r)
    ensures op in RankOps(p, r, n)
    decreases n
  {
    if c < n - 1 {
      ShardIsOnRank(p, c, r, n - 1, op);
    }
  }

  // The merged operations before numbering, each on the rank it came from.
  lemma BeforeNumbering(p: Params, r: nat) returns (ops: seq<Op>)
    requires ValidateParams(p) && r < p.writerRanks
    ensures AllOps(p) == Renumber(ops) && OnStream(ops, r) == RankOps(p, r, p.numCheckpoints)
    ensures HandlesStayOnStream(ops)
  {
    RanksListed(p.writerRanks);
    ops := Merged(Ranks(p.writerRanks), Streams(p));
    hide Merged, Streams, RankOps, HandlesStayOnStream;
    MergedIsRank(p, r);
    RankHandlesStay(p);
  }

  lemma ShardIsGenerated(p: Params, c: nat, r: nat, op: Op) returns (out: Op)
    requires ValidateParams(p) && c < p.numCheckpoints && r < p.writerRanks && op in Shard(p, c, r)
    ensures out in AllOps(p) && out == op.(opId := out.opId)
  {
    hide AllOps, Shard, RankOps, OnStream;
    ShardIsOnRank(p, c, r, p.numCheckpoints, op);
    var ops := BeforeNumbering(p, r);
    OnStreamOps(ops, r);
    var i :| 0 <= i < |ops| && ops[i] == op;
    out := Renumber(ops)[i];
  }

  // The trace lasts from the first burst to the last.
  lemma GeneratedDuration(p: Params)
    requires ValidateParams(p)
    ensures HeaderFor(p, AllOps(p), p.modelSize * p.numCheckpoints).summary.durationNS
            == (p.numCheckpoints - 1) * p.intervalNS
  {
    hide AllOps, HeaderFor, TimesOk;
    var ops := AllOps(p);
    var last := LastBurst(p);
    GeneratedIsClean(p);
    CleanIsInTime(HeaderFor(p, ops, p.modelSize * p.numCheckpoints), ops);
    LastIsLatest(ops, last);
    EndsByLastBurst(p, ops[|ops|-1]);
    DurationIsLast(p, ops);
  }

  lemma LastBurst(p: Params) returns (last: Op)
    requires ValidateParams(p)
    ensures last in AllOps(p) && last.t == (p.numCheckpoints - 1) * p.intervalNS
  {
    var n := p.numCheckpoints - 1;
    assert OpenOp(p, n, 0) in Shard(p, n, 0);
    BurstIsProduct(p, n);
    hide AllOps, Shard;
    last := ShardIsGenerated(p, n, 0, OpenOp(p, n, 0));
  }

  lemma EndsByLastBurst(p: Params, op: Op)
    requires ValidateParams(p) && op in AllOps(p)
    ensures op.t <= (p.numCheckpoints - 1) * p.intervalNS
  {
    hide AllOps, InLayout;
    var c, r := EveryOpInLayout(p, op);
    LayoutOnRank(p, op, c, r);
    NoLater(c, p.numCheckpoints - 1, p.intervalNS);
  }

  lemma NoLater(c: int, d: int, interval: int)
    requires c <= d && interval >= 0
    ensures c * interval <= d * interval
  {
    assert d * interval - c * interval == (d - c) * interval >= 0;
  }

  lemma LastIsLatest(ops: seq<Op>, op: Op)
    requires TimesOk(ops) && op in ops
    ensures op.t <= ops[|ops|-1].t && ops[|ops|-1] in ops
  {
    var i :| 0 <= i < |ops| && ops[i] == op;
  }

  lemma CleanIsInTime(h: Header, ops: seq<Op>)
    requires CleanTrace(h, ops)
    ensures TimesOk(ops)
  {
  }

  lemma DurationIsLast(p: Params, ops: seq<Op>)
    requires ValidateParams(p) && ops != []
    ensures HeaderFor(p, ops, p.modelSize * p.numCheckpoints).summary.durationNS == ops[|ops|-1].t
  {
  }

  // ----- Syncing -----

  predicate SyncsHandle(op: Op, x: int) {
    op.kind.OpFsync? && op.h == Some(x)
  }

  function Syncs(ops: seq<Op>, x: int): nat {
    if ops == [] then 0 else Syncs(ops[..|ops|-1], x) + if SyncsHandle(ops[|ops|-1], x) then 1 else 0
  }

  lemma SyncsSnoc(past: seq<Op>, op: Op, x: int)
    ensures Syncs(past + [op], x) == Syncs(past, x) + if SyncsHandle(op, x) then 1 else 0
  {
    assert (past + [op])[..|past|] == past;
  }

  lemma {:induction false} SyncsAppend(a: seq<Op>, b: seq<Op>, x: int)
    ensures Syncs(a + b, x) == Syncs(a, x) + Syncs(b, x)
  {
    if b == [] {
      assert a + b == a;
    } else {
      assert (a + b)[..|a + b|-1] == a + b[..|b|-1];
      SyncsAppend(a, b[..|b|-1], x);
    }
  }

  lemma {:induction false} NoSyncs(ops: seq<Op>, x: int)
    requires forall op :: op in ops ==> !SyncsHandle(op, x)
    ensures Syncs(ops, x) == 0
  {
    if ops != [] {
      NoSyncs(ops[..|ops|-1], x);
    }
  }

  lemma {:induction false} SyncsOnStream(ops: seq<Op>, x: int, s: int)
    requires forall op :: op in ops && op.h == Some(x) ==> op.s == s
    ensures Syncs(Renumber(ops), x) == Syncs(OnStream(ops, s), x)
  {
    if ops == [] {
      assert Renumber(ops) == ops;
    } else {
      var past, op := ops[..|ops|-1], ops[|ops|-1];
      assert ops == past + [op] && op in ops;
      SyncsOnStream(past, x, s);
      RenumberSnoc(past, op);
      OnStreamSnoc(past, op, s);
      SyncsSnoc(Renumber(past), op.(opId := Some(|past|)), x);
      SyncsSnoc(OnStream(past, s), op, x);
      hide Syncs, OnStream, Renumber;
    }
  }

  lemma {:induction false} NothingButWrites(p: Params, c: nat, r: nat, off: int, op: Op)
    requires ValidateParams(p) && op in Writes(p, c, r, off)
    ensures op.kind.OpWrite?
    decreases ShardSize(p, r) - off
  {
    hide ShardSize;
    if off < ShardSize(p, r) {
      var n := Min(p.writeBlock, ShardSize(p, r) - off);
      if op != WriteOp(p, c, r, off, n) {
        NothingButWrites(p, c, r, off + n, op);
      }
    }
  }

  // Whether the policy has the files of checkpoint c synced.
  predicate Synced(p: Params, c: int) {
    p.fsync.PerFile? || (p.fsync.Final? && c == p.numCheckpoints - 1)
  }

  lemma ShardSyncs(p: Params, c: nat, r: nat)
    requires ValidateParams(p)
    ensures Syncs(Shard(p, c, r), Handle(p, c, r)) == if Synced(p, c) then 1 else 0
  {
    var x := Handle(p, c, r);
    forall op | op in Writes(p, c, r, 0) ensures !SyncsHandle(op, x) {
      NothingButWrites(p, c, r, 0, op);
    }
    NoSyncs(Writes(p, c, r, 0), x);
    NoSyncs([OpenOp(p, c, r)], x);
    NoSyncs([HandleOp(p, c, r, OpClose)], x);
    hide Writes, ShardId;
    assert Fsyncs(p, c, r) != [] ==> Fsyncs(p, c, r)[..0] == [];
    SyncsAppend([OpenOp(p, c, r)], Writes(p, c, r, 0), x);
    SyncsAppend([OpenOp(p, c, r)] + Writes(p, c, r, 0), Fsyncs(p, c, r), x);
    SyncsAppend([OpenOp(p, c, r)] + Writes(p, c, r, 0) + Fsyncs(p, c, r), [HandleOp(p, c, r, OpClose)], x);
  }

  lemma {:induction false} RankSyncs(p: Params, c: nat, r: nat, n: nat)
    requires ValidateParams(p) && r < p.writerRanks
    ensures Syncs(RankOps(p, r, n), Handle(p, c, r)) == if c < n && Synced(p, c) then 1 else 0
  {
    hide Handle, Shard, Synced, ValidateParams;
    if n > 0 {
      RankSyncs(p, c, r, n - 1);
      SyncsAppend(RankOps(p, r, n - 1), Shard(p, n - 1, r), Handle(p, c, r));
      hide Syncs;
      if c == n - 1 {
        ShardSyncs(p, c, r);
      } else {
        OtherShardSyncs(p, c, r, n - 1);
      }
    }
  }

  lemma OtherShardSyncs(p: Params, c: nat, r: nat, other: nat)
    requires ValidateParams(p) && r < p.writerRanks && other != c
    ensures Syncs(Shard(p, other, r), Handle(p, c, r)) == 0
  {
    hide Handle, Shard, ValidateParams, Syncs;
    ShardOps(p, other, r);
    forall op | op in Shard(p, other, r) ensures !SyncsHandle(op, Handle(p, c, r)) {
      if op.h == Some(Handle(p, c, r)) {
        HandlesDiffer(p, other, r, c, r);
      }
    }
    NoSyncs(Shard(p, other, r), Handle(p, c, r));
  }

  lemma OpensOnRank(p: Params, ops: seq<Op>, c: nat, r: nat)
    requires ValidateParams(p) && c < p.numCheckpoints && r < p.writerRanks
    requires OnStream(ops, r) == RankOps(p, r, p.numCheckpoints) && HandlesStayOnStream(ops)
    ensures forall op :: op in ops && op.h == Some(Handle(p, c, r)) ==> op.s == r
  {
    var opener := OpenOp(p, c, r);
    assert opener in Shard(p, c, r);
    assert opener.h == Some(Handle(p, c, r)) && opener.s == r;
    hide OnStream, RankOps, Shard, Handle, OpenOp, HandlesStayOnStream;
    ShardIsOnRank(p, c, r, p.numCheckpoints, opener);
    OnStreamOps(ops, r);
    StaysWith(ops, opener);
  }

  lemma StaysWith(ops: seq<Op>, a: Op)
    requires HandlesStayOnStream(ops) && a in ops && a.h.Some?
    ensures forall b :: b in ops && b.h == a.h ==> b.s == a.s
  {
  }

  // Every file is synced once, those of the last checkpoint are, or none is.
  lemma SyncedByPolicy(p: Params, c: nat, r: nat)
    requires ValidateParams(p) && c < p.numCheckpoints && r < p.writerRanks
    ensures Syncs(AllOps(p), c * p.writerRanks + r + 1)
            == match p.fsync
               case PerFile => 1
               case Final => if c == p.numCheckpoints - 1 then 1 else 0
               case _ => 0
  {
    hide AllOps, Handle, Syncs, ValidateParams;
    HandleIsProduct(p, c, r);
    SyncsOfShard(p, c, r);
  }

  lemma HandleIsProduct(p: Params, c: nat, r: nat)
    requires ValidateParams(p) && r < p.writerRanks
    ensures Handle(p, c, r) == c * p.writerRanks + r + 1
  {
    FirstShardIsProduct(p, c);
  }

  lemma SyncsOfShard(p: Params, c: nat, r: nat)
    requires ValidateParams(p) && c < p.numCheckpoints && r < p.writerRanks
    ensures Syncs(AllOps(p), Handle(p, c, r)) == if Synced(p, c) then 1 else 0
  {
    hide AllOps, RankOps, Handle, Syncs, OnStream, Synced, ValidateParams;
    var ops := BeforeNumbering(p, r);
    RankSyncs(p, c, r, p.numCheckpoints);
    OpensOnRank(p, ops, c, r);
    SyncsOnStream(ops, Handle(p, c, r), r);
  }

  // No WRITE comes after the FSYNC of its file.
  ghost predicate SyncsLast(mine: seq<Op>) {
    forall i, j :: 0 <= i < j < |mine| && mine[i].kind.OpFsync? && mine[j].kind.OpWrite? ==> mine[i].h != mine[j].h
  }

  lemma ShardSyncsLast(p: Params, c: nat, r: nat)
    requires ValidateParams(p)
    ensures SyncsLast(Shard(p, c, r))
  {
    var mine, writes := Shard(p, c, r), Writes(p, c, r, 0);
    forall op | op in writes ensures op.kind.OpWrite? {
      NothingButWrites(p, c, r, 0, op);
    }
    hide Writes;
    assert forall j :: 1 <= j <= |writes| ==> mine[j] == writes[j - 1] && mine[j] in writes;
  }

  lemma {:induction false} RankSyncsLast(p: Params, r: nat, n: nat)
    requires ValidateParams(p) && r < p.writerRanks
    ensures SyncsLast(RankOps(p, r, n))
  {
    hide Shard, InShard, Handle;
    if n > 0 {
      RankSyncsLast(p, r, n - 1);
      ShardSyncsLast(p, n - 1, r);
      RankMembers(p, r, n - 1);
      ShardOps(p, n - 1, r);
      var front, back := RankOps(p, r, n - 1), Shard(p, n - 1, r);
      forall i, j | 0 <= i < |front| && 0 <= j < |back| ensures front[i].h != back[j].h {
        assert front[i] in front && back[j] in back;
        var c: nat :| c < n - 1 && InShard(p, c, r, front[i]);
        ShardsApart(p, c, n - 1, r, front[i], back[j]);
      }
      SyncsLastAppend(front, back);
    }
  }

  lemma ShardsApart(p: Params, c: nat, d: nat, r: nat, a: Op, b: Op)
    requires ValidateParams(p) && r < p.writerRanks && c != d && InShard(p, c, r, a) && InShard(p, d, r, b)
    ensures a.h != b.h
  {
    hide Handle;
    if a.h == b.h {
      HandlesDiffer(p, c, r, d, r);
    }
  }

  lemma SyncsLastAppend(a: seq<Op>, b: seq<Op>)
    requires SyncsLast(a) && SyncsLast(b)
    requires forall i, j :: 0 <= i < |a| && 0 <= j < |b| ==> a[i].h != b[j].h
    ensures SyncsLast(a + b)
  {
    var all := a + b;
    forall i, j | 0 <= i < j < |all| && all[i].kind.OpFsync? && all[j].kind.OpWrite? ensures all[i].h != all[j].h {
      assert i >= |a| ==> all[i] == b[i - |a|];
      assert j >= |a| ==> all[j] == b[j - |a|];
    }
  }

  lemma PrefixOnStream(ops: seq<Op>, i: nat, j: nat, s: int)
    requires i < j <= |ops| && ops[i].s == s
    ensures |OnStream(ops[..i], s)| < |OnStream(ops[..j], s)|
  {
    assert ops[..j] == ops[..i] + [ops[i]] + ops[i+1..j];
    OnStreamAppend(ops[..i] + [ops[i]], ops[i+1..j], s);
    OnStreamSnoc(ops[..i], ops[i], s);
  }

  // A file is synced only when all of it is written.
  lemma NothingWrittenAfterSync(p: Params, i: nat, j: nat)
    requires ValidateParams(p) && i < j < |AllOps(p)| && AllOps(p)[i].kind.OpFsync? && AllOps(p)[j].kind.OpWrite?
    ensures AllOps(p)[i].h != AllOps(p)[j].h
  {
    hide AllOps, RankOps, OnStream, SyncsLast, InLayout;
    var c, s := EveryOpInLayout(p, AllOps(p)[i]);
    LayoutOnRank(p, AllOps(p)[i], c, s);
    var ops := BeforeNumbering(p, s);
    RankSyncsLast(p, s, p.numCheckpoints);
    if ops[i].h == ops[j].h {
      assert ops[i] in ops && ops[j] in ops;
      SyncOrder(ops, i, j);
    }
  }

  lemma LayoutOnRank(p: Params, op: Op, c: int, r: int)
    requires ValidateParams(p) && InLayout(p, op, c, r)
    ensures 0 <= r < p.writerRanks && op.s == r && op.h.Some?
    ensures c <= p.numCheckpoints - 1 && op.t == c * p.intervalNS
  {
  }

  // The order of a trace is that of its streams.
  lemma SyncOrder(ops: seq<Op>, i: nat, j: nat)
    requires i < j < |ops| && ops[i].s == ops[j].s && SyncsLast(OnStream(ops, ops[i].s))
    requires ops[i].kind.OpFsync? && ops[j].kind.OpWrite?
    ensures ops[i].h != ops[j].h
  {
    OnStreamAt(ops, i);
    OnStreamAt(ops, j);
    PrefixOnStream(ops, i, j, ops[i].s);
    hide OnStream;
  }
}
