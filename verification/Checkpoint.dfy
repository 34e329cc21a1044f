// The checkpoint-write generator (pkg/gen/checkpoint/generate.go): a model split
// into one shard per writer rank, each shard written as one file.
module Checkpoint {
  import opened Arithmetic
  import opened Trace
  import opened Merge
  import opened SortedIds

  datatype FsyncPolicy = PerFile | Final | NoFsync | OtherPolicy(name: string)

  // The interval is already in nanoseconds.
  datatype Params = Params(
    modelSize: int, writerRanks: int, writeBlock: int, numCheckpoints: int, intervalNS: int, fsync: FsyncPolicy)

  predicate ValidateParams(p: Params) {
    && p.modelSize > 0
    && p.writerRanks > 0
    && p.writerRanks <= p.modelSize
    && p.writeBlock > 0
    && p.numCheckpoints > 0
    && p.intervalNS >= 0
    && !p.fsync.OtherPolicy?
  }

  // ----- What is generated, as functions of the parameters -----

  function Digits(n: nat): (r: string)
    ensures r != ""
  {
    if n < 10 then ["0123456789"[n]] else Digits(n / 10) + ["0123456789"[n % 10]]
  }

  function Padded(digits: string): string
    decreases 4 - |digits|
  {
    if |digits| < 4 then Padded("0" + digits) else digits
  }

  function ShardName(c: nat, r: nat): (name: string)
    ensures name != ""
  {
    "checkpoint_" + Padded(Digits(c)) + "/shard_" + Padded(Digits(r)) + ".pt"
  }

  function ShardSize(p: Params, r: int): int
    requires ValidateParams(p)
  {
    p.modelSize / p.writerRanks + if r == p.writerRanks - 1 then p.modelSize % p.writerRanks else 0
  }

  // Shards are numbered checkpoint by checkpoint; handles start at one.
  function FirstShard(p: Params, c: nat): int {
    if c == 0 then 0 else FirstShard(p, c - 1) + p.writerRanks
  }

  function ShardId(p: Params, c: nat, r: int): int {
    FirstShard(p, c) + r
  }

  function Target(p: Params, c: nat, r: nat): TargetInfo
    requires ValidateParams(p)
  {
    TargetInfo(ShardId(p, c, r), ShardName(c, r), TargetFile, ShardSize(p, r))
  }

  // The first r targets of checkpoint c, and all targets of the first c.
  function Row(p: Params, c: nat, r: nat): (targets: seq<TargetInfo>)
    requires ValidateParams(p)
    ensures |targets| == r
  {
    seq(r, k requires 0 <= k < r => Target(p, c, k))
  }

  function Targets(p: Params, c: nat): (targets: seq<TargetInfo>)
    requires ValidateParams(p)
    ensures |targets| == FirstShard(p, c)
  {
    if c == 0 then [] else Targets(p, c - 1) + Row(p, c - 1, p.writerRanks)
  }

  function Burst(p: Params, c: nat): int {
    if c == 0 then 0 else Burst(p, c - 1) + p.intervalNS
  }

  function OpenOp(p: Params, c: nat, r: nat): Op {
    BareOp(Burst(p, c), r, OpOpen).(tgt := Some(ShardId(p, c, r)), h := Some(ShardId(p, c, r) + 1),
                                    mode := ModeWrite, flags := ["create", "trunc"])
  }

  function WriteOp(p: Params, c: nat, r: nat, off: int, n: int): Op {
    BareOp(Burst(p, c), r, OpWrite).(h := Some(ShardId(p, c, r) + 1), off := Some(off), len := Some(n))
  }

  function HandleOp(p: Params, c: nat, r: nat, kind: OpKind): Op {
    BareOp(Burst(p, c), r, kind).(h := Some(ShardId(p, c, r) + 1))
  }

  // The WRITEs from off to the end of the shard.
  function Writes(p: Params, c: nat, r: nat, off: int): seq<Op>
    requires ValidateParams(p)
    decreases ShardSize(p, r) - off
  {
    if off >= ShardSize(p, r) then []
    else
      var n := Min(p.writeBlock, ShardSize(p, r) - off);
      [WriteOp(p, c, r, off, n)] + Writes(p, c, r, off + n)
  }

  function Fsyncs(p: Params, c: nat, r: nat): seq<Op> {
    if p.fsync.PerFile? || (p.fsync.Final? && c == p.numCheckpoints - 1) then [HandleOp(p, c, r, OpFsync)] else []
  }

  function Shard(p: Params, c: nat, r: nat): seq<Op>
    requires ValidateParams(p)
  {
    [OpenOp(p, c, r)] + Writes(p, c, r, 0) + Fsyncs(p, c, r) + [HandleOp(p, c, r, OpClose)]
  }

  // Rank r's operations of the first n checkpoints.
  function RankOps(p: Params, r: nat, n: nat): seq<Op>
    requires ValidateParams(p)
  {
    if n == 0 then [] else RankOps(p, r, n - 1) + Shard(p, n - 1, r)
  }

  function Ranks(n: nat): (r: seq<int>)
    ensures |r| == n && forall i :: 0 <= i < n ==> r[i] == i
  {
    seq(n, i => i)
  }

  lemma RanksListed(n: nat)
    ensures Distinct(Ranks(n)) && forall s :: s in Ranks(n) <==> 0 <= s < n
  {
    forall s | 0 <= s < n ensures s in Ranks(n) {
      assert Ranks(n)[s] == s;
    }
  }

  function Streams(p: Params): (r: map<int, seq<Op>>)
    requires ValidateParams(p)
    ensures forall s :: s in r <==> 0 <= s < p.writerRanks
  {
    map s: int | 0 <= s < p.writerRanks :: RankOps(p, s, p.numCheckpoints)
  }

  function AllOps(p: Params): seq<Op>
    requires ValidateParams(p)
  {
    RanksListed(p.writerRanks);
    Renumber(Merged(Ranks(p.writerRanks), Streams(p)))
  }

  function SizesSum(p: Params, r: nat): int
    requires ValidateParams(p)
  {
    if r == 0 then 0 else SizesSum(p, r - 1) + ShardSize(p, r - 1)
  }

  function HeaderFor(p: Params, ops: seq<Op>, totalBytes: int): Header
    requires ValidateParams(p)
  {
    Header(TRACE_FORMAT_VERSION, Synthetic, TIME_UNIT_NANOSECONDS, SyntheticMethod, "",
           Targets(p, p.numCheckpoints),
           Summary(|ops|, p.writerRanks, 0, totalBytes, if ops == [] then 0 else ops[|ops|-1].t, 0), [])
  }

  // ----- The generator -----

  method BuildTargets(p: Params) returns (targets: seq<TargetInfo>)
    requires ValidateParams(p)
    ensures targets == Targets(p, p.numCheckpoints)
  {
    var base, rem := p.modelSize / p.writerRanks, p.modelSize % p.writerRanks;
    targets := [];
    for c := 0 to p.numCheckpoints
      invariant targets == Targets(p, c)
    {
      for r := 0 to p.writerRanks
        invariant targets == Targets(p, c) + Row(p, c, r)
      {
        var size := base;
        if r == p.writerRanks - 1 {
          size := size + rem;
        }
        FirstShardIsProduct(p, c);
        assert Row(p, c, r + 1) == Row(p, c, r) + [Target(p, c, r)];
        targets := targets + [TargetInfo(c * p.writerRanks + r, ShardName(c, r), TargetFile, size)];
      }
    }
  }

  lemma {:induction false} FirstShardIsProduct(p: Params, c: nat)
    ensures FirstShard(p, c) == c * p.writerRanks
  {
    if c > 0 {
      FirstShardIsProduct(p, c - 1);
    }
  }

  method AppendOp(s: seq<StreamOp>, op: Op) returns (r: seq<StreamOp>)
    requires s == Tagged(op.s, Ops(s))
    ensures r == Tagged(op.s, Ops(r)) && Ops(r) == Ops(s) + [op]
  {
    r := s + [StreamOp(op.s, |s|, op)];
  }

  // One rank's part of one checkpoint, appended to its stream.
  method EmitShard(p: Params, s: seq<StreamOp>, c: nat, r: nat, t: int, tgtId: int, h: int, size: int)
      returns (out: seq<StreamOp>, bytes: int)
    requires ValidateParams(p) && c < p.numCheckpoints && r < p.writerRanks
    requires s == Tagged(r, Ops(s))
    requires t == Burst(p, c) && tgtId == ShardId(p, c, r) && h == tgtId + 1 && size == ShardSize(p, r)
    ensures out == Tagged(r, Ops(out)) && Ops(out) == Ops(s) + Shard(p, c, r)
    ensures bytes == size
  {
    hide Tagged, Ops, ShardSize, ShardId;
    out := AppendOp(s, BareOp(t, r, OpOpen).(tgt := Some(tgtId), h := Some(h),
                                             mode := ModeWrite, flags := ["create", "trunc"]));
    ghost var opening := Ops(out);
    var off := 0;
    bytes := 0;
    SizesPositive(p, r);
    while off < size
      invariant 0 <= off <= size && bytes == off
      invariant out == Tagged(r, Ops(out))
      invariant Ops(out) + Writes(p, c, r, off) == opening + Writes(p, c, r, 0)
      decreases size - off
    {
      var n := p.writeBlock;
      if size - off < n {
        n := size - off;
      }
      ghost var before := Ops(out);
      var op := BareOp(t, r, OpWrite).(h := Some(h), off := Some(off), len := Some(n));
      assert Writes(p, c, r, off) == [op] + Writes(p, c, r, off + n);
      out := AppendOp(out, op);
      assert before + ([op] + Writes(p, c, r, off + n)) == before + [op] + Writes(p, c, r, off + n);
      off := off + n;
      bytes := bytes + n;
    }
    assert Writes(p, c, r, off) == [];
    assert Ops(out) + [] == Ops(out);
    if p.fsync.PerFile? || (p.fsync.Final? && c == p.numCheckpoints - 1) {
      out := AppendOp(out, BareOp(t, r, OpFsync).(h := Some(h)));
    }
    assert opening + Writes(p, c, r, 0) + Fsyncs(p, c, r) == Ops(out);
    out := AppendOp(out, BareOp(t, r, OpClose).(h := Some(h)));
    assert Ops(s) + Shard(p, c, r)
           == Ops(s) + [OpenOp(p, c, r)] + Writes(p, c, r, 0) + Fsyncs(p, c, r) + [HandleOp(p, c, r, OpClose)];
  }

  lemma SizesPositive(p: Params, r: nat)
    requires ValidateParams(p)
    ensures ShardSize(p, r) > 0
  {
    assert p.modelSize / p.writerRanks >= 1;
  }

  lemma {:induction false} SumBeforeLast(p: Params, r: nat)
    requires ValidateParams(p) && r < p.writerRanks
    ensures SizesSum(p, r) == r * (p.modelSize / p.writerRanks)
  {
    if r > 0 {
      SumBeforeLast(p, r - 1);
    }
  }

  // The shards of one checkpoint hold the model exactly.
  lemma ShardsHoldTheModel(p: Params)
    requires ValidateParams(p)
    ensures SizesSum(p, p.writerRanks) == p.modelSize
  {
    var n, q := p.writerRanks, p.modelSize / p.writerRanks;
    SumBeforeLast(p, n - 1);
    assert SizesSum(p, n) == (n - 1) * q + q + p.modelSize % n;
    assert (n - 1) * q + q == n * q;
  }

  // All ranks' streams after c whole checkpoints and the first r ranks of the next.
  ghost predicate StreamsAt(p: Params, streams: seq<seq<StreamOp>>, c: nat, r: nat)
    requires ValidateParams(p)
  {
    && |streams| == p.writerRanks
    && forall k :: 0 <= k < p.writerRanks ==>
         && streams[k] == Tagged(k, Ops(streams[k]))
         && Ops(streams[k]) == RankOps(p, k, if k < r then c + 1 else c)
  }

  ghost predicate ClocksAt(p: Params, clocks: seq<int>, c: nat, r: nat) {
    && |clocks| == p.writerRanks
    && forall k :: 0 <= k < p.writerRanks ==>
         clocks[k] == (if k < r then Burst(p, c) else if c == 0 then 0 else Burst(p, c - 1))
  }

  method Generate(p: Params) returns (r: Option<(Header, seq<Op>)>)
    ensures r.Some? <==> ValidateParams(p)
    ensures r.Some? ==> r.value == (HeaderFor(p, AllOps(p), p.modelSize * p.numCheckpoints), AllOps(p))
  {
    hide Sort, Joined, Streams, Targets, StreamsAt, AllOps, HeaderFor, Renumber, Ops, RankOps;
    if !ValidateParams(p) {
      return None;
    }
    var targets := BuildTargets(p);
    var perStream, totalBytes := GenerateStreams(p, targets);
    var all := JoinRanks(p, perStream);
    var ops := Number(Sort(all));
    AllOpsAre(p);
    var hdr := MakeHeader(p, targets, ops, totalBytes);
    r := Some((hdr, ops));
  }

  lemma AllOpsAre(p: Params)
    requires ValidateParams(p) && (forall s :: s in Ranks(p.writerRanks) ==> s in Streams(p))
    ensures AllOps(p) == Renumber(Ops(Sort(Joined(Ranks(p.writerRanks), Streams(p)))))
  {
  }

  method MakeHeader(p: Params, targets: seq<TargetInfo>, ops: seq<Op>, totalBytes: int) returns (hdr: Header)
    requires ValidateParams(p) && targets == Targets(p, p.numCheckpoints)
    ensures hdr == HeaderFor(p, ops, totalBytes)
  {
    var durationNS := 0;
    if |ops| > 0 {
      durationNS := ops[|ops|-1].t;
    }
    hdr := Header(TRACE_FORMAT_VERSION, Synthetic, TIME_UNIT_NANOSECONDS, SyntheticMethod, "", targets,
                  Summary(|ops|, p.writerRanks, 0, totalBytes, durationNS, 0), []);
  }

  method GenerateStreams(p: Params, targets: seq<TargetInfo>) returns (perStream: array<seq<StreamOp>>, totalBytes: int)
    requires ValidateParams(p) && targets == Targets(p, p.numCheckpoints)
    ensures StreamsAt(p, perStream[..], p.numCheckpoints, 0)
    ensures totalBytes == p.modelSize * p.numCheckpoints
  {
    perStream := new seq<StreamOp>[p.writerRanks](_ => []);
    var streamT := new int[p.writerRanks](_ => 0);
    var nextHandle := 1;
    totalBytes := 0;
    assert StreamsAt(p, perStream[..], 0, 0) && ClocksAt(p, streamT[..], 0, 0);
    hide StreamsAt, ClocksAt, SizesSum, Targets;
    for c := 0 to p.numCheckpoints
      invariant StreamsAt(p, perStream[..], c, 0) && ClocksAt(p, streamT[..], c, 0)
      invariant nextHandle == FirstShard(p, c) + 1
      invariant totalBytes == p.modelSize * c
    {
      var bytes;
      nextHandle, bytes := EmitCheckpoint(p, targets, c, perStream, streamT, nextHandle);
      totalBytes := totalBytes + bytes;
      assert p.modelSize * (c + 1) == p.modelSize * c + p.modelSize;
    }
  }

  // One burst: every rank's shard of checkpoint c.
  method EmitCheckpoint(p: Params, targets: seq<TargetInfo>, c: nat, perStream: array<seq<StreamOp>>,
                        streamT: array<int>, firstHandle: int)
      returns (nextHandle: int, bytes: int)
    requires ValidateParams(p) && c < p.numCheckpoints && targets == Targets(p, p.numCheckpoints)
    requires StreamsAt(p, perStream[..], c, 0) && ClocksAt(p, streamT[..], c, 0)
    requires firstHandle == FirstShard(p, c) + 1
    modifies perStream, streamT
    ensures StreamsAt(p, perStream[..], c + 1, 0) && ClocksAt(p, streamT[..], c + 1, 0)
    ensures nextHandle == FirstShard(p, c + 1) + 1
    ensures bytes == p.modelSize
  {
    nextHandle, bytes := firstHandle, 0;
    hide Shard, ShardSize, Tagged, Ops, RankOps;
    for r := 0 to p.writerRanks
      invariant StreamsAt(p, perStream[..], c, r) && ClocksAt(p, streamT[..], c, r)
      invariant nextHandle == FirstShard(p, c) + r + 1
      invariant bytes == SizesSum(p, r)
    {
      var t := BurstOf(p, c);
      if streamT[..][r] > t {
        t := streamT[r];
      }
      ghost var clocks, streams := streamT[..], perStream[..];
      streamT[r] := t;
      assert streamT[..] == clocks[r := t];
      var tgtId := c * p.writerRanks + r;
      FirstShardIsProduct(p, c);
      TargetAt(p, c, p.numCheckpoints, r);
      assert perStream[..][r] == perStream[r];
      var size;
      perStream[r], size := EmitShard(p, perStream[r], c, r, t, tgtId, nextHandle, targets[tgtId].size);
      RankStep(p, streams, perStream[r], c, r);
      nextHandle := nextHandle + 1;
      bytes := bytes + size;
      assert perStream[..] == streams[r := perStream[r]];
    }
    ShardsHoldTheModel(p);
  }

  lemma RankStep(p: Params, streams: seq<seq<StreamOp>>, mine: seq<StreamOp>, c: nat, r: nat)
    requires ValidateParams(p) && r < p.writerRanks && StreamsAt(p, streams, c, r)
    requires mine == Tagged(r, Ops(mine)) && Ops(mine) == Ops(streams[r]) + Shard(p, c, r)
    ensures StreamsAt(p, streams[r := mine], c, r + 1)
  {
    hide Shard, Tagged, Ops;
  }

  method BurstOf(p: Params, c: nat) returns (t: int)
    ensures t == Burst(p, c)
  {
    t := c * p.intervalNS;
    BurstIsProduct(p, c);
  }

  lemma {:induction false} BurstIsProduct(p: Params, c: nat)
    ensures Burst(p, c) == c * p.intervalNS
  {
    if c > 0 {
      BurstIsProduct(p, c - 1);
    }
  }

  lemma {:induction false} TargetAt(p: Params, c: nat, n: nat, r: nat)
    requires ValidateParams(p) && c < n && r < p.writerRanks
    ensures 0 <= ShardId(p, c, r) < FirstShard(p, n)
    ensures Targets(p, n)[ShardId(p, c, r)] == Target(p, c, r)
    decreases n
  {
    FirstShardGrows(p, c, n - 1);
    if c < n - 1 {
      TargetAt(p, c, n - 1, r);
    }
  }

  lemma {:induction false} FirstShardGrows(p: Params, c: nat, d: nat)
    requires p.writerRanks > 0 && c <= d
    ensures 0 <= FirstShard(p, c) <= FirstShard(p, d)
    ensures c < d ==> FirstShard(p, c) + p.writerRanks <= FirstShard(p, d)
    decreases d
  {
    if c < d {
      FirstShardGrows(p, c, d - 1);
    } else if d > 0 {
      FirstShardGrows(p, d - 1, d - 1);
    }
  }

  method JoinRanks(p: Params, perStream: array<seq<StreamOp>>) returns (all: seq<StreamOp>)
    requires ValidateParams(p) && StreamsAt(p, perStream[..], p.numCheckpoints, 0)
    ensures (forall s :: s in Ranks(p.writerRanks) ==> s in Streams(p))
    ensures all == Joined(Ranks(p.writerRanks), Streams(p))
  {
    hide RankOps, Joined, Tagged, Ops, Shard;
    RanksListed(p.writerRanks);
    all := [];
    NothingJoined(p);
    for r := 0 to p.writerRanks
      invariant forall s :: s in Ranks(r) ==> s in Streams(p)
      invariant all == Joined(Ranks(r), Streams(p))
    {
      JoinedStep(p, r);
      assert perStream[..][r] == perStream[r];
      all := all + perStream[r];
    }
  }

  lemma NothingJoined(p: Params)
    requires ValidateParams(p)
    ensures Joined(Ranks(0), Streams(p)) == []
  {
  }

  lemma JoinedStep(p: Params, r: nat)
    requires ValidateParams(p) && r < p.writerRanks && (forall s :: s in Ranks(r) ==> s in Streams(p))
    ensures forall s :: s in Ranks(r + 1) ==> s in Streams(p)
    ensures Joined(Ranks(r + 1), Streams(p))
            == Joined(Ranks(r), Streams(p)) + Tagged(r, RankOps(p, r, p.numCheckpoints))
  {
    hide RankOps;
    RanksListed(r + 1);
    assert Ranks(r + 1)[..r] == Ranks(r);
  }

  method Number(all: seq<StreamOp>) returns (ops: seq<Op>)
    ensures ops == Renumber(Ops(all))
  {
    ops := [];
    for i := 0 to |all|
      invariant ops == Renumber(Ops(all[..i]))
    {
      assert Ops(all[..i+1]) == Ops(all[..i]) + [all[i].op];
      ops := ops + [all[i].op.(opId := Some(i))];
    }
    assert all[..|all|] == all;
  }
}
