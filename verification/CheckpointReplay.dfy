// Preparing and replaying a generated checkpoint trace: every engine admits it,
// every file is given its shard's size, and no operation fails, not even where
// writes become PUTs.
module CheckpointReplay {
  import opened Trace
  import opened TraceContract
  import opened Merge
  import opened ObjectWrite
  import opened Checkpoint
  import opened CheckpointTheorems
  import opened Replay
  import opened ReplayTheorems
  import opened TraceReplay
  import opened ObjectReplay
  import opened Preparation
  import opened Extents
  import opened PrepMeta

  function GeneratedHeader(p: Params): Header
    requires ValidateParams(p)
  {
    HeaderFor(p, AllOps(p), p.modelSize * p.numCheckpoints)
  }

  // ----- Every operation belongs to a shard -----

  ghost predicate FromShard(p: Params, op: Op, c: nat, source: Op)
    requires ValidateParams(p)
  {
    && c < p.numCheckpoints && 0 <= op.s < p.writerRanks
    && InShard(p, c, op.s, source) && op == source.(opId := op.opId)
  }

  lemma GeneratedOp(p: Params, op: Op) returns (c: nat, source: Op)
    requires ValidateParams(p) && op in AllOps(p)
    ensures FromShard(p, op, c, source)
  {
    RanksListed(p.writerRanks);
    hide Merged, Streams, InShard;
    var ops := Merged(Ranks(p.writerRanks), Streams(p));
    var i :| 0 <= i < |ops| && Renumber(ops)[i] == op;
    source := ops[i];
    assert source in ops;
    MergedRankOps(p, source);
    c :| c < p.numCheckpoints && InShard(p, c, source.s, source);
  }

  lemma ShardOpIsAdmitted(p: Params, op: Op, c: nat, source: Op, engine: Engine)
    requires ValidateParams(p) && FromShard(p, op, c, source)
    ensures Admits(engine, op)
  {
  }

  // PREPARE accepts every generated trace, for either kind of engine.
  lemma GeneratedIsPreparable(p: Params, engine: Engine)
    requires ValidateParams(p)
    ensures Preparable(GeneratedHeader(p), AllOps(p), engine, false)
  {
    hide AllOps, CleanTrace, Admits, FromShard, ObjectWrite.ObserveAll, Targets;
    GeneratedIsClean(p);
    GeneratedIsEligible(p);
    forall op | op in AllOps(p) ensures Admits(engine, op) {
      var c, source := GeneratedOp(p, op);
      ShardOpIsAdmitted(p, op, c, source, engine);
    }
  }

  // ----- Every write is completed, so every OPEN is coalesced -----

  lemma OpenIsCoalesced(p: Params, op: Op)
    requires ValidateParams(p) && op in AllOps(p) && op.kind.OpOpen?
    requires ObjectWrite.ObserveAll(AllOps(p), TargetTable(p)).Some?
    ensures op.mode == ModeWrite && op.tgt.Some?
    ensures op.tgt.value in ObjectWrite.ObserveAll(AllOps(p), TargetTable(p)).value.sizes
  {
    var c, source := GeneratedOp(p, op);
    var h := GeneratedHeader(p);
    assert op.mode == ModeWrite && op.tgt == Some(ShardId(p, c, op.s));
    GeneratedIsClean(p);
    hide AllOps, CleanOps, Chunked, Targets, ObjectWrite.ObserveAll, LifeOf, FromShard, ShardSize;
    CleanIsChunked(h, AllOps(p));
    EveryShardIsComplete(p, c, op.s);
    TargetAt(p, c, p.numCheckpoints, op.s);
    CoalescingPreservesBytes(h, AllOps(p), Chunks(AllOps(p)), Handle(p, c, op.s));
  }

  lemma ShardKinds(p: Params, op: Op, c: nat, source: Op)
    requires ValidateParams(p) && FromShard(p, op, c, source)
    ensures !op.kind.OpRead? && (op.kind.OpOpen? ==> op.mode == ModeWrite) && (op.kind.OpWrite? ==> op.len != Some(0))
  {
  }

  // Nothing is read, every file is opened for writing, and what is opened is
  // written whole and closed.
  lemma GeneratedAsksLittle(p: Params, op: Op)
    requires ValidateParams(p) && op in AllOps(p)
    ensures !op.kind.OpRead? && (op.kind.OpOpen? ==> op.mode == ModeWrite) && (op.kind.OpWrite? ==> op.len != Some(0))
  {
    var c, source := GeneratedOp(p, op);
    ShardKinds(p, op, c, source);
  }

  lemma GeneratedIsServed(p: Params, engine: Engine)
    requires ValidateParams(p) && ObjectWrite.ObserveAll(AllOps(p), TargetTable(p)).Some?
    ensures AllServed(BackendFor(GeneratedHeader(p), AllOps(p), engine), AllOps(p))
  {
    hide AllOps, ObjectWrite.ObserveAll, Targets;
    forall op | op in AllOps(p)
      ensures !op.kind.OpRead? && (op.kind.OpOpen? ==> op.mode == ModeWrite && op.tgt.Some?)
      ensures op.kind.OpOpen? ==> op.tgt.value in ObjectWrite.ObserveAll(AllOps(p), TargetTable(p)).value.sizes
    {
      GeneratedAsksLittle(p, op);
      if op.kind.OpOpen? {
        OpenIsCoalesced(p, op);
      }
    }
  }

  lemma GeneratedIsClosed(p: Params, op: Op)
    requires ValidateParams(p) && op in AllOps(p) && op.kind.OpOpen?
    ensures op.h.Some? && var life := LifeIn(AllOps(p), op.h.value); life.Life? && life.closed
  {
    var c, source := GeneratedOp(p, op);
    hide AllOps, LifeIn, ShardSize, Targets;
    EveryShardIsComplete(p, c, op.s);
  }

  lemma GeneratedLifeIsClosed(p: Params, x: int)
    requires ValidateParams(p) && LifeIn(AllOps(p), x).Life?
    ensures LifeIn(AllOps(p), x).closed
  {
    var opener := OpenerOfLife(AllOps(p), Chunks(AllOps(p)), x);
    hide AllOps, LifeOf;
    GeneratedIsClosed(p, opener);
  }

  // All writes of a shard are as long as the shard, whatever handle they use.
  lemma GeneratedPutsAreRight(p: Params)
    requires ValidateParams(p) && ObjectWrite.ObserveAll(AllOps(p), TargetTable(p)).Some?
    ensures PutsAnnouncedRight(AllOps(p), Chunks(AllOps(p)),
                               ObjectWrite.ObserveAll(AllOps(p), TargetTable(p)).value.sizes)
  {
    var h, ops, chunks := GeneratedHeader(p), AllOps(p), Chunks(AllOps(p));
    var sizes := ObjectWrite.ObserveAll(ops, TargetTable(p)).value.sizes;
    GeneratedIsClean(p);
    hide AllOps, CleanOps, LifeOf, Targets, ObjectWrite.ObserveAll;
    CleanIsChunked(h, ops);
    forall t | t in sizes ensures EquallyLong(ops, chunks, t) {
      LastCloseWins(h, ops, chunks, t);
      TargetIsDeclared(p, t);
      forall x | ClosedWrite(LifeOf(ops, chunks, x), t)
        ensures |LifeOf(ops, chunks, x).streamed| == TargetTable(p)[t].size
      {
        CoalescingPreservesBytes(h, ops, chunks, x);
      }
    }
    forall x | LifeOf(ops, chunks, x).Life? ensures LifeOf(ops, chunks, x).closed {
      GeneratedLifeIsClosed(p, x);
    }
    forall i, x | 0 <= i < |ops| ensures !EmptyWrite(ops[i], x) {
      GeneratedAsksLittle(p, ops[i]);
    }
  }

  lemma TargetIsDeclared(p: Params, t: int)
    requires ValidateParams(p) && 0 <= t < |TargetTable(p)|
    ensures TargetTable(p)[t].size > 0
  {
    var c, r := TargetIsShard(p, p.numCheckpoints, t);
    SizesPositive(p, r);
  }

  // No operation of a generated trace fails, whatever the engine.
  lemma GeneratedNeverFails(p: Params, engine: Engine)
    requires ValidateParams(p)
    ensures ObjectWrite.ObserveAll(AllOps(p), TargetTable(p)).Some?
    ensures NothingFails(BackendFor(GeneratedHeader(p), AllOps(p), engine), AllOps(p))
  {
    var h, ops := GeneratedHeader(p), AllOps(p);
    hide AllOps, ObjectWrite.ObserveAll, CleanOps, NothingFails, AllServed, AllPutsMatch, PutsAnnouncedRight, Targets,
         Chunked, AccessOk;
    GeneratedIsClean(p);
    GeneratedIsEligible(p);
    GeneratedIsServed(p, engine);
    var b := BackendFor(h, ops, engine);
    BackendIsValid(h, ops, engine);
    match engine {
      case FileEngine(direct) => AccessIsService(direct, ops);
      case ObjectEngine =>
        CleanIsChunked(h, ops);
        GeneratedPutsAreRight(p);
        MatchesFromRight(h, ops, Chunks(ops), b);
    }
    ServedExactlyWhen(h, b, ops);
  }

  // ----- No two shards share a file -----

  predicate IsDigit(ch: char) {
    '0' <= ch <= '9'
  }

  // The number a string of digits writes.
  function Reading(digits: string): int {
    if digits == "" then 0
    else Reading(digits[..|digits|-1]) * 10 + (digits[|digits|-1] as int - '0' as int)
  }

  lemma DigitReads(n: nat)
    requires n < 10
    ensures IsDigit("0123456789"[n]) && "0123456789"[n] as int - '0' as int == n
  {
    assert n == 0 || n == 1 || n == 2 || n == 3 || n == 4 || n == 5 || n == 6 || n == 7 || n == 8 || n == 9;
  }

  lemma {:induction false} DigitsRead(n: nat)
    ensures Reading(Digits(n)) == n
    ensures forall ch :: ch in Digits(n) ==> IsDigit(ch)
  {
    DigitReads(n % 10);
    if n < 10 {
      assert Digits(n)[..0] == "";
    } else {
      DigitsRead(n / 10);
      assert Digits(n)[..|Digits(n)|-1] == Digits(n / 10);
    }
  }

  lemma {:induction false} LeadingZero(digits: string)
    ensures Reading("0" + digits) == Reading(digits)
  {
    if digits == "" {
      assert "0"[..0] == "";
      assert "0" + digits == "0";
    } else {
      LeadingZero(digits[..|digits|-1]);
      assert ("0" + digits)[..|digits|] == "0" + digits[..|digits|-1];
    }
  }

  lemma {:induction false} PaddedReads(digits: string)
    requires forall ch :: ch in digits ==> IsDigit(ch)
    ensures Reading(Padded(digits)) == Reading(digits)
    ensures forall ch :: ch in Padded(digits) ==> IsDigit(ch)
    decreases 4 - |digits|
  {
    if |digits| < 4 {
      LeadingZero(digits);
      PaddedReads("0" + digits);
    }
  }

  // Digits followed by something else, in two ways.
  lemma DigitsEnd(a: string, x: string, b: string, y: string)
    requires a + x == b + y && |x| > 0 && |y| > 0 && !IsDigit(x[0]) && !IsDigit(y[0])
    requires (forall ch :: ch in a ==> IsDigit(ch)) && (forall ch :: ch in b ==> IsDigit(ch))
    ensures a == b && x == y
  {
    NotShorter(a, x, b, y);
    NotShorter(b, y, a, x);
    assert a == (a + x)[..|a|] == (b + y)[..|b|] == b;
    assert x == (a + x)[|a|..] == (b + y)[|b|..] == y;
  }

  lemma NotShorter(a: string, x: string, b: string, y: string)
    requires a + x == b + y && |x| > 0 && !IsDigit(x[0]) && forall ch :: ch in b ==> IsDigit(ch)
    ensures |b| <= |a|
  {
    assert (a + x)[|a|] == x[0];
    assert forall k :: 0 <= k < |b| ==> (b + y)[k] == b[k] && IsDigit(b[k]);
  }

  lemma NameAfterPrefix(c: nat, r: nat) returns (first: string, second: string)
    ensures first == Padded(Digits(c)) && second == Padded(Digits(r))
    ensures ShardName(c, r) == "checkpoint_" + (first + ("/shard_" + (second + ".pt")))
    ensures Reading(first) == c && Reading(second) == r
    ensures (forall ch :: ch in first ==> IsDigit(ch)) && (forall ch :: ch in second ==> IsDigit(ch))
  {
    first, second := Padded(Digits(c)), Padded(Digits(r));
    DigitsRead(c);
    DigitsRead(r);
    PaddedReads(Digits(c));
    PaddedReads(Digits(r));
    hide Padded, Digits, Reading;
    assert ShardName(c, r) == "checkpoint_" + first + "/shard_" + second + ".pt";
    assert "checkpoint_" + first + "/shard_" + second + ".pt"
           == "checkpoint_" + (first + ("/shard_" + (second + ".pt")));
  }

  lemma SamePrefix(prefix: string, x: string, y: string)
    requires prefix + x == prefix + y
    ensures x == y
  {
    assert x == (prefix + x)[|prefix|..] == (prefix + y)[|prefix|..] == y;
  }

  lemma ShardNamesDiffer(c: nat, r: nat, d: nat, q: nat)
    requires ShardName(c, r) == ShardName(d, q)
    ensures c == d && r == q
  {
    hide ShardName, Reading, Padded, Digits;
    var a, b := NameAfterPrefix(c, r);
    var a', b' := NameAfterPrefix(d, q);
    SamePrefix("checkpoint_", a + ("/shard_" + (b + ".pt")), a' + ("/shard_" + (b' + ".pt")));
    DigitsEnd(a, "/shard_" + (b + ".pt"), a', "/shard_" + (b' + ".pt"));
    SamePrefix("/shard_", b + ".pt", b' + ".pt");
    DigitsEnd(b, ".pt", b', ".pt");
  }

  // Every target of the table is one shard's.
  lemma {:induction false} TargetIsShard(p: Params, n: nat, i: nat) returns (c: nat, r: nat)
    requires ValidateParams(p) && i < |Targets(p, n)|
    ensures c < n && r < p.writerRanks && Targets(p, n)[i] == Target(p, c, r) && i == ShardId(p, c, r)
  {
    if i < FirstShard(p, n - 1) {
      c, r := TargetIsShard(p, n - 1, i);
      assert Targets(p, n)[i] == Targets(p, n - 1)[i];
    } else {
      c, r := n - 1, i - FirstShard(p, n - 1);
    }
  }

  lemma GeneratedNamesDiffer(p: Params)
    requires ValidateParams(p)
    ensures DistinctNames(TargetTable(p))
  {
    hide Targets, ShardName, ShardId, ShardSize;
    var targets := TargetTable(p);
    forall i, j | 0 <= i < j < |targets| ensures targets[i].name != targets[j].name {
      var c, r := TargetIsShard(p, p.numCheckpoints, i);
      var d, q := TargetIsShard(p, p.numCheckpoints, j);
      if targets[i].name == targets[j].name {
        ShardNamesDiffer(c, r, d, q);
      }
    }
  }

  // A worker that materializes the files gives each exactly its shard's size,
  // whatever the extents.
  lemma ShardsArePreparedWhole(p: Params, extents: map<int, int>, c: nat, r: nat)
    requires ValidateParams(p) && c < p.numCheckpoints && r < p.writerRanks
    ensures var sizes := RequiredSizes(TargetTable(p), extents);
            ShardName(c, r) in sizes && sizes[ShardName(c, r)] == ShardSize(p, r)
  {
    TargetAt(p, c, p.numCheckpoints, r);
    SizesPositive(p, r);
    GeneratedNamesDiffer(p);
    hide Targets, ShardName, ShardId, ShardSize, RequiredSizes;
    var targets, i := TargetTable(p), ShardId(p, c, r);
    LastProviderWins(targets, extents, ShardName(c, r), i);
    assert Provides(targets, extents, ShardName(c, r), i);
    assert LastProvider(targets, extents, ShardName(c, r), i);
  }
}
