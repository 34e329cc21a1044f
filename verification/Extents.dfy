// Does a file materialized at its derived size answer every READ as the source
// did? Sizes are derived by target and kept by name (pkg/replay/executor.go:
// 196-237, pkg/prepare/prepare.go:188-202); a READ is checked at
// pkg/replay/scheduler.go:704-749.
module Extents {
  import opened Arithmetic
  import opened Trace
  import opened TraceContract
  import opened PrepMeta

  // What a file of the given length has to offer at off.
  function Available(length: int, off: int, len: int): int {
    if length - off < len then Max(0, length - off) else len
  }

  // ----- One READ against a file -----

  datatype Error = NoError | ErrShortRead | ErrInvalidCount | ErrOther

  datatype Checked = Checked(bytes: int, short: bool, error: Error)

  // The local engine reads once and reports a short result as ErrShortRead.
  function EngineRead(length: int, off: int, len: int): (int, Error) {
    var n := Available(length, off, len);
    (n, if n < len then ErrShortRead else NoError)
  }

  function ValidTransferredBytes(n: int, requested: int): int {
    if n < 0 then 0 else if n > requested then requested else n
  }

  function CheckedReadTransfer(n: int, requested: int, expected: int, error: Error): Checked {
    var bytes := ValidTransferredBytes(n, requested);
    if n < 0 || n > requested then Checked(bytes, true, ErrInvalidCount)
    else if n != expected then Checked(bytes, true, if error.NoError? then ErrShortRead else error)
    else Checked(bytes, false, if error.ErrShortRead? then NoError else error)
  }

  // What a transfer is reported as, against the count that was recorded.
  lemma CheckedMeaning(n: int, requested: nat, expected: int, error: Error)
    ensures var c := CheckedReadTransfer(n, requested, expected, error);
            && (c.short <==> n < 0 || n > requested || n != expected)
            && 0 <= c.bytes <= requested
            && (0 <= n <= requested ==> c.bytes == n)
            && (n > requested ==> c.bytes == requested)
            && (c.error == NoError <==> !c.short && (error == NoError || error == ErrShortRead))
            && (c.error == ErrShortRead <==>
                  0 <= n <= requested && n != expected && (error == NoError || error == ErrShortRead))
  {
  }

  function ReplayedRead(length: int, op: Op): Checked
    requires op.off.Some? && op.len.Some?
  {
    var (n, error) := EngineRead(length, op.off.value, op.len.value);
    CheckedReadTransfer(n, op.len.value, op.Moved(), error)
  }

  // The replay reports the recorded count, no short read and no error.
  predicate Reproduced(length: int, op: Op) {
    op.off.Some? && op.len.Some? && ReplayedRead(length, op) == Checked(op.Moved(), false, NoError)
  }

  lemma ReproducedMeaning(length: int, op: Op)
    requires NonNegative(op.off) && NonNegative(op.len)
    ensures Reproduced(length, op) <==> Available(length, op.off.value, op.len.value) == op.Moved()
  {
  }

  // ----- Extents, by target -----

  function ReachAt(ops: seq<Op>, i: nat): Option<(int, int)>
    requires i < |ops|
  {
    Reach(ObserveAll(ops[..i]), ops[i])
  }

  predicate Touches(ops: seq<Op>, i: int, target: int) {
    0 <= i < |ops| && ReachAt(ops, i).Some? && ReachAt(ops, i).value.0 == target
  }

  // The derived extent is the furthest end any operation reached.
  lemma {:induction false} ExtentIsFurthestEnd(ops: seq<Op>, target: int)
    ensures var e := Extent(ObserveAll(ops).extents, target);
            && 0 <= e
            && (forall i :: Touches(ops, i, target) ==> ReachAt(ops, i).value.1 <= e)
            && (e == 0 || exists i :: Touches(ops, i, target) && ReachAt(ops, i).value.1 == e)
  {
    if ops != [] {
      var n := |ops| - 1;
      var past := ops[..n];
      ExtentIsFurthestEnd(past, target);
      forall i | 0 <= i < n ensures ReachAt(ops, i) == ReachAt(past, i) {
        assert ops[..i] == past[..i];
      }
      assert forall i :: 0 <= i < n ==> (Touches(ops, i, target) <==> Touches(past, i, target));
      var e := Extent(ObserveAll(past).extents, target);
      if Touches(ops, n, target) && ReachAt(ops, n).value.1 > e {
        assert Extent(ObserveAll(ops).extents, target) == ReachAt(ops, n).value.1;
      } else {
        assert Extent(ObserveAll(ops).extents, target) == e;
        if i :| Touches(past, i, target) && ReachAt(past, i).value.1 == e {
          assert Touches(ops, i, target) && ReachAt(ops, i).value.1 == e;
        }
      }
    }
  }

  // ----- Reads of one file, through whichever targets name it -----

  // The file a target stands for.
  function FileOf(targets: seq<TargetInfo>, target: int): Option<string> {
    if 0 <= target < |targets| then Some(targets[target].name) else None
  }

  predicate TouchesFile(targets: seq<TargetInfo>, ops: seq<Op>, i: int, name: string) {
    0 <= i < |ops| && ReachAt(ops, i).Some? && FileOf(targets, ReachAt(ops, i).value.0) == Some(name)
  }

  predicate ReadsFile(targets: seq<TargetInfo>, ops: seq<Op>, i: int, name: string) {
    TouchesFile(targets, ops, i, name) && IsRead(ops[i])
  }

  predicate ReadsTarget(ops: seq<Op>, i: int, target: int) {
    Touches(ops, i, target) && IsRead(ops[i])
  }

  predicate IsShort(op: Op) {
    op.Moved() < op.len.GetOr(0)
  }

  function End(op: Op): int {
    op.off.GetOr(0) + op.Moved()
  }

  predicate MayResize(op: Op) {
    op.kind.OpPut? || op.kind.OpDelete? || (op.kind.OpOpen? && "trunc" in op.flags)
  }

  // No operation changes the file's length.
  ghost predicate Unwritten(targets: seq<TargetInfo>, ops: seq<Op>, name: string) {
    && (forall i :: TouchesFile(targets, ops, i, name) ==> IsRead(ops[i]))
    && (forall op :: op in ops && op.tgt.Some? && FileOf(targets, op.tgt.value) == Some(name) ==> !MayResize(op))
  }

  // Every read of the file got what a file of length source could give.
  ghost predicate RecordedFrom(targets: seq<TargetInfo>, ops: seq<Op>, name: string, source: nat) {
    forall i :: ReadsFile(targets, ops, i, name) ==>
      ops[i].Moved() == Available(source, ops[i].off.GetOr(0), ops[i].len.GetOr(0))
  }

  ghost predicate AllReproduced(targets: seq<TargetInfo>, ops: seq<Op>, name: string, length: int) {
    forall i :: ReadsFile(targets, ops, i, name) ==> Reproduced(length, ops[i])
  }

  lemma ReadFields(h: Header, ops: seq<Op>, i: int, name: string)
    requires CleanOps(h, ops) && ReadsFile(h.targets, ops, i, name)
    ensures NonNegative(ops[i].off) && NonNegative(ops[i].len) && 0 <= ops[i].Moved() <= ops[i].len.value
    ensures ReachAt(ops, i).value.1 == End(ops[i])
  {
    assert ShapeOk(h, ops[i]);
  }

  // ----- Which lengths reproduce the reads -----

  // The bytes every read moved are there, and nothing is where one stopped short.
  predicate Fits(op: Op, length: int) {
    (op.Moved() > 0 ==> End(op) <= length) && (IsShort(op) ==> length <= End(op))
  }

  ghost predicate AllFit(targets: seq<TargetInfo>, ops: seq<Op>, name: string, length: int) {
    forall i :: ReadsFile(targets, ops, i, name) ==> Fits(ops[i], length)
  }

  lemma LengthReproducesExactlyWhen(h: Header, ops: seq<Op>, name: string, length: nat)
    requires CleanOps(h, ops)
    ensures AllReproduced(h.targets, ops, name, length) <==> AllFit(h.targets, ops, name, length)
  {
    hide CleanOps, ReachAt, Reproduced;
    forall i | ReadsFile(h.targets, ops, i, name) ensures Reproduced(length, ops[i]) <==> Fits(ops[i], length) {
      ReadFields(h, ops, i, name);
      ReproducedMeaning(length, ops[i]);
    }
  }

  // Where a short read stopped, the source had nothing more for any other read.
  lemma NothingBeyondShortRead(source: nat, short: Op, other: Op)
    requires NonNegative(short.off) && NonNegative(short.len) && IsShort(short)
    requires NonNegative(other.off) && NonNegative(other.len) && other.Moved() > 0
    requires short.Moved() == Available(source, short.off.value, short.len.value)
    requires other.Moved() == Available(source, other.off.value, other.len.value)
    ensures End(other) <= source <= End(short)
  {
  }

  // ----- The prepared size -----

  ghost predicate Undeclared(targets: seq<TargetInfo>, name: string) {
    forall target :: target in targets && target.name == name ==> target.size == 0
  }

  // Some read through the given target reached at least as far as every read of
  // the file that moved anything.
  ghost predicate ReachesFurthest(targets: seq<TargetInfo>, ops: seq<Op>, name: string, target: int) {
    exists k :: ReadsTarget(ops, k, target) &&
      forall i :: ReadsFile(targets, ops, i, name) && ops[i].Moved() > 0 ==> End(ops[i]) <= End(ops[k])
  }

  // No read through the given target that moved nothing starts past where a short
  // read of the file stopped.
  ghost predicate EmptyReadsCovered(targets: seq<TargetInfo>, ops: seq<Op>, name: string, target: int) {
    forall i, j ::
      (ReadsFile(targets, ops, i, name) && IsShort(ops[i]) && ReadsTarget(ops, j, target) && ops[j].Moved() == 0) ==>
      ops[j].off.GetOr(0) <= End(ops[i])
  }

  lemma TargetIsFile(h: Header, ops: seq<Op>, i: int, target: int)
    requires 0 <= target < |h.targets| && ReadsTarget(ops, i, target)
    ensures ReadsFile(h.targets, ops, i, h.targets[target].name)
  {
  }

  // The read that gave a target its extent.
  lemma FurthestRead(h: Header, ops: seq<Op>, target: int) returns (k: int)
    requires CleanOps(h, ops) && 0 <= target < |h.targets| && Unwritten(h.targets, ops, h.targets[target].name)
    requires Extent(ObserveAll(ops).extents, target) > 0
    ensures ReadsTarget(ops, k, target) && End(ops[k]) == Extent(ObserveAll(ops).extents, target)
  {
    ExtentIsFurthestEnd(ops, target);
    var e := Extent(ObserveAll(ops).extents, target);
    hide ObserveAll, CleanOps, Reach;
    k :| Touches(ops, k, target) && ReachAt(ops, k).value.1 == e;
    assert TouchesFile(h.targets, ops, k, h.targets[target].name);
    ReadFields(h, ops, k, h.targets[target].name);
  }

  lemma ExtentCovers(h: Header, ops: seq<Op>, target: int, i: int)
    requires CleanOps(h, ops) && 0 <= target < |h.targets| && ReadsTarget(ops, i, target)
    ensures 0 <= End(ops[i]) <= Extent(ObserveAll(ops).extents, target)
  {
    ExtentIsFurthestEnd(ops, target);
    TargetIsFile(h, ops, i, target);
    ReadFields(h, ops, i, h.targets[target].name);
  }

  // A file materialized at one target's extent reproduces every read of it,
  // through any target, exactly when that target reached furthest and read
  // nothing past the end a short read found.
  lemma ExtentReproducesExactlyWhen(h: Header, ops: seq<Op>, target: int, source: nat)
    requires CleanOps(h, ops) && 0 <= target < |h.targets| && Extent(ObserveAll(ops).extents, target) > 0
    requires var name := h.targets[target].name;
             Unwritten(h.targets, ops, name) && RecordedFrom(h.targets, ops, name, source)
    ensures var name := h.targets[target].name;
            AllReproduced(h.targets, ops, name, Extent(ObserveAll(ops).extents, target)) <==>
              ReachesFurthest(h.targets, ops, name, target) && EmptyReadsCovered(h.targets, ops, name, target)
  {
    var name, e := h.targets[target].name, Extent(ObserveAll(ops).extents, target);
    LengthReproducesExactlyWhen(h, ops, name, e);
    var k := FurthestRead(h, ops, target);
    forall i | ReadsTarget(ops, i, target) ensures End(ops[i]) <= e && ReadsFile(h.targets, ops, i, name) {
      ExtentCovers(h, ops, target, i);
      TargetIsFile(h, ops, i, target);
    }
    hide ObserveAll, CleanOps, ReadsTarget, ReadsFile, AllReproduced;
    if ReachesFurthest(h.targets, ops, name, target) && EmptyReadsCovered(h.targets, ops, name, target) {
      forall i | ReadsFile(h.targets, ops, i, name) ensures Fits(ops[i], e) {
        ReadFields(h, ops, i, name);
        ReadFields(h, ops, k, name);
        if IsShort(ops[i]) && ops[k].Moved() > 0 {
          NothingBeyondShortRead(source, ops[i], ops[k]);
        }
      }
    }
    if AllFit(h.targets, ops, name, e) {
      forall i, j | ReadsFile(h.targets, ops, i, name) && IsShort(ops[i])
                    && ReadsTarget(ops, j, target) && ops[j].Moved() == 0
        ensures ops[j].off.GetOr(0) <= End(ops[i])
      {
        assert Fits(ops[i], e);
      }
    }
  }

  lemma ProviderIsRead(h: Header, ops: seq<Op>, name: string, last: int)
    requires CleanOps(h, ops) && Unwritten(h.targets, ops, name)
    requires (forall i :: 0 <= i < |h.targets| ==> TargetOk(h.targets[i], i)) && Undeclared(h.targets, name)
    ensures Provides(h.targets, ObserveAll(ops).extents, name, last) <==>
              && 0 <= last < |h.targets| && h.targets[last].name == name
              && exists k :: ReadsTarget(ops, k, last) && End(ops[k]) > 0
    ensures Provides(h.targets, ObserveAll(ops).extents, name, last) ==>
              SizeFor(h.targets[last], ObserveAll(ops).extents) == Some(Extent(ObserveAll(ops).extents, last))
  {
    if 0 <= last < |h.targets| && h.targets[last].name == name {
      assert TargetOk(h.targets[last], last) && h.targets[last] in h.targets;
      hide ObserveAll, CleanOps, ReadsTarget, Unwritten;
      if Extent(ObserveAll(ops).extents, last) > 0 {
        var k := FurthestRead(h, ops, last);
      } else if k :| ReadsTarget(ops, k, last) && End(ops[k]) > 0 {
        ExtentCovers(h, ops, last, k);
      }
    }
  }

  // The size preparation gives a file of undeclared size. It gives one exactly
  // when some read of the file ended past zero; and with it every read, through
  // any target of that name, is reproduced exactly when the last target that was
  // read past zero reached furthest and read nothing past the end a short read
  // found.
  lemma PreparedSizeReproducesReads(h: Header, ops: seq<Op>, name: string, source: nat, last: int)
    requires HeaderOk(h) && CleanOps(h, ops) && Undeclared(h.targets, name)
    requires Unwritten(h.targets, ops, name) && RecordedFrom(h.targets, ops, name, source)
    ensures var sizes := RequiredSizes(h.targets, ObserveAll(ops).extents);
            && (name in sizes <==> exists i :: ReadsFile(h.targets, ops, i, name) && End(ops[i]) > 0)
            && (LastProvider(h.targets, ObserveAll(ops).extents, name, last) ==>
                  && name in sizes
                  && (AllReproduced(h.targets, ops, name, sizes[name]) <==>
                        && ReachesFurthest(h.targets, ops, name, last)
                        && EmptyReadsCovered(h.targets, ops, name, last)))
  {
    hide ObserveAll, CleanOps, ReachAt, AllReproduced, ReachesFurthest, EmptyReadsCovered, RequiredSizes, Extent,
         Provides;
    var extents := ObserveAll(ops).extents;
    LastProviderWins(h.targets, extents, name, last);
    if j :| Provides(h.targets, extents, name, j) {
      ProviderIsRead(h, ops, name, j);
      var k :| ReadsTarget(ops, k, j) && End(ops[k]) > 0;
      TargetIsFile(h, ops, k, j);
      assert ReadsFile(h.targets, ops, k, name) && End(ops[k]) > 0;
    }
    if i :| ReadsFile(h.targets, ops, i, name) && End(ops[i]) > 0 {
      var j := ReachAt(ops, i).value.0;
      FileReadIsTargetRead(h.targets, ops, i, name);
      ProviderIsRead(h, ops, name, j);
      assert Provides(h.targets, extents, name, j);
    }
    if LastProvider(h.targets, extents, name, last) {
      ProviderIsRead(h, ops, name, last);
      SizeIsPositive(h.targets[last], extents);
      ExtentReproducesExactlyWhen(h, ops, last, source);
    }
  }

  lemma FileReadIsTargetRead(targets: seq<TargetInfo>, ops: seq<Op>, i: int, name: string)
    requires ReadsFile(targets, ops, i, name)
    ensures var j := ReachAt(ops, i).value.0;
            0 <= j < |targets| && targets[j].name == name && ReadsTarget(ops, i, j)
  {
  }

  lemma SizeIsPositive(target: TargetInfo, extents: map<int, int>)
    ensures SizeFor(target, extents).Some? ==> SizeFor(target, extents).value > 0
  {
  }

  // ----- Tables in which every file has one target -----

  ghost predicate DistinctNames(targets: seq<TargetInfo>) {
    forall i, j :: 0 <= i < j < |targets| ==> targets[i].name != targets[j].name
  }

  // Then only the empty reads matter.
  lemma DistinctNamesReproduceReads(h: Header, ops: seq<Op>, target: int, source: nat)
    requires HeaderOk(h) && CleanOps(h, ops) && DistinctNames(h.targets) && 0 <= target < |h.targets|
    requires h.targets[target].size == 0
    requires var name := h.targets[target].name;
             Unwritten(h.targets, ops, name) && RecordedFrom(h.targets, ops, name, source)
    ensures var name, sizes := h.targets[target].name, RequiredSizes(h.targets, ObserveAll(ops).extents);
            && (name in sizes <==> exists i :: ReadsTarget(ops, i, target) && End(ops[i]) > 0)
            && (name in sizes ==> (AllReproduced(h.targets, ops, name, sizes[name]) <==>
                                     EmptyReadsCovered(h.targets, ops, name, target)))
  {
    var name := h.targets[target].name;
    UndeclaredAlone(h.targets, target);
    hide ReachAt, CleanOps, HeaderOk, AllReproduced, EmptyReadsCovered, RequiredSizes, Unwritten, RecordedFrom,
         DistinctNames, Undeclared, ObserveAll, ReachesFurthest;
    PreparedSizeReproducesReads(h, ops, name, source, target);
    forall i ensures ReadsFile(h.targets, ops, i, name) <==> ReadsTarget(ops, i, target) {
      OnlyTarget(h.targets, ops, i, target);
    }
    if name in RequiredSizes(h.targets, ObserveAll(ops).extents) {
      AloneReachesFurthest(h, ops, target);
    }
  }

  lemma UndeclaredAlone(targets: seq<TargetInfo>, target: int)
    requires DistinctNames(targets) && 0 <= target < |targets| && targets[target].size == 0
    ensures Undeclared(targets, targets[target].name)
  {
  }

  // The only target of a file provides its size, and its furthest read is the file's.
  lemma AloneReachesFurthest(h: Header, ops: seq<Op>, target: int)
    requires HeaderOk(h) && CleanOps(h, ops) && DistinctNames(h.targets) && 0 <= target < |h.targets|
    requires h.targets[target].size == 0 && Unwritten(h.targets, ops, h.targets[target].name)
    requires h.targets[target].name in RequiredSizes(h.targets, ObserveAll(ops).extents)
    ensures LastProvider(h.targets, ObserveAll(ops).extents, h.targets[target].name, target)
    ensures ReachesFurthest(h.targets, ops, h.targets[target].name, target)
  {
    var name, extents := h.targets[target].name, ObserveAll(ops).extents;
    LastProviderWins(h.targets, extents, name, target);
    assert LastProvider(h.targets, extents, name, target);
    TargetExtent(h, extents, target);
    hide ObserveAll, CleanOps, HeaderOk, ReachAt, RequiredSizes, Extent, Unwritten;
    var k := FurthestRead(h, ops, target);
    forall i | ReadsFile(h.targets, ops, i, name) ensures End(ops[i]) <= End(ops[k]) {
      OnlyTarget(h.targets, ops, i, target);
      ExtentCovers(h, ops, target, i);
    }
  }

  lemma OnlyTarget(targets: seq<TargetInfo>, ops: seq<Op>, i: int, target: int)
    requires DistinctNames(targets) && 0 <= target < |targets|
    ensures ReadsFile(targets, ops, i, targets[target].name) <==> ReadsTarget(ops, i, target)
  {
  }

  lemma TargetExtent(h: Header, extents: map<int, int>, target: int)
    requires HeaderOk(h) && 0 <= target < |h.targets| && h.targets[target].size == 0
    requires SizeFor(h.targets[target], extents).Some?
    ensures Extent(extents, target) > 0
  {
    assert TargetOk(h.targets[target], target);
  }

  // A file of undeclared size is given one exactly when its target has an extent.
  lemma SizedByExtent(h: Header, extents: map<int, int>, target: int)
    requires HeaderOk(h) && DistinctNames(h.targets) && 0 <= target < |h.targets| && h.targets[target].size == 0
    ensures h.targets[target].name in RequiredSizes(h.targets, extents) <==> Extent(extents, target) > 0
  {
    var name := h.targets[target].name;
    assert TargetOk(h.targets[target], target);
    LastProviderWins(h.targets, extents, name, target);
    hide RequiredSizes, HeaderOk;
    assert Provides(h.targets, extents, name, target) <==> Extent(extents, target) > 0;
    forall j | Provides(h.targets, extents, name, j) ensures j == target {
    }
  }

  ghost predicate Touched(ops: seq<Op>, target: int) {
    exists i :: Touches(ops, i, target)
  }

  lemma ExtentWhenTouched(ops: seq<Op>, target: int)
    requires forall i :: Touches(ops, i, target) ==> ReachAt(ops, i).value.1 > 0
    ensures Extent(ObserveAll(ops).extents, target) > 0 <==> Touched(ops, target)
  {
    ExtentIsFurthestEnd(ops, target);
    hide ObserveAll, Reach, Extent;
  }

  // Every target of the file declares the source's length.
  lemma DeclaredSizeReproducesReads(h: Header, ops: seq<Op>, target: int, source: nat)
    requires CleanOps(h, ops) && 0 <= target < |h.targets| && source > 0
    requires RecordedFrom(h.targets, ops, h.targets[target].name, source)
    requires forall other :: other in h.targets && other.name == h.targets[target].name ==> other.size == source
    ensures var name, sizes := h.targets[target].name, RequiredSizes(h.targets, ObserveAll(ops).extents);
            name in sizes && sizes[name] == source && AllReproduced(h.targets, ops, name, source)
  {
    var name, extents := h.targets[target].name, ObserveAll(ops).extents;
    hide ObserveAll, CleanOps, ReadsFile, RequiredSizes;
    assert h.targets[target] in h.targets && Provides(h.targets, extents, name, target);
    LastProviderWins(h.targets, extents, name, target);
    var last := LastProviderExists(h.targets, extents, name);
    LastProviderWins(h.targets, extents, name, last);
    assert h.targets[last] in h.targets;
    forall i | ReadsFile(h.targets, ops, i, name) ensures Reproduced(source, ops[i]) {
      ReadFields(h, ops, i, name);
      ReproducedMeaning(source, ops[i]);
    }
  }

  // ----- The conditions can fail -----

  function ReadTraceHeader(targets: seq<TargetInfo>, summary: Summary): Header {
    Header(VERSION_PARTIAL_TRANSFER, Synthetic, TIME_UNIT_NANOSECONDS, NoMethod, "", targets, summary, [])
  }

  // A 50-byte file, read once across its end and once past it.
  const STRAY_READ: seq<Op> := [
    BareOp(0, 0, OpOpen).(opId := Some(0), h := Some(0), tgt := Some(0), mode := ModeRead),
    BareOp(0, 0, OpRead).(opId := Some(1), h := Some(0), off := Some(0), len := Some(80), ret := Some(50)),
    BareOp(0, 0, OpRead).(opId := Some(2), h := Some(0), off := Some(100), len := Some(10), ret := Some(0))]

  const STRAY_READ_HEADER: Header := ReadTraceHeader([TargetInfo(0, "f", TargetFile, 0)], Summary(3, 1, 0, 50, 0, 2))

  lemma StrayReadHandles()
    ensures HandlesOk(STRAY_READ)
  {
    hide SoundSoFar, HandlesOk;
    var ops := STRAY_READ;
    NothingIsSound(0);
    SoundStep([], ops[0], {}, {}, {0}, {0});
    SoundStep([] + [ops[0]], ops[1], {0}, {0}, {0}, {0});
    SoundStep([] + [ops[0]] + [ops[1]], ops[2], {0}, {0}, {0}, {0});
    assert ops == [] + [ops[0]] + [ops[1]] + [ops[2]];
    SoundIsOk(ops, 0, {0}, {0});
  }

  lemma StrayReadSummary()
    ensures SummaryAgrees(STRAY_READ_HEADER.summary, STRAY_READ)
  {
    var ops := STRAY_READ;
    var one, two := [ops[0]], [ops[0], ops[1]];
    assert one == [] + [ops[0]] && two == one + [ops[1]] && ops == two + [ops[2]];
    SumsSnoc([], ops[0]);
    SumsSnoc(one, ops[1]);
    SumsSnoc(two, ops[2]);
    assert StreamIds(ops) == {0};
  }

  lemma StrayReadIsClean()
    ensures CleanTrace(STRAY_READ_HEADER, STRAY_READ)
  {
    hide HandlesOk, SummaryAgrees;
    StrayReadHandles();
    StrayReadSummary();
  }

  lemma StrayReadStates()
    ensures ObserveAll(STRAY_READ[..1]) == State(map[], map[0 := 0])
    ensures ObserveAll(STRAY_READ[..2]) == State(map[0 := 50], map[0 := 0])
    ensures ObserveAll(STRAY_READ) == State(map[0 := 100], map[0 := 0])
  {
    var ops := STRAY_READ;
    assert ops[..1][..0] == [] && ops[..2][..1] == ops[..1] && ops[..2][1] == ops[1];
  }

  lemma StrayReadReaches()
    ensures ReachAt(STRAY_READ, 0) == None
    ensures ReachAt(STRAY_READ, 1) == Some((0, 50)) && ReachAt(STRAY_READ, 2) == Some((0, 100))
  {
    StrayReadStates();
    hide ObserveAll;
  }

  // The validator accepts the recording, the file is prepared at 100 bytes, and
  // the short read comes back full.
  lemma StrayReadBreaksReproduction()
    ensures CleanTrace(STRAY_READ_HEADER, STRAY_READ)
    ensures var targets := STRAY_READ_HEADER.targets;
            && Unwritten(targets, STRAY_READ, "f") && RecordedFrom(targets, STRAY_READ, "f", 50)
            && RequiredSizes(targets, ObserveAll(STRAY_READ).extents) == map["f" := 100]
            && !AllReproduced(targets, STRAY_READ, "f", 100)
  {
    var ops, targets := STRAY_READ, STRAY_READ_HEADER.targets;
    StrayReadIsClean();
    StrayReadReaches();
    StrayReadStates();
    hide ObserveAll, CleanTrace, ReachAt;
    assert targets[..0] == [];
    assert ReadsFile(targets, ops, 1, "f") && !Reproduced(100, ops[1]);
  }

  // A 50-byte file under two ids, the first read across its end, the second at
  // its start.
  const SHARED_NAME: seq<Op> := [
    BareOp(0, 0, OpOpen).(opId := Some(0), h := Some(0), tgt := Some(0), mode := ModeRead),
    BareOp(0, 0, OpOpen).(opId := Some(1), h := Some(1), tgt := Some(1), mode := ModeRead),
    BareOp(0, 0, OpRead).(opId := Some(2), h := Some(0), off := Some(0), len := Some(80), ret := Some(50)),
    BareOp(0, 0, OpRead).(opId := Some(3), h := Some(1), off := Some(0), len := Some(20))]

  const SHARED_NAME_HEADER: Header := ReadTraceHeader(
    [TargetInfo(0, "f", TargetFile, 0), TargetInfo(1, "f", TargetFile, 0)], Summary(4, 1, 0, 70, 0, 1))

  lemma SharedNameHandles()
    ensures HandlesOk(SHARED_NAME)
  {
    hide SoundSoFar, HandlesOk;
    var ops := SHARED_NAME;
    NothingIsSound(0);
    SoundStep([], ops[0], {}, {}, {0}, {0});
    SoundStep([] + [ops[0]], ops[1], {0}, {0}, {0, 1}, {0, 1});
    SoundStep([] + [ops[0]] + [ops[1]], ops[2], {0, 1}, {0, 1}, {0, 1}, {0, 1});
    SoundStep([] + [ops[0]] + [ops[1]] + [ops[2]], ops[3], {0, 1}, {0, 1}, {0, 1}, {0, 1});
    assert ops == [] + [ops[0]] + [ops[1]] + [ops[2]] + [ops[3]];
    SoundIsOk(ops, 0, {0, 1}, {0, 1});
  }

  lemma SharedNameSummary()
    ensures SummaryAgrees(SHARED_NAME_HEADER.summary, SHARED_NAME)
  {
    var ops := SHARED_NAME;
    var one, two, three := [ops[0]], [ops[0], ops[1]], [ops[0], ops[1], ops[2]];
    assert one == [] + [ops[0]] && two == one + [ops[1]] && three == two + [ops[2]] && ops == three + [ops[3]];
    SumsSnoc([], ops[0]);
    SumsSnoc(one, ops[1]);
    SumsSnoc(two, ops[2]);
    SumsSnoc(three, ops[3]);
    assert StreamIds(ops) == {0};
  }

  lemma SharedNameIsClean()
    ensures CleanTrace(SHARED_NAME_HEADER, SHARED_NAME)
  {
    hide HandlesOk, SummaryAgrees;
    SharedNameHandles();
    SharedNameSummary();
  }

  lemma SharedNameStates()
    ensures ObserveAll(SHARED_NAME[..2]) == State(map[], map[0 := 0, 1 := 1])
    ensures ObserveAll(SHARED_NAME[..3]) == State(map[0 := 50], map[0 := 0, 1 := 1])
    ensures ObserveAll(SHARED_NAME) == State(map[0 := 50, 1 := 20], map[0 := 0, 1 := 1])
  {
    var ops := SHARED_NAME;
    assert ops[..1][..0] == [] && ops[..2][..1] == ops[..1] && ops[..3][..2] == ops[..2];
    assert ops[..2][1] == ops[1] && ops[..3][2] == ops[2];
    assert ObserveAll(ops[..1]) == State(map[], map[0 := 0]);
  }

  lemma SharedNameReaches()
    ensures ReachAt(SHARED_NAME, 0) == None && ReachAt(SHARED_NAME, 1) == None
    ensures ReachAt(SHARED_NAME, 2) == Some((0, 50)) && ReachAt(SHARED_NAME, 3) == Some((1, 20))
  {
    SharedNameStates();
    hide ObserveAll;
  }

  lemma SharedNameReads()
    ensures var targets := SHARED_NAME_HEADER.targets;
            && Unwritten(targets, SHARED_NAME, "f") && RecordedFrom(targets, SHARED_NAME, "f", 50)
            && !AllReproduced(targets, SHARED_NAME, "f", 20)
  {
    var ops, targets := SHARED_NAME, SHARED_NAME_HEADER.targets;
    SharedNameReaches();
    hide ReachAt;
    assert ReadsFile(targets, ops, 2, "f") && !Reproduced(20, ops[2]);
  }

  // The validator accepts the recording and no read of it is empty, but the file
  // is prepared at the 20 bytes the last id needs.
  lemma SharedNameBreaksReproduction()
    ensures CleanTrace(SHARED_NAME_HEADER, SHARED_NAME)
    ensures var targets := SHARED_NAME_HEADER.targets;
            && Unwritten(targets, SHARED_NAME, "f") && RecordedFrom(targets, SHARED_NAME, "f", 50)
            && (forall op :: op in SHARED_NAME && IsRead(op) ==> op.Moved() > 0)
            && RequiredSizes(targets, ObserveAll(SHARED_NAME).extents) == map["f" := 20]
            && !AllReproduced(targets, SHARED_NAME, "f", 20)
  {
    var targets := SHARED_NAME_HEADER.targets;
    SharedNameIsClean();
    SharedNameReads();
    SharedNameStates();
    hide ObserveAll, CleanTrace, Unwritten, RecordedFrom, AllReproduced;
    assert targets[..1][..0] == [] && targets[..1][0] == targets[0];
  }

  // ----- The length is the materialized one whenever a READ is replayed -----

  // File lengths; a replay performs the trace's operations, by position, in
  // whatever order its streams interleave.
  function Stored(lengths: map<string, int>, name: string): int {
    if name in lengths then lengths[name] else 0
  }

  function Effect(targets: seq<TargetInfo>, ops: seq<Op>, lengths: map<string, int>, i: nat): map<string, int>
    requires i < |ops|
  {
    var op := ops[i];
    var named := if op.tgt.Some? then FileOf(targets, op.tgt.value) else None;
    match op.kind
    case OpOpen => if named.Some? && "trunc" in op.flags then lengths[named.value := 0] else lengths
    case OpWrite =>
      (match ReachAt(ops, i)
       case Some((target, end)) =>
         (match FileOf(targets, target)
          case Some(name) => lengths[name := Max(Stored(lengths, name), end)]
          case None => lengths)
       case None => lengths)
    case OpPut => if named.Some? then lengths[named.value := op.Moved()] else lengths
    case OpDelete => if named.Some? then lengths - {named.value} else lengths
    case _ => lengths
  }

  function Lengths(targets: seq<TargetInfo>, ops: seq<Op>, start: map<string, int>, order: seq<nat>): map<string, int>
    requires forall k :: 0 <= k < |order| ==> order[k] < |ops|
  {
    if order == [] then start
    else Effect(targets, ops, Lengths(targets, ops, start, order[..|order|-1]), order[|order|-1])
  }

  lemma {:induction false} LengthNeverChanges(targets: seq<TargetInfo>, ops: seq<Op>, name: string,
                                              start: map<string, int>, order: seq<nat>)
    requires Unwritten(targets, ops, name)
    requires forall k :: 0 <= k < |order| ==> order[k] < |ops|
    ensures Stored(Lengths(targets, ops, start, order), name) == Stored(start, name)
  {
    if order != [] {
      LengthNeverChanges(targets, ops, name, start, order[..|order|-1]);
      var i := order[|order|-1];
      assert ops[i] in ops;
      assert TouchesFile(targets, ops, i, name) ==> IsRead(ops[i]);
    }
  }
}
