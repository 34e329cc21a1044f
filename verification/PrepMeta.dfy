// Deriving how large each target must be from the operations that touch it
// (pkg/replay/executor.go:196-237, pkg/prepare/prepare.go:188-202).
module PrepMeta {
  import opened Trace

  datatype State = State(extents: map<int, int>, handleToTarget: map<int, int>)

  const EMPTY := State(map[], map[])

  function Extent(extents: map<int, int>, target: int): int {
    if target in extents then extents[target] else 0
  }

  function Grow(extents: map<int, int>, target: int, end: int): map<int, int> {
    if end > Extent(extents, target) then extents[target := end] else extents
  }

  // The bytes of which target, up to where, op proves to exist.
  function Reach(st: State, op: Op): Option<(int, int)> {
    if op.kind.OpRead? || op.kind.OpWrite? then
      if op.h.None? || op.off.None? || op.len.None? || op.h.value !in st.handleToTarget then None
      else Some((st.handleToTarget[op.h.value], op.off.value + op.Moved()))
    else if op.kind.OpGet? || op.kind.OpPut? then
      if op.tgt.None? || op.len.None? then None
      else Some((op.tgt.value, op.off.GetOr(0) + op.Moved()))
    else None
  }

  function Observe(st: State, op: Op): State {
    if op.kind.OpOpen? then
      if op.h.Some? && op.tgt.Some?
      then st.(handleToTarget := st.handleToTarget[op.h.value := op.tgt.value])
      else st
    else if op.kind.OpClose? then
      if op.h.Some? then st.(handleToTarget := st.handleToTarget - {op.h.value}) else st
    else
      match Reach(st, op)
      case Some((target, end)) => st.(extents := Grow(st.extents, target, end))
      case None => st
  }

  function ObserveAll(ops: seq<Op>): State {
    if ops == [] then EMPTY else Observe(ObserveAll(ops[..|ops|-1]), ops[|ops|-1])
  }

  // Observing further operations from a given state.
  function ObserveMore(st: State, ops: seq<Op>): State
    decreases |ops|
  {
    if ops == [] then st else ObserveMore(Observe(st, ops[0]), ops[1..])
  }

  lemma {:induction false} ObserveAppend(a: seq<Op>, b: seq<Op>)
    ensures ObserveAll(a + b) == ObserveMore(ObserveAll(a), b)
    decreases |b|
  {
    if b == [] {
      assert a + b == a;
    } else {
      assert a + b == (a + [b[0]]) + b[1..];
      ObserveAppend(a + [b[0]], b[1..]);
      assert (a + [b[0]])[..|a|] == a;
    }
  }

  class Metadata {
    var extents: map<int, int>
    var handleToTarget: map<int, int>

    function Value(): State
      reads this
    {
      State(extents, handleToTarget)
    }

    constructor ()
      ensures Value() == EMPTY
    {
      extents, handleToTarget := map[], map[];
    }

    // One call of updatePrepMetadata.
    method Update(op: Op)
      modifies this
      ensures Value() == Observe(old(Value()), op)
    {
      match op.kind {
        case OpOpen =>
          if op.h.Some? && op.tgt.Some? {
            handleToTarget := handleToTarget[op.h.value := op.tgt.value];
          }
        case OpRead | OpWrite =>
          if op.h.None? || op.off.None? || op.len.None? {
            return;
          }
          if op.h.value !in handleToTarget {
            return;
          }
          var target := handleToTarget[op.h.value];
          var end := op.off.value + op.Moved();
          if end > Extent(extents, target) {
            extents := extents[target := end];
          }
        case OpClose =>
          if op.h.Some? {
            handleToTarget := handleToTarget - {op.h.value};
          }
        case OpGet | OpPut =>
          if op.tgt.None? || op.len.None? {
            return;
          }
          var off := op.off.GetOr(0);
          var end := off + op.Moved();
          if end > Extent(extents, op.tgt.value) {
            extents := extents[op.tgt.value := end];
          }
        case _ =>
      }
    }

    // The callback over a whole trace.
    method UpdateAll(ops: seq<Op>)
      requires Value() == EMPTY
      modifies this
      ensures Value() == ObserveAll(ops)
    {
      for i := 0 to |ops|
        invariant Value() == ObserveAll(ops[..i])
      {
        Update(ops[i]);
        assert ops[..i+1][..i] == ops[..i] && ops[..i+1][i] == ops[i];
      }
      assert ops[..|ops|] == ops;
    }
  }

  // ----- The size each file is materialized at -----

  // What one target asks for; None when its size is neither declared nor derived.
  function SizeFor(target: TargetInfo, extents: map<int, int>): Option<int> {
    if target.size > 0 then Some(target.size)
    else if Extent(extents, target.id) > 0 then Some(Extent(extents, target.id))
    else None
  }

  // Sizes are kept by name: of several targets with one name, the last that asks
  // for a size gets it.
  function RequiredSizes(targets: seq<TargetInfo>, extents: map<int, int>): map<string, int> {
    if targets == [] then map[]
    else
      var rest, last := RequiredSizes(targets[..|targets|-1], extents), targets[|targets|-1];
      match SizeFor(last, extents)
      case Some(size) => rest[last.name := size]
      case None => rest
  }

  method ComputeRequiredSizes(targets: seq<TargetInfo>, extents: map<int, int>) returns (sizes: map<string, int>)
    ensures sizes == RequiredSizes(targets, extents)
  {
    sizes := map[];
    for i := 0 to |targets|
      invariant sizes == RequiredSizes(targets[..i], extents)
    {
      var target := targets[i];
      assert targets[..i+1][..i] == targets[..i];
      if target.size > 0 {
        sizes := sizes[target.name := target.size];
        continue;
      }
      var size := Extent(extents, target.id);
      if size > 0 {
        sizes := sizes[target.name := size];
      }
    }
    assert targets[..|targets|] == targets;
  }

  predicate Provides(targets: seq<TargetInfo>, extents: map<int, int>, name: string, i: int) {
    0 <= i < |targets| && targets[i].name == name && SizeFor(targets[i], extents).Some?
  }

  ghost predicate LastProvider(targets: seq<TargetInfo>, extents: map<int, int>, name: string, i: int) {
    Provides(targets, extents, name, i) && forall j :: Provides(targets, extents, name, j) ==> j <= i
  }

  // A file is given a size exactly when some target of that name asks for one, and
  // then the last such target's.
  lemma {:induction false} LastProviderWins(targets: seq<TargetInfo>, extents: map<int, int>, name: string, i: int)
    ensures name in RequiredSizes(targets, extents) <==> exists j :: Provides(targets, extents, name, j)
    ensures LastProvider(targets, extents, name, i) ==>
              RequiredSizes(targets, extents)[name] == SizeFor(targets[i], extents).value
  {
    if targets != [] {
      var n := |targets| - 1;
      var front := targets[..n];
      LastProviderWins(front, extents, name, i);
      assert forall j :: j < n ==> (Provides(targets, extents, name, j) <==> Provides(front, extents, name, j));
      assert Provides(targets, extents, name, n) <==> targets[n].name == name && SizeFor(targets[n], extents).Some?;
      hide SizeFor;
      if j :| Provides(front, extents, name, j) {
        assert Provides(targets, extents, name, j);
      }
      if LastProvider(targets, extents, name, i) && i < n {
        assert !Provides(targets, extents, name, n);
        assert LastProvider(front, extents, name, i);
      }
    }
  }

  lemma {:induction false} LastProviderExists(targets: seq<TargetInfo>, extents: map<int, int>, name: string)
      returns (last: int)
    requires exists j :: Provides(targets, extents, name, j)
    ensures LastProvider(targets, extents, name, last)
  {
    var n := |targets| - 1;
    if Provides(targets, extents, name, n) {
      last := n;
    } else {
      var j :| Provides(targets, extents, name, j);
      assert Provides(targets[..n], extents, name, j);
      last := LastProviderExists(targets[..n], extents, name);
      forall k | Provides(targets, extents, name, k) ensures k <= last {
        assert Provides(targets[..n], extents, name, k);
      }
    }
  }

  // ----- Materializing the files -----

  lemma {:induction false} SizesArePositive(targets: seq<TargetInfo>, extents: map<int, int>)
    ensures forall name :: name in RequiredSizes(targets, extents) ==> RequiredSizes(targets, extents)[name] > 0
  {
    if targets != [] {
      SizesArePositive(targets[..|targets|-1], extents);
    }
  }

  // The backend's files once those of the first targets are written.
  function FilesAfter(before: map<string, int>, targets: seq<TargetInfo>, sizes: map<string, int>): map<string, int> {
    before + map name | name in sizes && (exists target :: target in targets && target.name == name) :: sizes[name]
  }

  ghost predicate AllSized(targets: seq<TargetInfo>, sizes: map<string, int>) {
    forall target :: target in targets ==> target.name in sizes
  }

  // Writes the targets' files one by one and refuses at the first without a size.
  method Materialize(targets: seq<TargetInfo>, extents: map<int, int>, before: map<string, int>)
      returns (ok: bool, files: map<string, int>, created: nat)
    ensures ok <==> AllSized(targets, RequiredSizes(targets, extents))
    ensures ok ==> created == |targets|
    ensures !ok ==> created < |targets| && targets[created].name !in RequiredSizes(targets, extents)
    ensures AllSized(targets[..created], RequiredSizes(targets, extents))
    ensures files == FilesAfter(before, targets[..created], RequiredSizes(targets, extents))
  {
    hide RequiredSizes;
    var sizes := ComputeRequiredSizes(targets, extents);
    SizesArePositive(targets, extents);
    files, created := before, 0;
    assert files == FilesAfter(before, targets[..0], sizes);
    while created < |targets|
      invariant 0 <= created <= |targets|
      invariant AllSized(targets[..created], sizes)
      invariant files == FilesAfter(before, targets[..created], sizes)
    {
      var name := targets[created].name;
      if name !in sizes || sizes[name] == 0 {
        assert targets[created] in targets;
        return false, files, created;
      }
      assert targets[..created+1] == targets[..created] + [targets[created]];
      FilesStep(before, targets[..created], targets[created], sizes);
      files := files[name := sizes[name]];
      created := created + 1;
    }
    assert targets[..|targets|] == targets;
    ok := true;
  }

  lemma FilesStep(before: map<string, int>, done: seq<TargetInfo>, target: TargetInfo, sizes: map<string, int>)
    requires target.name in sizes
    ensures FilesAfter(before, done + [target], sizes)
            == FilesAfter(before, done, sizes)[target.name := sizes[target.name]]
  {
    assert forall t :: t in done + [target] <==> t in done || t == target;
    var a := FilesAfter(before, done + [target], sizes);
    var b := FilesAfter(before, done, sizes)[target.name := sizes[target.name]];
    assert target in done + [target];
    assert a.Keys == b.Keys;
  }
}
