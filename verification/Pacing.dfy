// Think-mode pacing of one stream (pkg/replay/scheduler.go:105-114, 162-196):
// each operation waits out the recorded gap after the one before it completed.
module Pacing {
  import opened Arithmetic
  import opened Trace

  function ThinkGap(prev: Op, cur: Op): (gap: int)
    ensures gap >= 0
  {
    if prev.dur.None? then 0
    else
      var gap := cur.t - (prev.t + prev.dur.value);
      if gap < 0 then 0 else gap
  }

  // When the operations start, in time since the run began. service[i] is how
  // long operation i took and wait[i] how long it was held after its intended
  // arrival, by a late timer or for a slot; drifts[i] is what is
  // reported of that.
  method PaceThink(ops: seq<Op>, service: seq<nat>, wait: seq<nat>) returns (starts: seq<int>, drifts: seq<int>)
    requires |service| == |ops| == |wait|
    ensures |starts| == |ops| && forall i :: 0 <= i < |ops| ==> starts[i] == StartOf(ops, service, wait, i)
    ensures |drifts| == |ops| && forall i :: 0 <= i < |ops| ==> drifts[i] == wait[i] + LateArrival(ops, i)
  {
    hide ThinkGap, StartOf;
    starts, drifts := [], [];
    var now, prevDone := 0, 0;
    for i := 0 to |ops|
      invariant |starts| == i && forall k :: 0 <= k < i ==> starts[k] == StartOf(ops, service, wait, k)
      invariant now == prevDone == if i == 0 then 0 else StartOf(ops, service, wait, i - 1) + service[i - 1]
      invariant |drifts| == i && forall k :: 0 <= k < i ==> drifts[k] == wait[k] + LateArrival(ops, k)
    {
      var intended := if i > 0 then prevDone + ThinkGap(ops[i - 1], ops[i]) else ops[i].t;
      var serviceStart := Max(now, intended) + wait[i];
      StartStep(ops, service, wait, i);
      starts := starts + [serviceStart];
      drifts := drifts + [Max(0, serviceStart - intended)];
      prevDone := serviceStart + service[i];
      now := prevDone;
    }
  }

  lemma StartStep(ops: seq<Op>, service: seq<nat>, wait: seq<nat>, i: nat)
    requires i < |ops| == |service| == |wait|
    ensures StartOf(ops, service, wait, i) == wait[i] +
            if i == 0 then Max(0, ops[0].t)
            else StartOf(ops, service, wait, i - 1) + service[i - 1] + ThinkGap(ops[i - 1], ops[i])
  {
  }

  // Only a first operation can be due before the run began.
  function LateArrival(ops: seq<Op>, i: nat): int
    requires i < |ops|
  {
    if i == 0 then Max(0, -ops[0].t) else 0
  }

  // What an operation's turn adds before the next one may start.
  function Turn(ops: seq<Op>, service: seq<nat>, k: nat): int
    requires k + 1 < |ops| == |service|
  {
    service[k] + ThinkGap(ops[k], ops[k + 1])
  }

  function StartOf(ops: seq<Op>, service: seq<nat>, wait: seq<nat>, i: nat): int
    requires i < |ops| == |service| == |wait|
  {
    if i == 0 then Max(0, ops[0].t) + wait[0]
    else StartOf(ops, service, wait, i - 1) + Turn(ops, service, i - 1) + wait[i]
  }

  // The gaps before operations 1 to n.
  function Gaps(ops: seq<Op>, n: nat): int
    requires n == 0 || n < |ops|
  {
    if n == 0 then 0 else Gaps(ops, n - 1) + ThinkGap(ops[n - 1], ops[n])
  }

  // The first arrival is kept from the recording; after it only recorded gaps
  // and actual service and holding times count.
  lemma {:induction false} StartIsSumOfTurns(ops: seq<Op>, service: seq<nat>, wait: seq<nat>, i: nat)
    requires i < |ops| == |service| == |wait|
    ensures StartOf(ops, service, wait, i)
            == Max(0, ops[0].t) + Sum(service[..i]) + Gaps(ops, i) + Sum(wait[..i + 1])
  {
    SumPrefix(wait, i + 1);
    if i > 0 {
      StartIsSumOfTurns(ops, service, wait, i - 1);
      SumPrefix(service, i);
    }
  }

  function Extra(a: seq<nat>, b: seq<nat>): (r: seq<int>)
    requires |a| == |b|
    ensures |r| == |a|
  {
    seq<int>(|a|, i requires 0 <= i < |a| => b[i] as int - a[i] as int)
  }

  lemma {:induction false} SumOfExtra(a: seq<nat>, b: seq<nat>, n: nat)
    requires |a| == |b| && n <= |a|
    ensures Sum(Extra(a, b)[..n]) == Sum(b[..n]) - Sum(a[..n])
  {
    if n > 0 {
      SumOfExtra(a, b, n - 1);
      SumPrefix(Extra(a, b), n);
      SumPrefix(a, n);
      SumPrefix(b, n);
    }
  }

  // Another backend, or another load, shifts operation i by exactly the extra
  // service time before it and the extra holding time up to it.
  lemma BackendShiftsByItsExtraTime(ops: seq<Op>, service: seq<nat>, wait: seq<nat>,
                                    service': seq<nat>, wait': seq<nat>, i: nat)
    requires i < |ops| == |service| == |wait| == |service'| == |wait'|
    ensures StartOf(ops, service', wait', i) - StartOf(ops, service, wait, i)
            == Sum(Extra(service, service')[..i]) + Sum(Extra(wait, wait')[..i + 1])
  {
    StartIsSumOfTurns(ops, service, wait, i);
    StartIsSumOfTurns(ops, service', wait', i);
    SumOfExtra(service, service', i);
    SumOfExtra(wait, wait', i + 1);
  }

  // ----- Getting the recording back -----

  // An operation whose duration was recorded takes that long, and none is held up.
  predicate AsRecorded(ops: seq<Op>, service: seq<nat>, wait: seq<nat>) {
    && |service| == |ops| == |wait|
    && forall i :: 0 <= i < |ops| ==> (ops[i].dur.Some? ==> ops[i].dur.value == service[i]) && wait[i] == 0
  }

  // The recording starts at zero or later, and an operation starts when the one
  // before it is over or later, but no later if that one has no duration.
  predicate Sequential(ops: seq<Op>, service: seq<nat>)
    requires |service| == |ops|
  {
    && (ops != [] ==> ops[0].t >= 0)
    && forall i :: 0 <= i < |ops| - 1 ==> Follows(ops[i], service[i], ops[i + 1])
  }

  predicate Follows(prev: Op, service: nat, cur: Op) {
    prev.t + service == cur.t || (prev.dur.Some? && prev.t + service < cur.t)
  }

  ghost predicate StartsAsRecorded(ops: seq<Op>, service: seq<nat>, wait: seq<nat>)
    requires |service| == |ops| == |wait|
  {
    forall i :: 0 <= i < |ops| ==> StartOf(ops, service, wait, i) == ops[i].t
  }

  lemma {:induction false} SequentialStart(ops: seq<Op>, service: seq<nat>, wait: seq<nat>, i: nat)
    requires AsRecorded(ops, service, wait) && Sequential(ops, service) && i < |ops|
    ensures StartOf(ops, service, wait, i) == ops[i].t
  {
    if i > 0 {
      SequentialStart(ops, service, wait, i - 1);
      assert Follows(ops[i - 1], service[i - 1], ops[i - 1 + 1]);
    }
  }

  lemma RecordedStartFollows(ops: seq<Op>, service: seq<nat>, wait: seq<nat>, i: nat)
    requires AsRecorded(ops, service, wait) && StartsAsRecorded(ops, service, wait) && i < |ops| - 1
    ensures Follows(ops[i], service[i], ops[i + 1])
  {
    assert StartOf(ops, service, wait, i) == ops[i].t;
    assert StartOf(ops, service, wait, i + 1) == ops[i + 1].t;
  }

  // A backend that takes the recorded durations reproduces every recorded
  // timestamp exactly when the recorded operations came one after another, and
  // directly so after one without a duration.
  lemma RecordedServiceReproducesTimestamps(ops: seq<Op>, service: seq<nat>, wait: seq<nat>)
    requires AsRecorded(ops, service, wait)
    ensures StartsAsRecorded(ops, service, wait) <==> Sequential(ops, service)
  {
    if Sequential(ops, service) {
      forall i | 0 <= i < |ops| ensures StartOf(ops, service, wait, i) == ops[i].t {
        SequentialStart(ops, service, wait, i);
      }
    }
    if StartsAsRecorded(ops, service, wait) {
      if ops != [] {
        assert StartOf(ops, service, wait, 0) == ops[0].t;
      }
      forall i | 0 <= i < |ops| - 1 ensures Follows(ops[i], service[i], ops[i + 1]) {
        RecordedStartFollows(ops, service, wait, i);
      }
    }
  }
}
