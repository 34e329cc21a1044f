// runStreams as a transition system (pkg/replay/scheduler.go:116-281): one
// process per stream, a counting semaphore, an atomic in-flight counter, and a
// compare-and-swap maximum, under every interleaving and cancellation.
module Scheduler {
  import opened Arithmetic
  import opened Trace

  const DEFAULT_MAX_INFLIGHT := 512

  // Where a stream's goroutine stands in its loop. Between two phases there is
  // one action on shared state, or none.
  datatype Phase =
    | Ready                          // at the top of the loop
    | Pacing                         // waiting for the intended arrival
    | Acquiring                      // at the non-blocking send
    | Blocked                        // in the blocking send
    | Holding                        // holds a token
    | Counting(cur: int)             // counted itself in; about to load the depth
    | Swapping(cur: int, seen: int)  // loaded seen < cur; about to compare and swap
    | Dispatching                    // about to dispatch
    | Running                        // in dispatchOp
    | Finishing                      // dispatch returned; about to count itself out
    | Releasing                      // about to return the token
    | Ended(cancelled: bool)

  datatype Proc = Proc(phase: Phase, next: nat, streamInflight: int, peakInflight: int)

  // peak and dispatched are history: the largest in-flight count there has been,
  // and the operations each stream has dispatched, by position.
  datatype State = State(
    lens: seq<nat>, maxInflight: int,
    procs: seq<Proc>, tokens: int, inflight: int, depth: int, cancelled: bool, backlogEvents: int,
    peak: int, dispatched: seq<seq<nat>>)

  // A select takes any ready case: Quit takes a cancelled context's.
  datatype Choice = Go | Quit

  datatype Action = Cancel | Act(s: nat, choice: Choice)

  function Start(lens: seq<nat>, maxInflight: int): State {
    State(lens, if maxInflight <= 0 then DEFAULT_MAX_INFLIGHT else maxInflight,
          seq(|lens|, _ => Proc(Ready, 0, 0, 0)), 0, 0, 0, false, 0, 0, seq(|lens|, _ => []))
  }

  // ----- Steps -----

  function With(st: State, s: nat, p: Proc): State
    requires s < |st.procs|
  {
    st.(procs := st.procs[s := p])
  }

  function Goto(st: State, s: nat, phase: Phase): State
    requires s < |st.procs|
  {
    With(st, s, st.procs[s].(phase := phase))
  }

  function Quits(st: State, s: nat): Option<State>
    requires s < |st.procs|
  {
    if st.cancelled then Some(Goto(st, s, Ended(true))) else None
  }

  // None: the step is not enabled.
  function Step(st: State, s: nat, choice: Choice): Option<State>
    requires s < |st.procs| == |st.lens| == |st.dispatched|
  {
    var p := st.procs[s];
    match p.phase
    case Ready =>
      if p.next >= st.lens[s] then Some(Goto(st, s, Ended(false)))
      else if st.cancelled then Some(Goto(st, s, Ended(true)))
      else Some(Goto(st, s, Pacing))
    case Pacing =>
      if choice.Quit? then Quits(st, s) else Some(Goto(st, s, Acquiring))
    case Acquiring =>
      if st.tokens < st.maxInflight then Some(Goto(st, s, Holding).(tokens := st.tokens + 1))
      else Some(Goto(st, s, Blocked))
    case Blocked =>
      if choice.Quit? then Quits(st, s)
      else if st.tokens < st.maxInflight then
        Some(Goto(st, s, Holding).(tokens := st.tokens + 1, backlogEvents := st.backlogEvents + 1))
      else None
    case Holding =>
      Some(Goto(st, s, Counting(st.inflight + 1)).(inflight := st.inflight + 1,
                                                   peak := Max(st.peak, st.inflight + 1)))
    case Counting(cur) =>
      if cur <= st.depth then Some(Goto(st, s, Dispatching)) else Some(Goto(st, s, Swapping(cur, st.depth)))
    case Swapping(cur, seen) =>
      if st.depth == seen then Some(Goto(st, s, Dispatching).(depth := cur))
      else Some(Goto(st, s, Counting(cur)))
    case Dispatching =>
      var now := p.streamInflight + 1;
      Some(With(st, s, p.(phase := Running, streamInflight := now, peakInflight := Max(p.peakInflight, now)))
           .(dispatched := st.dispatched[s := st.dispatched[s] + [p.next]]))
    case Running =>
      Some(With(st, s, p.(phase := Finishing, streamInflight := p.streamInflight - 1)))
    case Finishing =>
      Some(Goto(st, s, Releasing).(inflight := st.inflight - 1))
    case Releasing =>
      Some(With(st, s, p.(phase := Ready, next := p.next + 1)).(tokens := st.tokens - 1))
    case Ended(_) => None
  }

  predicate WellFormed(st: State) {
    |st.procs| == |st.lens| == |st.dispatched|
  }

  function Apply(st: State, a: Action): Option<State>
    requires WellFormed(st)
  {
    match a
    case Cancel => Some(st.(cancelled := true))
    case Act(s, choice) => if s < |st.procs| then Step(st, s, choice) else None
  }

  function Run(lens: seq<nat>, maxInflight: int, acts: seq<Action>): (r: Option<State>)
    ensures r.Some? ==> WellFormed(r.value) && r.value.lens == lens
  {
    if acts == [] then Some(Start(lens, maxInflight))
    else
      match Run(lens, maxInflight, acts[..|acts|-1])
      case None => None
      case Some(st) => Apply(st, acts[|acts|-1])
  }

  // ----- Counting processes -----

  predicate HoldsToken(p: Proc) {
    CountedIn(p) || p.phase.Holding? || p.phase.Releasing?
  }

  predicate CountedIn(p: Proc) {
    p.phase.Counting? || p.phase.Swapping? || p.phase.Dispatching? || p.phase.Running? || p.phase.Finishing?
  }

  function Holders(ps: seq<Proc>): nat {
    if ps == [] then 0 else Holders(ps[..|ps|-1]) + if HoldsToken(ps[|ps|-1]) then 1 else 0
  }

  function InFlight(ps: seq<Proc>): nat {
    if ps == [] then 0 else InFlight(ps[..|ps|-1]) + if CountedIn(ps[|ps|-1]) then 1 else 0
  }

  function NumRunning(ps: seq<Proc>): nat {
    if ps == [] then 0 else NumRunning(ps[..|ps|-1]) + if ps[|ps|-1].phase.Running? then 1 else 0
  }

  lemma {:induction false} CountsAfter(ps: seq<Proc>, s: nat, p: Proc)
    requires s < |ps|
    ensures Holders(ps[s := p]) - Holders(ps)
            == (if HoldsToken(p) then 1 else 0) - (if HoldsToken(ps[s]) then 1 else 0)
    ensures InFlight(ps[s := p]) - InFlight(ps)
            == (if CountedIn(p) then 1 else 0) - (if CountedIn(ps[s]) then 1 else 0)
  {
    var n := |ps| - 1;
    if s == n {
      assert ps[s := p][..n] == ps[..n];
    } else {
      CountsAfter(ps[..n], s, p);
      assert ps[s := p][..n] == ps[..n][s := p];
    }
  }

  lemma {:induction false} RunningAreCounted(ps: seq<Proc>)
    ensures NumRunning(ps) <= InFlight(ps) <= Holders(ps)
  {
    if ps != [] {
      RunningAreCounted(ps[..|ps|-1]);
    }
  }

  lemma {:induction false} NoHolders(ps: seq<Proc>)
    ensures Holders(ps) == 0 <==> forall s :: 0 <= s < |ps| ==> !HoldsToken(ps[s])
  {
    if ps != [] {
      NoHolders(ps[..|ps|-1]);
      assert forall s :: 0 <= s < |ps| - 1 ==> ps[..|ps|-1][s] == ps[s];
    }
  }

  // ----- What every run keeps -----

  function Iota(n: nat): (r: seq<nat>)
    ensures |r| == n && forall i :: 0 <= i < n ==> r[i] == i
  {
    seq(n, i => i)
  }

  // A stream has at most one operation in flight, and has dispatched its
  // operations in order up to the one it is at.
  predicate ProcOk(p: Proc, len: nat, dispatched: seq<nat>, cancelled: bool) {
    && p.next <= len
    && (!p.phase.Ready? && !p.phase.Ended? ==> p.next < len)
    && (p.phase == Ended(false) ==> p.next == len)
    && (p.phase == Ended(true) ==> cancelled)
    && p.streamInflight == (if p.phase.Running? then 1 else 0)
    && dispatched == Iota(p.next + if p.phase.Running? || p.phase.Finishing? || p.phase.Releasing? then 1 else 0)
    && p.peakInflight == (if dispatched == [] then 0 else 1)
  }

  // A process about to raise the depth saw a count the peak covers; what it
  // loaded was the depth then.
  predicate CountOk(p: Proc, depth: int, peak: int) {
    && (p.phase.Counting? ==> p.phase.cur <= peak)
    && (p.phase.Swapping? ==> p.phase.seen < p.phase.cur <= peak && p.phase.seen <= depth)
  }

  predicate WillRaiseTo(p: Proc, peak: int) {
    (p.phase.Counting? || p.phase.Swapping?) && p.phase.cur == peak
  }

  ghost predicate ProcsOk(st: State) {
    && WellFormed(st)
    && forall s :: 0 <= s < |st.procs| ==> ProcOk(st.procs[s], st.lens[s], st.dispatched[s], st.cancelled)
  }

  ghost predicate CountersOk(st: State) {
    && 0 < st.maxInflight
    && st.tokens == Holders(st.procs) <= st.maxInflight
    && st.inflight == InFlight(st.procs) <= st.peak <= st.maxInflight
  }

  // The recorded depth is the peak, or some process is still on its way to
  // recording it.
  ghost predicate DepthOk(st: State) {
    && 0 <= st.depth <= st.peak
    && (forall s :: 0 <= s < |st.procs| ==> CountOk(st.procs[s], st.depth, st.peak))
    && (st.depth < st.peak ==> exists s :: 0 <= s < |st.procs| && WillRaiseTo(st.procs[s], st.peak))
  }

  ghost predicate Inv(st: State) {
    ProcsOk(st) && CountersOk(st) && DepthOk(st)
  }

  // A step moves one process and extends at most its own history.
  lemma StepIsLocal(st: State, s: nat, choice: Choice)
    requires WellFormed(st) && s < |st.procs| && Step(st, s, choice).Some?
    ensures var after := Step(st, s, choice).value;
            && WellFormed(after) && after.lens == st.lens && after.cancelled == st.cancelled
            && after.maxInflight == st.maxInflight
            && after.procs == st.procs[s := after.procs[s]]
            && after.dispatched == st.dispatched[s := after.dispatched[s]]
  {
  }

  lemma StepKeepsProc(st: State, s: nat, choice: Choice)
    requires WellFormed(st) && s < |st.procs| && Step(st, s, choice).Some?
    requires ProcOk(st.procs[s], st.lens[s], st.dispatched[s], st.cancelled)
    ensures var after := Step(st, s, choice).value;
            |after.procs| == |after.dispatched| == |st.procs|
            && ProcOk(after.procs[s], st.lens[s], after.dispatched[s], st.cancelled)
  {
    if st.procs[s].phase.Dispatching? {
      assert Step(st, s, choice).value.dispatched[s] == Iota(st.procs[s].next + 1);
    }
  }

  lemma StepKeepsProcs(st: State, s: nat, choice: Choice)
    requires ProcsOk(st) && s < |st.procs| && Step(st, s, choice).Some?
    ensures ProcsOk(Step(st, s, choice).value)
  {
    hide Step, ProcOk;
    StepIsLocal(st, s, choice);
    StepKeepsProc(st, s, choice);
  }

  // The counters change exactly as the processes' standing does.
  lemma StepCounts(st: State, s: nat, choice: Choice)
    requires WellFormed(st) && s < |st.procs| && Step(st, s, choice).Some?
    ensures var after, p := Step(st, s, choice).value, st.procs[s];
            && |after.procs| == |st.procs|
            && after.tokens - st.tokens
               == (if HoldsToken(after.procs[s]) then 1 else 0) - (if HoldsToken(p) then 1 else 0)
            && after.inflight - st.inflight
               == (if CountedIn(after.procs[s]) then 1 else 0) - (if CountedIn(p) then 1 else 0)
  {
  }

  lemma StepRespectsLimit(st: State, s: nat, choice: Choice)
    requires WellFormed(st) && s < |st.procs| && Step(st, s, choice).Some?
    requires st.tokens <= st.maxInflight && st.inflight <= st.peak
    ensures var after := Step(st, s, choice).value;
            after.tokens <= st.maxInflight && after.inflight <= after.peak
            && (after.peak == st.peak || after.peak == after.inflight)
  {
  }

  lemma StepKeepsCounters(st: State, s: nat, choice: Choice)
    requires WellFormed(st) && CountersOk(st) && s < |st.procs| && Step(st, s, choice).Some?
    ensures CountersOk(Step(st, s, choice).value)
  {
    hide Step, Holders, InFlight;
    var after := Step(st, s, choice).value;
    StepIsLocal(st, s, choice);
    StepCounts(st, s, choice);
    StepRespectsLimit(st, s, choice);
    CountsAfter(st.procs, s, after.procs[s]);
    RunningAreCounted(after.procs);
  }

  lemma StepKeepsDepth(st: State, s: nat, choice: Choice)
    requires WellFormed(st) && CountersOk(st) && DepthOk(st) && s < |st.procs| && Step(st, s, choice).Some?
    ensures DepthOk(Step(st, s, choice).value)
  {
    hide Holders, InFlight;
    var after := Step(st, s, choice).value;
    var p, p' := st.procs[s], after.procs[s];
    assert CountOk(p, st.depth, st.peak);
    forall k | 0 <= k < |after.procs| ensures CountOk(after.procs[k], after.depth, after.peak) {
      assert CountOk(st.procs[k], st.depth, st.peak);
    }
    if after.depth < after.peak {
      if after.peak > st.peak {
        assert WillRaiseTo(p', after.peak);
      } else {
        var k :| 0 <= k < |st.procs| && WillRaiseTo(st.procs[k], st.peak);
        assert k != s ==> WillRaiseTo(after.procs[k], after.peak);
        assert k == s ==> WillRaiseTo(p', after.peak);
      }
    }
  }

  lemma CancelKeepsInv(st: State)
    requires Inv(st)
    ensures Inv(st.(cancelled := true))
  {
    var after := st.(cancelled := true);
    forall s | 0 <= s < |st.procs| ensures ProcOk(after.procs[s], st.lens[s], st.dispatched[s], true) {
      assert ProcOk(st.procs[s], st.lens[s], st.dispatched[s], st.cancelled);
    }
  }

  lemma {:induction false} StartCounts(n: nat, ps: seq<Proc>)
    requires |ps| == n && forall s :: 0 <= s < n ==> ps[s] == Proc(Ready, 0, 0, 0)
    ensures Holders(ps) == 0 && InFlight(ps) == 0
  {
    NoHolders(ps);
    RunningAreCounted(ps);
  }

  lemma {:induction false} EveryRunKeepsInv(lens: seq<nat>, maxInflight: int, acts: seq<Action>)
    requires Run(lens, maxInflight, acts).Some?
    ensures Inv(Run(lens, maxInflight, acts).value)
  {
    if acts == [] {
      StartCounts(|lens|, Start(lens, maxInflight).procs);
      assert Iota(0) == [];
    } else {
      EveryRunKeepsInv(lens, maxInflight, acts[..|acts|-1]);
      var st, a := Run(lens, maxInflight, acts[..|acts|-1]).value, acts[|acts|-1];
      hide ProcsOk, CountersOk, DepthOk, Step;
      InvIsWellFormed(st);
      match a {
        case Cancel => CancelKeepsInv(st);
        case Act(s, choice) =>
          StepKeepsProcs(st, s, choice);
          StepKeepsCounters(st, s, choice);
          StepKeepsDepth(st, s, choice);
      }
    }
  }

  lemma InvIsWellFormed(st: State)
    requires Inv(st)
    ensures WellFormed(st)
  {
  }

  // ----- Consequences for every interleaving -----

  lemma {:induction false} RunKeepsLimit(lens: seq<nat>, maxInflight: int, acts: seq<Action>)
    requires Run(lens, maxInflight, acts).Some?
    ensures Run(lens, maxInflight, acts).value.maxInflight == if maxInflight > 0 then maxInflight else 512
  {
    if acts != [] {
      var early, a := acts[..|acts|-1], acts[|acts|-1];
      RunKeepsLimit(lens, maxInflight, early);
      var st := Run(lens, maxInflight, early).value;
      hide Step;
      if a.Act? {
        StepIsLocal(st, a.s, a.choice);
      }
    }
  }

  // Operations in flight never exceed the tokens held, nor those the limit the
  // caller gave, or 512 without one; a stream has at most one in flight, and had
  // one if it dispatched anything.
  lemma InflightIsCapped(lens: seq<nat>, maxInflight: int, acts: seq<Action>)
    requires Run(lens, maxInflight, acts).Some?
    ensures var st, limit := Run(lens, maxInflight, acts).value, if maxInflight > 0 then maxInflight else 512;
            && NumRunning(st.procs) <= st.inflight <= st.tokens <= limit
            && forall s :: 0 <= s < |st.procs| ==>
                 && st.procs[s].streamInflight == (if st.procs[s].phase.Running? then 1 else 0)
                 && st.procs[s].peakInflight == (if st.dispatched[s] == [] then 0 else 1)
  {
    EveryRunKeepsInv(lens, maxInflight, acts);
    RunKeepsLimit(lens, maxInflight, acts);
    var st := Run(lens, maxInflight, acts).value;
    RunningAreCounted(st.procs);
    forall s | 0 <= s < |st.procs|
      ensures st.procs[s].streamInflight == (if st.procs[s].phase.Running? then 1 else 0)
      ensures st.procs[s].peakInflight == (if st.dispatched[s] == [] then 0 else 1)
    {
      assert ProcOk(st.procs[s], st.lens[s], st.dispatched[s], st.cancelled);
    }
  }

  predicate WantsToken(p: Proc) {
    p.phase.Acquiring? || p.phase.Blocked?
  }

  // A stream that wants a token gets one at its next step exactly when fewer than
  // the limit are held. Otherwise it comes to stand in the blocking send, where it
  // has no step until one is returned.
  lemma TokensAreGrantedUpToTheLimit(lens: seq<nat>, maxInflight: int, acts: seq<Action>, s: nat)
    requires Run(lens, maxInflight, acts).Some? && s < |lens|
    requires WantsToken(Run(lens, maxInflight, acts).value.procs[s])
    ensures var st, next := Run(lens, maxInflight, acts).value, Run(lens, maxInflight, acts + [Act(s, Go)]);
            var limit := if maxInflight > 0 then maxInflight else 512;
            && (st.tokens < limit ==> next.Some? && next.value.procs[s].phase.Holding?)
            && (st.tokens == limit && st.procs[s].phase.Acquiring? ==> next.Some? && next.value.procs[s].phase.Blocked?)
            && (st.tokens == limit && st.procs[s].phase.Blocked? ==> next.None?)
  {
    RunKeepsLimit(lens, maxInflight, acts);
    assert (acts + [Act(s, Go)])[..|acts|] == acts;
  }

  // How many tokens were granted to streams that had to block for them.
  function Waited(lens: seq<nat>, maxInflight: int, acts: seq<Action>): nat
    requires Run(lens, maxInflight, acts).Some?
  {
    if acts == [] then 0
    else
      var early, a := acts[..|acts|-1], acts[|acts|-1];
      var st, after := Run(lens, maxInflight, early).value, Run(lens, maxInflight, acts).value;
      Waited(lens, maxInflight, early)
      + if a.Act? && a.s < |lens| && st.procs[a.s].phase.Blocked? && after.procs[a.s].phase.Holding? then 1 else 0
  }

  lemma ApplyCountsBacklog(st: State, a: Action)
    requires WellFormed(st) && Apply(st, a).Some?
    ensures var after := Apply(st, a).value;
            && |after.procs| == |st.procs|
            && after.backlogEvents - st.backlogEvents
               == if a.Act? && a.s < |st.procs| && st.procs[a.s].phase.Blocked? && after.procs[a.s].phase.Holding?
                  then 1 else 0
  {
  }

  // The backlog count of the result.
  lemma {:induction false} BacklogIsCounted(lens: seq<nat>, maxInflight: int, acts: seq<Action>)
    requires Run(lens, maxInflight, acts).Some?
    ensures Run(lens, maxInflight, acts).value.backlogEvents == Waited(lens, maxInflight, acts)
  {
    hide Apply;
    if acts != [] {
      BacklogIsCounted(lens, maxInflight, acts[..|acts|-1]);
      ApplyCountsBacklog(Run(lens, maxInflight, acts[..|acts|-1]).value, acts[|acts|-1]);
    }
  }

  // ----- Cancellation -----

  // Whether the stream is on its way to dispatching an operation.
  predicate OnItsWay(p: Proc) {
    || p.phase.Pacing? || WantsToken(p) || p.phase.Holding?
    || p.phase.Counting? || p.phase.Swapping? || p.phase.Dispatching?
  }

  function Reserve(st: State, s: nat): nat
    requires WellFormed(st) && s < |st.procs|
  {
    |st.dispatched[s]| + if OnItsWay(st.procs[s]) then 1 else 0
  }

  lemma CancelledStepSpendsReserve(st: State, a: Action, s: nat)
    requires WellFormed(st) && st.cancelled && s < |st.procs| && Apply(st, a).Some?
    ensures var after := Apply(st, a).value;
            WellFormed(after) && |after.procs| == |st.procs| && after.cancelled && Reserve(after, s) <= Reserve(st, s)
  {
  }

  lemma {:induction false} ReserveIsSpent(lens: seq<nat>, maxInflight: int, acts: seq<Action>, more: seq<Action>,
                                          s: nat)
    requires Run(lens, maxInflight, acts).Some? && s < |lens| && Run(lens, maxInflight, acts).value.cancelled
    requires Run(lens, maxInflight, acts + more).Some?
    ensures var st, after := Run(lens, maxInflight, acts).value, Run(lens, maxInflight, acts + more).value;
            && after.cancelled
            && |after.dispatched[s]| <= Reserve(after, s) <= Reserve(st, s)
  {
    hide Apply, OnItsWay;
    if more == [] {
      assert acts + more == acts;
    } else {
      var early, a := more[..|more|-1], more[|more|-1];
      assert (acts + more)[..|acts + more|-1] == acts + early;
      ReserveIsSpent(lens, maxInflight, acts, early, s);
      CancelledStepSpendsReserve(Run(lens, maxInflight, acts + early).value, a, s);
    }
  }

  // Once the run is cancelled a stream dispatches at most the operation it is on
  // its way to dispatching, whatever the schedule.
  lemma CancelledStreamsStop(lens: seq<nat>, maxInflight: int, acts: seq<Action>, more: seq<Action>, s: nat)
    requires Run(lens, maxInflight, acts).Some? && s < |lens|
    requires Run(lens, maxInflight, acts + [Cancel] + more).Some?
    ensures var st, after := Run(lens, maxInflight, acts).value, Run(lens, maxInflight, acts + [Cancel] + more).value;
            after.cancelled && |after.dispatched[s]| <= |st.dispatched[s]| + if OnItsWay(st.procs[s]) then 1 else 0
  {
    assert (acts + [Cancel])[..|acts|] == acts;
    ReserveIsSpent(lens, maxInflight, acts + [Cancel], more, s);
  }

  // A wait ends by cancellation exactly when the run is cancelled.
  lemma CancelEndsWaits(lens: seq<nat>, maxInflight: int, acts: seq<Action>, s: nat)
    requires Run(lens, maxInflight, acts).Some? && s < |lens|
    requires var p := Run(lens, maxInflight, acts).value.procs[s]; p.phase.Pacing? || p.phase.Blocked?
    ensures var st, next := Run(lens, maxInflight, acts).value, Run(lens, maxInflight, acts + [Act(s, Quit)]);
            && (next.Some? <==> st.cancelled)
            && (next.Some? ==> next.value.procs[s].phase == Ended(true) && next.value.tokens == st.tokens)
  {
    assert (acts + [Act(s, Quit)])[..|acts|] == acts;
  }

  // A stream dispatches its operations in order: always a prefix, and all of
  // them once it ended without the run being cancelled.
  lemma StreamsDispatchInOrder(lens: seq<nat>, maxInflight: int, acts: seq<Action>, s: nat)
    requires Run(lens, maxInflight, acts).Some? && s < |lens|
    ensures var st := Run(lens, maxInflight, acts).value;
            && (exists k: nat :: k <= lens[s] && st.dispatched[s] == Iota(k))
            && (st.procs[s].phase.Ended? && !st.cancelled ==> st.dispatched[s] == Iota(lens[s]))
  {
    EveryRunKeepsInv(lens, maxInflight, acts);
    var st := Run(lens, maxInflight, acts).value;
    assert ProcOk(st.procs[s], st.lens[s], st.dispatched[s], st.cancelled);
    assert st.dispatched[s] == Iota(|st.dispatched[s]|);
  }

  // The largest in-flight count of a run, measured state by state.
  function PeakOver(lens: seq<nat>, maxInflight: int, acts: seq<Action>): int
    requires Run(lens, maxInflight, acts).Some?
  {
    if acts == [] then 0
    else Max(PeakOver(lens, maxInflight, acts[..|acts|-1]), Run(lens, maxInflight, acts).value.inflight)
  }

  lemma ApplyRaisesPeak(st: State, a: Action)
    requires WellFormed(st) && Apply(st, a).Some? && st.inflight <= st.peak
    ensures Apply(st, a).value.peak == Max(st.peak, Apply(st, a).value.inflight)
  {
  }

  lemma {:induction false} PeakIsMeasured(lens: seq<nat>, maxInflight: int, acts: seq<Action>)
    requires Run(lens, maxInflight, acts).Some?
    ensures Run(lens, maxInflight, acts).value.peak == PeakOver(lens, maxInflight, acts)
  {
    hide Apply;
    if acts != [] {
      var early := acts[..|acts|-1];
      PeakIsMeasured(lens, maxInflight, early);
      EveryRunKeepsInv(lens, maxInflight, early);
      ApplyRaisesPeak(Run(lens, maxInflight, early).value, acts[|acts|-1]);
    }
  }

  ghost predicate AllEnded(st: State) {
    forall s :: 0 <= s < |st.procs| ==> st.procs[s].phase.Ended?
  }

  // When every stream has ended, cancelled or not, no token is held, nothing is
  // in flight, and the recorded depth is the true peak.
  lemma EndsClean(lens: seq<nat>, maxInflight: int, acts: seq<Action>)
    requires Run(lens, maxInflight, acts).Some? && AllEnded(Run(lens, maxInflight, acts).value)
    ensures var st := Run(lens, maxInflight, acts).value;
            st.tokens == 0 && st.inflight == 0 && st.depth == PeakOver(lens, maxInflight, acts)
  {
    EveryRunKeepsInv(lens, maxInflight, acts);
    PeakIsMeasured(lens, maxInflight, acts);
    var st := Run(lens, maxInflight, acts).value;
    NoHolders(st.procs);
    RunningAreCounted(st.procs);
  }

  // Until all streams have ended, one of them can move.
  lemma NoDeadlock(lens: seq<nat>, maxInflight: int, acts: seq<Action>) returns (s: nat)
    requires Run(lens, maxInflight, acts).Some? && !AllEnded(Run(lens, maxInflight, acts).value)
    ensures s < |lens| && Run(lens, maxInflight, acts + [Act(s, Go)]).Some?
  {
    EveryRunKeepsInv(lens, maxInflight, acts);
    var st := Run(lens, maxInflight, acts).value;
    assert (acts + [Act(0, Go)])[..|acts|] == acts;
    s :| 0 <= s < |st.procs| && !st.procs[s].phase.Ended?;
    if st.procs[s].phase.Blocked? && st.tokens == st.maxInflight {
      NoHolders(st.procs);
      s :| 0 <= s < |st.procs| && HoldsToken(st.procs[s]);
    }
    assert (acts + [Act(s, Go)])[..|acts|] == acts;
  }

  // ----- Every run ends -----

  // How far a process is from its end. A swap that will fail costs a retry.
  function Work(p: Proc, len: nat, depth: int): int {
    12 * (len - p.next) +
    match p.phase
    case Ready => 1
    case Pacing => 0
    case Acquiring => -1
    case Blocked => -2
    case Holding => -3
    case Counting(_) => -5
    case Swapping(_, seen) => if seen == depth then -6 else -4
    case Dispatching => -7
    case Running => -8
    case Finishing => -9
    case Releasing => -10
    case Ended(_) => -12 * (len - p.next)
  }

  function TotalWork(ps: seq<Proc>, lens: seq<nat>, depth: int): int
    requires |ps| == |lens|
  {
    if ps == [] then 0
    else TotalWork(ps[..|ps|-1], lens[..|ps|-1], depth) + Work(ps[|ps|-1], lens[|ps|-1], depth)
  }

  // Raising the depth may make every other swap fail once.
  function Measure(st: State): int
    requires WellFormed(st) && st.depth <= st.maxInflight
  {
    TotalWork(st.procs, st.lens, st.depth) + 2 * Product(st.maxInflight - st.depth, |st.procs|)
  }

  lemma {:induction false} WorkAfter(ps: seq<Proc>, lens: seq<nat>, s: nat, p: Proc, depth: int)
    requires s < |ps| == |lens|
    ensures TotalWork(ps[s := p], lens, depth) - TotalWork(ps, lens, depth)
            == Work(p, lens[s], depth) - Work(ps[s], lens[s], depth)
  {
    hide Work;
    var n := |ps| - 1;
    if s == n {
      assert ps[s := p][..n] == ps[..n];
    } else {
      WorkAfter(ps[..n], lens[..n], s, p, depth);
      assert ps[s := p][..n] == ps[..n][s := p];
    }
  }

  lemma {:induction false} WorkAtOtherDepth(ps: seq<Proc>, lens: seq<nat>, depth: int, depth': int)
    requires |ps| == |lens|
    ensures TotalWork(ps, lens, depth') <= TotalWork(ps, lens, depth) + 2 * |ps|
  {
    if ps != [] {
      var n := |ps| - 1;
      WorkAtOtherDepth(ps[..n], lens[..n], depth, depth');
      assert Work(ps[n], lens[n], depth') <= Work(ps[n], lens[n], depth) + 2;
    }
  }

  lemma {:induction false} WorkNonNegative(ps: seq<Proc>, lens: seq<nat>, depth: int)
    requires |ps| == |lens|
    requires forall s :: 0 <= s < |ps| ==> ps[s].next <= lens[s]
    requires forall s :: 0 <= s < |ps| && !ps[s].phase.Ready? && !ps[s].phase.Ended? ==> ps[s].next < lens[s]
    ensures 0 <= TotalWork(ps, lens, depth)
  {
    if ps != [] {
      WorkNonNegative(ps[..|ps|-1], lens[..|ps|-1], depth);
    }
  }

  lemma MeasureIsBounded(st: State)
    requires Inv(st)
    ensures st.depth <= st.maxInflight && 0 <= Measure(st)
  {
    forall s | 0 <= s < |st.procs|
      ensures st.procs[s].next <= st.lens[s]
      ensures !st.procs[s].phase.Ready? && !st.procs[s].phase.Ended? ==> st.procs[s].next < st.lens[s]
    {
      assert ProcOk(st.procs[s], st.lens[s], st.dispatched[s], st.cancelled);
    }
    WorkNonNegative(st.procs, st.lens, st.depth);
  }

  lemma StepMovesForward(st: State, s: nat, choice: Choice)
    requires Inv(st) && s < |st.procs| && Step(st, s, choice).Some?
    ensures var after, p := Step(st, s, choice).value, st.procs[s];
            && after.procs == st.procs[s := after.procs[s]]
            && st.depth <= after.depth
            && (after.depth == st.depth ==>
                  Work(after.procs[s], st.lens[s], st.depth) < Work(p, st.lens[s], st.depth))
            && (after.depth > st.depth ==>
                  Work(after.procs[s], st.lens[s], after.depth) < Work(p, st.lens[s], st.depth))
            && (after.depth > st.depth ==> p.phase.Swapping? && after.procs[s].phase.Dispatching?)
  {
    var p := st.procs[s];
    assert ProcOk(p, st.lens[s], st.dispatched[s], st.cancelled);
    assert CountOk(p, st.depth, st.peak);
  }

  // Moving one process forward, possibly raising the depth, lowers the measure.
  lemma MoveLowersMeasure(st: State, after: State, s: nat)
    requires WellFormed(st) && WellFormed(after) && s < |st.procs| == |after.procs|
    requires after.procs == st.procs[s := after.procs[s]] && after.lens == st.lens
    requires st.depth <= after.depth <= after.maxInflight == st.maxInflight
    requires Work(after.procs[s], st.lens[s], st.depth) < Work(st.procs[s], st.lens[s], st.depth)
    ensures Measure(after) < Measure(st)
  {
    hide Work, TotalWork, Product;
    WorkAfter(st.procs, st.lens, s, after.procs[s], st.depth);
    if after.depth > st.depth {
      WorkAtOtherDepth(after.procs, st.lens, st.depth, after.depth);
      SwapPays(st.maxInflight, st.depth, after.depth, |st.procs|);
    }
  }

  lemma StepDecreasesMeasure(st: State, s: nat, choice: Choice)
    requires Inv(st) && s < |st.procs| && Step(st, s, choice).Some?
    ensures var after := Step(st, s, choice).value;
            st.depth <= st.maxInflight && WellFormed(after) && after.depth <= after.maxInflight
            && Measure(after) < Measure(st)
  {
    hide Work, Step, ProcsOk, Measure, Holders, InFlight, CountOk, ProcOk;
    InvIsWellFormed(st);
    StepMovesForward(st, s, choice);
    StepIsLocal(st, s, choice);
    StepKeepsCounters(st, s, choice);
    StepKeepsDepth(st, s, choice);
    var after := Step(st, s, choice).value;
    if after.depth > st.depth {
      DispatchingWork(after.procs[s], st.lens[s], st.depth, after.depth);
    }
    MoveLowersMeasure(st, after, s);
  }

  lemma DispatchingWork(p: Proc, len: nat, depth: int, depth': int)
    requires p.phase.Dispatching?
    ensures Work(p, len, depth) == Work(p, len, depth')
  {
  }

  lemma SwapPays(max: int, depth: int, depth': int, n: nat)
    requires depth < depth' <= max
    ensures Product(max - depth', n) + n <= Product(max - depth, n)
  {
    ProductGrows(max - depth', max - depth, n);
  }

  function Product(k: nat, n: nat): nat {
    if k == 0 then 0 else Product(k - 1, n) + n
  }

  lemma {:induction false} ProductGrows(k: nat, m: nat, n: nat)
    requires k < m
    ensures Product(k, n) + n <= Product(m, n)
    decreases m
  {
    if k < m - 1 {
      ProductGrows(k, m - 1, n);
    }
  }

  function NumSteps(acts: seq<Action>): nat {
    if acts == [] then 0 else NumSteps(acts[..|acts|-1]) + if acts[|acts|-1].Act? then 1 else 0
  }

  lemma ApplyDecreasesMeasure(st: State, a: Action)
    requires Inv(st) && WellFormed(st) && Apply(st, a).Some?
    ensures var after := Apply(st, a).value;
            && st.depth <= st.maxInflight && WellFormed(after) && after.depth <= after.maxInflight
            && Measure(after) + (if a.Act? then 1 else 0) <= Measure(st)
  {
    hide Step, TotalWork, Holders, InFlight;
    if a.Act? {
      StepDecreasesMeasure(st, a.s, a.choice);
    }
  }

  lemma StartIsBounded(lens: seq<nat>, maxInflight: int)
    ensures var st := Start(lens, maxInflight); WellFormed(st) && st.depth <= st.maxInflight
  {
  }

  // No schedule, fair or not, keeps the streams busy for longer than this; with
  // NoDeadlock, every run that is not stopped early ends with all streams ended.
  lemma {:induction false} RunsAreFinite(lens: seq<nat>, maxInflight: int, acts: seq<Action>)
    requires Run(lens, maxInflight, acts).Some?
    ensures Start(lens, maxInflight).depth <= Start(lens, maxInflight).maxInflight
    ensures var st := Run(lens, maxInflight, acts).value;
            st.depth <= st.maxInflight && NumSteps(acts) + Measure(st) <= Measure(Start(lens, maxInflight))
  {
    hide Inv, Apply, Measure, Start;
    StartIsBounded(lens, maxInflight);
    if acts != [] {
      var early, a := acts[..|acts|-1], acts[|acts|-1];
      RunsAreFinite(lens, maxInflight, early);
      EveryRunKeepsInv(lens, maxInflight, early);
      ApplyDecreasesMeasure(Run(lens, maxInflight, early).value, a);
    }
  }

  lemma StepsAreBounded(lens: seq<nat>, maxInflight: int, acts: seq<Action>)
    requires Run(lens, maxInflight, acts).Some?
    ensures Start(lens, maxInflight).depth <= Start(lens, maxInflight).maxInflight
    ensures NumSteps(acts) <= Measure(Start(lens, maxInflight))
  {
    hide Measure;
    RunsAreFinite(lens, maxInflight, acts);
    EveryRunKeepsInv(lens, maxInflight, acts);
    MeasureIsBounded(Run(lens, maxInflight, acts).value);
  }
}
