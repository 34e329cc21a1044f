// The coordinator's PREPARE, RUN and COLLECT protocol as a transition system
// (pkg/cluster/coordinator.go:80-286), under every ordering of the workers'
// answers and every failure.
module Coordinator {
  import opened Trace

  datatype Scope = Shared | PerWorker

  datatype Worker =
    | Idle | Preparing | Prepared | PrepareFailed
    | Running | Ran | RunFailed(canceled: bool)

  datatype Phase =
    | PreparingFirst              // shared scope: worker 0 alone
    | PreparingFrom(start: nat)   // the workers from start on, at once
    | RunPhase
    | Collecting(next: nat)
    | Finished                    // the merged result is returned
    | Failed(who: nat)            // an error and no result

  // What happened, in order.
  datatype Event =
    | PrepareStarted(w: nat) | PrepareOk(w: nat) | PrepareErr(w: nat)
    | RunStarted(w: nat) | RunOk(w: nat) | RunErr(w: nat)
    | CollectOk(w: nat) | CollectErr(w: nat)

  datatype State = State(scope: Scope, phase: Phase, workers: seq<Worker>, cancelled: bool, log: seq<Event>)

  datatype Action =
    | BeginPrepare(w: nat) | EndPrepare(w: nat, ok: bool)
    | BeginRun(w: nat) | EndRun(w: nat, outcome: Outcome)
    | CallerCancels
    | Collect(ok: bool)
    | Advance

  datatype Outcome = Completed | OwnError | Canceled

  function Start(scope: Scope, n: nat): State {
    State(scope, if scope.Shared? then PreparingFirst else PreparingFrom(0), seq(n, _ => Idle), false, [])
  }

  // ----- firstRunError -----

  // The lowest worker whose run failed with an error of its own; a worker that
  // was only stopped is blamed when there is no other.
  ghost predicate IsFirst(workers: seq<Worker>, w: nat, failure: Worker) {
    w < |workers| && workers[w] == failure && forall k :: 0 <= k < w ==> workers[k] != failure
  }

  function First(workers: seq<Worker>, failure: Worker): (r: Option<nat>)
    ensures r.Some? ==> IsFirst(workers, r.value, failure)
    ensures r.None? ==> failure !in workers
  {
    if workers == [] then None
    else if workers[0] == failure then Some(0)
    else
      match First(workers[1..], failure)
      case None => None
      case Some(w) => Some(w + 1)
  }

  function Blamed(workers: seq<Worker>): Option<nat> {
    var own := First(workers, RunFailed(false));
    if own.Some? then own else First(workers, RunFailed(true))
  }

  method FirstRunError(workers: seq<Worker>) returns (r: Option<nat>)
    ensures r.None? <==> forall w :: 0 <= w < |workers| ==> !workers[w].RunFailed?
    ensures r.Some? ==>
              IsFirst(workers, r.value, RunFailed(RunFailed(false) !in workers))
    ensures r == Blamed(workers)
  {
    var canceled: Option<nat> := None;
    r := None;
    for i := 0 to |workers|
      invariant forall w :: 0 <= w < i ==> workers[w] != RunFailed(false)
      invariant canceled.None? ==> forall w :: 0 <= w < i ==> workers[w] != RunFailed(true)
      invariant canceled.Some? ==> canceled.value < i && IsFirst(workers, canceled.value, RunFailed(true))
    {
      if workers[i].RunFailed? {
        if workers[i].canceled {
          if canceled.None? {
            canceled := Some(i);
          }
        } else {
          FirstIsUnique(workers, i, RunFailed(false));
          return Some(i);
        }
      }
    }
    r := canceled;
    if canceled.Some? {
      FirstIsUnique(workers, canceled.value, RunFailed(true));
    }
  }

  lemma FirstIsUnique(workers: seq<Worker>, w: nat, failure: Worker)
    requires IsFirst(workers, w, failure)
    ensures First(workers, failure) == Some(w)
  {
    var other := First(workers, failure);
    assert workers[w] in workers;
  }

  // ----- Steps -----

  // The workers the current phase has started preparing.
  predicate MayPrepare(st: State, w: nat) {
    match st.phase
    case PreparingFirst => w == 0
    case PreparingFrom(start) => w >= start
    case _ => false
  }

  ghost predicate AllFrom(workers: seq<Worker>, start: nat, done: Worker -> bool) {
    forall w :: start <= w < |workers| ==> done(workers[w])
  }

  predicate PrepareAnswered(x: Worker) {
    x.Prepared? || x.PrepareFailed?
  }

  predicate RunAnswered(x: Worker) {
    x.Ran? || x.RunFailed?
  }

  function Set(st: State, w: nat, x: Worker, e: Event): State
    requires w < |st.workers|
  {
    st.(workers := st.workers[w := x], log := st.log + [e])
  }

  function AfterPrepare(st: State): State {
    match First(st.workers, PrepareFailed)
    case Some(w) => st.(phase := Failed(w))
    case None => st.(phase := RunPhase)
  }

  function AfterRun(st: State): State {
    match Blamed(st.workers)
    case Some(w) => st.(phase := Failed(w))
    case None => st.(phase := Collecting(0))
  }

  // The coordinator's own moves: past a barrier, or out with an error.
  ghost function Advanced(st: State): Option<State> {
    match st.phase
    case PreparingFirst =>
      if |st.workers| == 0 then None
      else if st.workers[0].PrepareFailed? then Some(st.(phase := Failed(0)))
      else if !st.workers[0].Prepared? then None
      else if |st.workers| == 1 then Some(st.(phase := RunPhase))
      else Some(st.(phase := PreparingFrom(1)))
    case PreparingFrom(start) =>
      if AllFrom(st.workers, start, PrepareAnswered) then Some(AfterPrepare(st)) else None
    case RunPhase =>
      if AllFrom(st.workers, 0, RunAnswered) then Some(AfterRun(st)) else None
    case Collecting(next) =>
      if next == |st.workers| then Some(st.(phase := Finished)) else None
    case _ => None
  }

  // The next worker's output is merged in, or the run is given up.
  function Collected(st: State, ok: bool): State
    requires st.phase.Collecting?
  {
    var w := st.phase.next;
    if ok then st.(phase := Collecting(w + 1), log := st.log + [CollectOk(w)])
    else st.(phase := Failed(w), log := st.log + [CollectErr(w)])
  }

  ghost function Apply(st: State, a: Action): Option<State> {
    match a
    case BeginPrepare(w) =>
      if w < |st.workers| && MayPrepare(st, w) && st.workers[w].Idle?
      then Some(Set(st, w, Preparing, PrepareStarted(w))) else None
    case EndPrepare(w, ok) =>
      if w < |st.workers| && st.workers[w].Preparing?
      then Some(if ok then Set(st, w, Prepared, PrepareOk(w)) else Set(st, w, PrepareFailed, PrepareErr(w)))
      else None
    case BeginRun(w) =>
      if w < |st.workers| && st.phase.RunPhase? && st.workers[w].Prepared?
      then Some(Set(st, w, Running, RunStarted(w))) else None
    case EndRun(w, outcome) =>
      if w >= |st.workers| || !st.workers[w].Running? then None
      else
        (match outcome
         case Completed => Some(Set(st, w, Ran, RunOk(w)))
         case OwnError => Some(Set(st, w, RunFailed(false), RunErr(w)).(cancelled := true))
         case Canceled => if st.cancelled then Some(Set(st, w, RunFailed(true), RunErr(w))) else None)
    case CallerCancels => Some(st.(cancelled := true))
    case Collect(ok) =>
      if !st.phase.Collecting? || st.phase.next >= |st.workers| then None
      else Some(Collected(st, ok))
    case Advance => Advanced(st)
  }

  ghost function Run(scope: Scope, n: nat, acts: seq<Action>): (r: Option<State>)
    ensures r.Some? ==> |r.value.workers| == n
  {
    if acts == [] then Some(Start(scope, n))
    else
      match Run(scope, n, acts[..|acts|-1])
      case None => None
      case Some(st) => Apply(st, acts[|acts|-1])
  }

  // ----- What every run keeps -----

  // No worker starts to run before every worker's PREPARE succeeded, no output is
  // collected before every worker's RUN succeeded, and under shared scope no other
  // worker starts to prepare before worker 0 succeeded.
  predicate Barrier(scope: Scope, n: nat, before: seq<Event>, e: Event) {
    && (e.RunStarted? ==> forall w :: 0 <= w < n ==> PrepareOk(w) in before)
    && (e.CollectOk? || e.CollectErr? ==> forall w :: 0 <= w < n ==> RunOk(w) in before)
    && (scope.Shared? && e.PrepareStarted? && e.w > 0 ==> PrepareOk(0) in before)
  }

  ghost predicate BarriersHold(scope: Scope, n: nat, log: seq<Event>) {
    forall k :: 0 <= k < |log| ==> Barrier(scope, n, log[..k], log[k])
  }

  predicate HasPrepared(x: Worker) {
    x.Prepared? || x.Running? || x.Ran? || x.RunFailed?
  }

  // A worker's standing agrees with what the log says of it.
  predicate Explained(x: Worker, w: nat, log: seq<Event>) {
    && (HasPrepared(x) <==> PrepareOk(w) in log)
    && (PrepareErr(w) in log <==> x.PrepareFailed?)
    && (RunErr(w) in log <==> x.RunFailed?)
    && (RunOk(w) in log <==> x.Ran?)
  }

  ghost predicate PhaseOk(st: State) {
    match st.phase
    case PreparingFirst =>
      st.scope.Shared? && forall w :: 1 <= w < |st.workers| ==> st.workers[w].Idle?
    case PreparingFrom(start) =>
      && (forall w :: 0 <= w < |st.workers| && w < start ==> st.workers[w].Prepared?)
      && (st.scope.Shared? ==> start == 1 && |st.workers| > 1)
    case RunPhase => forall w :: 0 <= w < |st.workers| ==> HasPrepared(st.workers[w])
    case Collecting(next) =>
      && next <= |st.workers| && (forall w :: 0 <= w < |st.workers| ==> st.workers[w].Ran?)
      && (forall w :: 0 <= w < next ==> CollectOk(w) in st.log)
    case Finished => forall w :: 0 <= w < |st.workers| ==> st.workers[w].Ran? && CollectOk(w) in st.log
    case Failed(who) => who < |st.workers|
  }

  ghost predicate RunsOnlyAfterBarrier(st: State) {
    forall w :: 0 <= w < |st.workers| && (st.workers[w].Running? || RunAnswered(st.workers[w])) ==>
      !st.phase.PreparingFirst? && !st.phase.PreparingFrom?
  }

  ghost predicate AllExplained(st: State) {
    forall w :: 0 <= w < |st.workers| ==> Explained(st.workers[w], w, st.log)
  }

  // Who is to be named: the lowest worker that failed to prepare, else the lowest
  // whose run failed by itself, else the lowest that was stopped, else the one whose
  // output could not be collected.
  ghost predicate ToBlame(workers: seq<Worker>, log: seq<Event>, who: nat) {
    if PrepareFailed in workers then IsFirst(workers, who, PrepareFailed)
    else if RunFailed(false) in workers then IsFirst(workers, who, RunFailed(false))
    else if RunFailed(true) in workers then IsFirst(workers, who, RunFailed(true))
    else who < |workers| && CollectErr(who) in log
  }

  ghost predicate BlameOk(st: State) {
    st.phase.Failed? ==> ToBlame(st.workers, st.log, st.phase.who)
  }

  // Nobody is still at work once the run has failed.
  ghost predicate NobodyBusy(st: State) {
    st.phase.Failed? ==> Preparing !in st.workers && Running !in st.workers
  }

  ghost predicate Inv(st: State) {
    && PhaseOk(st) && RunsOnlyAfterBarrier(st) && AllExplained(st) && BlameOk(st) && NobodyBusy(st)
    && BarriersHold(st.scope, |st.workers|, st.log)
  }

  lemma LogStep(scope: Scope, n: nat, log: seq<Event>, e: Event)
    requires BarriersHold(scope, n, log) && Barrier(scope, n, log, e)
    ensures BarriersHold(scope, n, log + [e])
  {
    hide Barrier;
    var all := log + [e];
    forall k | 0 <= k < |all| ensures Barrier(scope, n, all[..k], all[k]) {
      assert all[..|log|] == log;
      assert k < |log| ==> all[..k] == log[..k];
    }
  }

  // What a worker answered, or that it was started.
  predicate FitsMove(x: Worker, w: nat, e: Event, x': Worker) {
    || (x.Idle? && x'.Preparing? && e == PrepareStarted(w))
    || (x.Preparing? && x'.Prepared? && e == PrepareOk(w))
    || (x.Preparing? && x'.PrepareFailed? && e == PrepareErr(w))
    || (x.Prepared? && x'.Running? && e == RunStarted(w))
    || (x.Running? && x'.Ran? && e == RunOk(w))
    || (x.Running? && x'.RunFailed? && e == RunErr(w))
  }

  lemma MoveIsExplained(st: State, w: nat, x: Worker, e: Event)
    requires AllExplained(st) && w < |st.workers| && FitsMove(st.workers[w], w, e, x)
    ensures AllExplained(Set(st, w, x, e))
  {
    var after := Set(st, w, x, e);
    forall k | 0 <= k < |st.workers| ensures Explained(after.workers[k], k, after.log) {
      assert Explained(st.workers[k], k, st.log);
    }
  }

  lemma MoveKeepsPhase(st: State, w: nat, x: Worker, e: Event)
    requires PhaseOk(st) && RunsOnlyAfterBarrier(st) && NobodyBusy(st)
    requires w < |st.workers| && FitsMove(st.workers[w], w, e, x)
    requires st.workers[w].Idle? ==> MayPrepare(st, w)
    requires st.workers[w].Prepared? ==> st.phase.RunPhase?
    requires st.workers[w].Running? ==> st.phase.RunPhase?
    ensures PhaseOk(Set(st, w, x, e)) && RunsOnlyAfterBarrier(Set(st, w, x, e)) && !st.phase.Failed?
  {
    var after := Set(st, w, x, e);
    assert forall k :: 0 <= k < |st.workers| && k != w ==> after.workers[k] == st.workers[k];
    assert st.workers[w] in st.workers;
  }

  lemma MoveObeysBarrier(st: State, w: nat, x: Worker, e: Event)
    requires PhaseOk(st) && AllExplained(st)
    requires w < |st.workers| && FitsMove(st.workers[w], w, e, x)
    requires st.workers[w].Idle? ==> MayPrepare(st, w)
    requires st.workers[w].Prepared? ==> st.phase.RunPhase?
    ensures Barrier(st.scope, |st.workers|, st.log, e)
  {
    if e.RunStarted? {
      forall k | 0 <= k < |st.workers| ensures PrepareOk(k) in st.log {
        assert Explained(st.workers[k], k, st.log) && HasPrepared(st.workers[k]);
      }
    } else if e.PrepareStarted? && w > 0 && st.scope.Shared? {
      assert st.workers[0].Prepared? && Explained(st.workers[0], 0, st.log);
    }
  }

  // One worker's move, at a moment the phase allows.
  lemma MoveKeepsInv(st: State, w: nat, x: Worker, e: Event)
    requires Inv(st) && w < |st.workers| && FitsMove(st.workers[w], w, e, x)
    requires st.workers[w].Idle? ==> MayPrepare(st, w)
    requires st.workers[w].Prepared? ==> st.phase.RunPhase?
    requires st.workers[w].Running? ==> st.phase.RunPhase?
    ensures Inv(Set(st, w, x, e))
  {
    MoveIsExplained(st, w, x, e);
    MoveKeepsPhase(st, w, x, e);
    MoveObeysBarrier(st, w, x, e);
    hide PhaseOk, RunsOnlyAfterBarrier, AllExplained, BarriersHold, Barrier, FitsMove;
    LogStep(st.scope, |st.workers|, st.log, e);
  }

  lemma CancelKeepsInv(st: State)
    requires Inv(st)
    ensures Inv(st.(cancelled := true))
  {
  }

  // A worker is running only while the coordinator waits for all of them.
  ghost predicate RunnersAwaited(st: State) {
    forall w :: 0 <= w < |st.workers| && st.workers[w].Running? ==> st.phase.RunPhase?
  }

  lemma ApplyKeepsInv(st: State, a: Action)
    requires Inv(st) && RunnersAwaited(st) && Apply(st, a).Some?
    ensures Inv(Apply(st, a).value)
  {
    hide Inv, Advanced;
    match a {
      case BeginPrepare(w) => MoveKeepsInv(st, w, Preparing, PrepareStarted(w));
      case EndPrepare(w, ok) =>
        MoveKeepsInv(st, w, if ok then Prepared else PrepareFailed, if ok then PrepareOk(w) else PrepareErr(w));
      case BeginRun(w) => MoveKeepsInv(st, w, Running, RunStarted(w));
      case EndRun(w, outcome) =>
        CancelKeepsInv(st);
        match outcome {
          case Completed => MoveKeepsInv(st, w, Ran, RunOk(w));
          case OwnError => MoveKeepsInv(st.(cancelled := true), w, RunFailed(false), RunErr(w));
          case Canceled => MoveKeepsInv(st, w, RunFailed(true), RunErr(w));
        }
      case CallerCancels => CancelKeepsInv(st);
      case Collect(ok) => CollectKeepsInv(st, ok);
      case Advance => AdvanceKeepsInv(st);
    }
  }

  lemma CollectKeepsInv(st: State, ok: bool)
    requires Inv(st) && st.phase.Collecting? && st.phase.next < |st.workers|
    ensures Inv(Collected(st, ok))
  {
    var e := if ok then CollectOk(st.phase.next) else CollectErr(st.phase.next);
    forall w | 0 <= w < |st.workers| ensures RunOk(w) in st.log && Explained(st.workers[w], w, st.log + [e]) {
      assert Explained(st.workers[w], w, st.log);
    }
    assert forall x :: x in st.workers ==> x.Ran?;
    LogStep(st.scope, |st.workers|, st.log, e);
  }

  lemma AfterPrepareKeepsInv(st: State)
    requires Inv(st) && st.phase.PreparingFrom? && AllFrom(st.workers, st.phase.start, PrepareAnswered)
    ensures Inv(AfterPrepare(st))
  {
    var failed := First(st.workers, PrepareFailed);
    forall w | 0 <= w < |st.workers| ensures PrepareAnswered(st.workers[w]) {
    }
    if failed.None? {
      forall w | 0 <= w < |st.workers| ensures st.workers[w].Prepared? {
        assert st.workers[w] in st.workers;
      }
    }
  }

  lemma AfterRunKeepsInv(st: State)
    requires Inv(st) && st.phase.RunPhase? && AllFrom(st.workers, 0, RunAnswered)
    ensures Inv(AfterRun(st))
  {
    var blamed := Blamed(st.workers);
    if blamed.None? {
      forall w | 0 <= w < |st.workers| ensures st.workers[w].Ran? {
        assert st.workers[w] in st.workers && RunAnswered(st.workers[w]);
      }
    } else if w :| 0 <= w < |st.workers| && st.workers[w] == RunFailed(false) {
      assert st.workers[w] in st.workers;
    }
  }

  lemma AdvanceKeepsInv(st: State)
    requires Inv(st) && Advanced(st).Some?
    ensures Inv(Advanced(st).value)
  {
    match st.phase {
      case PreparingFrom(_) => AfterPrepareKeepsInv(st);
      case RunPhase => AfterRunKeepsInv(st);
      case _ =>
    }
  }

  lemma ApplyKeepsRunners(st: State, a: Action)
    requires Inv(st) && RunnersAwaited(st) && Apply(st, a).Some?
    ensures RunnersAwaited(Apply(st, a).value)
  {
    hide BarriersHold, AllExplained, BlameOk, First;
    var after := Apply(st, a).value;
    if a.Advance? && st.phase.RunPhase? {
      forall w | 0 <= w < |st.workers| ensures !st.workers[w].Running? {
        assert RunAnswered(st.workers[w]);
      }
    }
  }

  lemma {:induction false} EveryRunKeepsInv(scope: Scope, n: nat, acts: seq<Action>)
    requires n > 0 && Run(scope, n, acts).Some?
    ensures var st := Run(scope, n, acts).value;
            Inv(st) && RunnersAwaited(st) && |st.workers| == n && st.scope == scope
  {
    if acts != [] {
      EveryRunKeepsInv(scope, n, acts[..|acts|-1]);
      var st, a := Run(scope, n, acts[..|acts|-1]).value, acts[|acts|-1];
      ApplyKeepsInv(st, a);
      ApplyKeepsRunners(st, a);
      hide Inv, RunnersAwaited;
    }
  }

  // ----- Consequences for every run -----

  lemma RunWaitsForEveryPrepare(scope: Scope, n: nat, acts: seq<Action>, k: nat)
    requires n > 0 && Run(scope, n, acts).Some? && k < |Run(scope, n, acts).value.log|
    ensures var log := Run(scope, n, acts).value.log;
            && (log[k].RunStarted? ==> forall w :: 0 <= w < n ==> PrepareOk(w) in log[..k])
            && (log[k].CollectOk? || log[k].CollectErr? ==> forall w :: 0 <= w < n ==> RunOk(w) in log[..k])
            && (scope.Shared? && log[k].PrepareStarted? && log[k].w > 0 ==> PrepareOk(0) in log[..k])
  {
    EveryRunKeepsInv(scope, n, acts);
    var log := Run(scope, n, acts).value.log;
    assert Barrier(scope, n, log[..k], log[k]);
  }

  // A merged result means every worker ran to the end and gave its output; one
  // failure means none.
  lemma ResultNeedsEveryRun(scope: Scope, n: nat, acts: seq<Action>, w: nat)
    requires n > 0 && Run(scope, n, acts).Some? && w < n
    ensures var st := Run(scope, n, acts).value;
            && (st.phase.Finished? ==> RunOk(w) in st.log && CollectOk(w) in st.log)
            && (RunErr(w) in st.log ==> !st.phase.Finished? && !st.phase.Collecting?)
            && (PrepareErr(w) in st.log ==> st.phase.PreparingFirst? || st.phase.PreparingFrom? || st.phase.Failed?)
  {
    EveryRunKeepsInv(scope, n, acts);
    var st := Run(scope, n, acts).value;
    assert Explained(st.workers[w], w, st.log);
  }

  // The worker named by the error: the lowest that failed to prepare; if none did,
  // the lowest whose run failed by itself; if none did, the lowest that was stopped;
  // and otherwise the one whose output could not be collected.
  lemma RootCauseIsReported(scope: Scope, n: nat, acts: seq<Action>)
    requires n > 0 && Run(scope, n, acts).Some? && Run(scope, n, acts).value.phase.Failed?
    ensures var st := Run(scope, n, acts).value; ToBlame(st.workers, st.log, st.phase.who)
  {
    EveryRunKeepsInv(scope, n, acts);
  }

  // ----- Cancellation -----

  lemma MoveKeepsFailures(workers: seq<Worker>, w: nat, x: Worker, failure: Worker)
    requires w < |workers| && !workers[w].RunFailed? && failure.RunFailed?
    ensures failure in workers[w := x] <==> failure in workers || x == failure
  {
    var after := workers[w := x];
    assert after[w] == x;
    if failure in workers {
      var k :| 0 <= k < |workers| && workers[k] == failure;
      assert after[k] == failure;
    }
  }

  // The run is cancelled exactly when the caller cancelled it or a worker failed by
  // itself, and only a cancelled run has stopped workers.
  lemma {:induction false} CancelledExactlyWhen(scope: Scope, n: nat, acts: seq<Action>)
    requires Run(scope, n, acts).Some?
    ensures var st := Run(scope, n, acts).value;
            && (st.cancelled <==> CallerCancels in acts || RunFailed(false) in st.workers)
            && (RunFailed(true) in st.workers ==> st.cancelled)
  {
    if acts != [] {
      var early, a := acts[..|acts|-1], acts[|acts|-1];
      CancelledExactlyWhen(scope, n, early);
      var st, after := Run(scope, n, early).value, Run(scope, n, acts).value;
      assert acts == early + [a];
      ApplyKeepsCancelled(st, a);
    }
  }

  lemma ApplyKeepsCancelled(st: State, a: Action)
    requires Apply(st, a).Some?
    ensures var after := Apply(st, a).value;
            && (after.cancelled <==> st.cancelled || a.CallerCancels? || (a.EndRun? && a.outcome.OwnError?))
            && (RunFailed(false) in after.workers <==>
                  RunFailed(false) in st.workers || (a.EndRun? && a.outcome.OwnError?))
            && (RunFailed(true) in after.workers ==> RunFailed(true) in st.workers || st.cancelled)
  {
    hide First, Advanced;
    match a {
      case BeginPrepare(w) => MovesKeepFailures(st, w, Preparing);
      case EndPrepare(w, ok) => MovesKeepFailures(st, w, if ok then Prepared else PrepareFailed);
      case BeginRun(w) => MovesKeepFailures(st, w, Running);
      case EndRun(w, outcome) =>
        MovesKeepFailures(st, w, match outcome case Completed => Ran case OwnError => RunFailed(false)
                                               case Canceled => RunFailed(true));
      case Advance => AdvanceKeepsWorkers(st);
      case _ =>
    }
  }

  lemma MovesKeepFailures(st: State, w: nat, x: Worker)
    requires w < |st.workers| && !st.workers[w].RunFailed?
    ensures RunFailed(false) in st.workers[w := x] <==> RunFailed(false) in st.workers || x == RunFailed(false)
    ensures RunFailed(true) in st.workers[w := x] <==> RunFailed(true) in st.workers || x == RunFailed(true)
  {
    MoveKeepsFailures(st.workers, w, x, RunFailed(false));
    MoveKeepsFailures(st.workers, w, x, RunFailed(true));
  }

  lemma AdvanceKeepsWorkers(st: State)
    requires Advanced(st).Some?
    ensures Advanced(st).value.workers == st.workers && Advanced(st).value.cancelled == st.cancelled
  {
  }

  // Until a result or an error is out, something can happen.
  lemma NeverStuck(scope: Scope, n: nat, acts: seq<Action>) returns (a: Action)
    requires n > 0 && Run(scope, n, acts).Some?
    requires !Run(scope, n, acts).value.phase.Finished? && !Run(scope, n, acts).value.phase.Failed?
    ensures !a.CallerCancels? && Run(scope, n, acts + [a]).Some?
  {
    EveryRunKeepsInv(scope, n, acts);
    var st := Run(scope, n, acts).value;
    a := NextMove(st);
    assert (acts + [a])[..|acts|] == acts;
  }

  lemma NextMove(st: State) returns (a: Action)
    requires Inv(st) && |st.workers| > 0 && !st.phase.Finished? && !st.phase.Failed?
    ensures !a.CallerCancels? && Apply(st, a).Some?
  {
    a := Advance;
    match st.phase {
      case PreparingFirst =>
        if st.workers[0].Idle? {
          a := BeginPrepare(0);
        } else if st.workers[0].Preparing? {
          a := EndPrepare(0, true);
        }
      case PreparingFrom(start) =>
        if w :| start <= w < |st.workers| && !PrepareAnswered(st.workers[w]) {
          a := if st.workers[w].Idle? then BeginPrepare(w) else EndPrepare(w, true);
        }
      case RunPhase =>
        if w :| 0 <= w < |st.workers| && !RunAnswered(st.workers[w]) {
          a := if st.workers[w].Prepared? then BeginRun(w) else EndRun(w, Completed);
        }
      case Collecting(next) =>
        if next < |st.workers| {
          a := Collect(true);
        }
    }
  }
}
