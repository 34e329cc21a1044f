// Midnight rollover of time-of-day timestamps (pkg/importer/strace/parse.go:674-683).
module Rollover {

  const NS_PER_DAY := 86_400_000_000_000

  datatype State = State(dayOffset: int, prevAbs: int, havePrev: bool)

  const START := State(0, 0, false)

  function Next(st: State, tod: int): State {
    var offset :=
      if st.havePrev && tod + st.dayOffset < st.prevAbs - NS_PER_DAY / 2 then st.dayOffset + NS_PER_DAY
      else st.dayOffset;
    State(offset, tod + offset, true)
  }

  class Clock {
    var dayOffset: int
    var prevAbs: int
    var havePrev: bool

    function Value(): State
      reads this
    {
      State(dayOffset, prevAbs, havePrev)
    }

    constructor ()
      ensures Value() == START
    {
      dayOffset, prevAbs, havePrev := 0, 0, false;
    }

    method ApplyRollover(tod: int) returns (abs: int)
      modifies this
      ensures Value() == Next(old(Value()), tod) && abs == Value().prevAbs
    {
      abs := tod + dayOffset;
      if havePrev && abs < prevAbs - NS_PER_DAY / 2 {
        dayOffset := dayOffset + NS_PER_DAY;
        abs := tod + dayOffset;
      }
      prevAbs := abs;
      havePrev := true;
    }

    // Every timestamp of a file, in line order: the true times, from the midnight
    // before the first, exactly when the clock took no step the rule confuses.
    method ApplyAll(tods: seq<int>) returns (out: seq<int>)
      requires Value() == START
      modifies this
      ensures out == Applied(tods)
      ensures forall ts :: TimesOfDay(ts) == tods ==> (out == Since(FirstMidnight(ts), ts) <==> StepsOk(ts))
    {
      out := [];
      for i := 0 to |tods|
        invariant Value() == After(tods[..i]) && out == Applied(tods[..i])
      {
        assert tods[..i+1][..i] == tods[..i];
        var abs := ApplyRollover(tods[i]);
        out := out + [abs];
      }
      assert tods[..|tods|] == tods;
      forall ts | TimesOfDay(ts) == tods ensures out == Since(FirstMidnight(ts), ts) <==> StepsOk(ts) {
        RolloverReconstructsExactlyWhen(ts);
      }
    }
  }

  function After(tods: seq<int>): State {
    if tods == [] then START else Next(After(tods[..|tods|-1]), tods[|tods|-1])
  }

  function Applied(tods: seq<int>): (r: seq<int>)
    ensures |r| == |tods|
  {
    if tods == [] then [] else Applied(tods[..|tods|-1]) + [After(tods).prevAbs]
  }

  // ----- What it reconstructs -----

  function Day(t: int): int {
    t / NS_PER_DAY
  }

  // What strace -tt prints of a true time.
  function TimesOfDay(ts: seq<int>): (r: seq<int>)
    ensures |r| == |ts|
  {
    seq(|ts|, i requires 0 <= i < |ts| => ts[i] % NS_PER_DAY)
  }

  function Since(base: int, ts: seq<int>): (r: seq<int>)
    ensures |r| == |ts|
  {
    seq(|ts|, i requires 0 <= i < |ts| => ts[i] - base)
  }

  // The clock moved within a day by no more than half of one backwards, or into
  // the next day in under half a day.
  predicate StepOk(prev: int, cur: int) {
    || (Day(cur) == Day(prev) && cur >= prev - NS_PER_DAY / 2)
    || (Day(cur) == Day(prev) + 1 && cur - prev < NS_PER_DAY / 2)
  }

  ghost predicate StepsOk(ts: seq<int>) {
    forall i :: 0 < i < |ts| ==> StepOk(ts[i-1], ts[i])
  }

  function FirstMidnight(ts: seq<int>): int {
    if ts == [] then 0 else Day(ts[0]) * NS_PER_DAY
  }

  lemma {:induction false} StepsOkTracks(ts: seq<int>)
    requires ts != [] && StepsOk(ts)
    ensures var last, base := ts[|ts|-1], FirstMidnight(ts);
            After(TimesOfDay(ts)) == State(Day(last) * NS_PER_DAY - base, last - base, true)
    ensures Applied(TimesOfDay(ts)) == Since(FirstMidnight(ts), ts)
  {
    var n := |ts| - 1;
    assert TimesOfDay(ts)[..n] == TimesOfDay(ts[..n]);
    if n > 0 {
      StepsOkTracks(ts[..n]);
      assert StepOk(ts[n-1], ts[n]);
      assert Since(FirstMidnight(ts), ts)[..n] == Since(FirstMidnight(ts[..n]), ts[..n]);
    }
  }

  lemma {:induction false} AppliedPrefix(tods: seq<int>, n: nat)
    requires n <= |tods|
    ensures Applied(tods)[..n] == Applied(tods[..n])
  {
    if n == |tods| {
      assert tods[..n] == tods;
    } else {
      AppliedPrefix(tods[..|tods|-1], n);
      assert tods[..|tods|-1][..n] == tods[..n];
    }
  }

  lemma BadStepIsWrong(ts: seq<int>)
    requires |ts| > 1 && StepsOk(ts[..|ts|-1]) && !StepOk(ts[|ts|-2], ts[|ts|-1])
    ensures Applied(TimesOfDay(ts))[|ts|-1] != ts[|ts|-1] - FirstMidnight(ts)
  {
    var n := |ts| - 1;
    StepsOkTracks(ts[..n]);
    assert TimesOfDay(ts)[..n] == TimesOfDay(ts[..n]);
    assert FirstMidnight(ts) == FirstMidnight(ts[..n]);
  }

  lemma {:induction false} FirstBadStep(ts: seq<int>) returns (n: nat)
    requires !StepsOk(ts)
    ensures 1 < n <= |ts| && StepsOk(ts[..n-1]) && !StepOk(ts[n-2], ts[n-1])
  {
    var front := ts[..|ts|-1];
    if StepsOk(front) {
      n := |ts|;
      var i :| 0 < i < |ts| && !StepOk(ts[i-1], ts[i]);
      assert i < |front| ==> StepOk(front[i-1], front[i]);
    } else {
      n := FirstBadStep(front);
      assert front[..n-1] == ts[..n-1];
    }
  }

  // Feeding only times of day gives back every true time, measured from the
  // midnight before the first, exactly when every step of the clock is one the
  // rule can tell apart: across any number of midnights, and with jitter.
  lemma RolloverReconstructsExactlyWhen(ts: seq<int>)
    ensures Applied(TimesOfDay(ts)) == Since(FirstMidnight(ts), ts) <==> StepsOk(ts)
  {
    if StepsOk(ts) {
      if ts != [] {
        StepsOkTracks(ts);
      }
    } else {
      var n := FirstBadStep(ts);
      assert ts[..n][..n-1] == ts[..n-1];
      BadStepIsWrong(ts[..n]);
      assert TimesOfDay(ts)[..n] == TimesOfDay(ts[..n]);
      AppliedPrefix(TimesOfDay(ts), n);
      assert Applied(TimesOfDay(ts))[n-1] == Applied(TimesOfDay(ts))[..n][n-1];
    }
  }

  // In particular for every forward-moving clock read at least twice a day.
  lemma ForwardClockIsReconstructed(ts: seq<int>)
    requires forall i :: 0 < i < |ts| ==> 0 <= ts[i] - ts[i-1] < 12 * 60 * 60 * 1_000_000_000
    ensures Applied(TimesOfDay(ts)) == Since(FirstMidnight(ts), ts)
  {
    forall i | 0 < i < |ts| ensures StepOk(ts[i-1], ts[i]) {
      assert 0 <= ts[i] - ts[i-1] < NS_PER_DAY / 2;
    }
    RolloverReconstructsExactlyWhen(ts);
  }
}
