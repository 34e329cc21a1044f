// The order-statistic interval on a median (pkg/results/trials.go:169-204), with
// exact binomial sums in place of log-gamma.
module MedianInterval {

  function Pow2(n: nat): nat {
    if n == 0 then 1 else 2 * Pow2(n - 1)
  }

  function Choose(n: nat, k: int): nat {
    if k < 0 || k > n then 0
    else if n == 0 then 1
    else Choose(n - 1, k - 1) + Choose(n - 1, k)
  }

  // The number of below/above patterns of n values with fewer than k below.
  function Tail(n: nat, k: nat): nat {
    if k == 0 then 0 else Tail(n, k - 1) + Choose(n, k - 1)
  }

  // P(X < k) <= 0.025 for X ~ Binomial(n, 1/2).
  predicate Admissible(n: nat, k: nat) {
    40 * Tail(n, k) <= Pow2(n)
  }

  // ----- Binomial sums -----

  lemma {:induction false} ChooseSymmetric(n: nat, k: int)
    ensures Choose(n, k) == Choose(n, n - k)
  {
    if 0 <= k <= n && n > 0 {
      ChooseSymmetric(n - 1, k - 1);
      ChooseSymmetric(n - 1, k);
    }
  }

  lemma Pascal(n: nat, k: int)
    requires n > 0
    ensures Choose(n, k) == Choose(n - 1, k - 1) + Choose(n - 1, k)
  {
  }

  lemma {:induction false} TailPascal(n: nat, k: nat)
    requires n > 0 && k > 0
    ensures Tail(n, k) == Tail(n - 1, k) + Tail(n - 1, k - 1)
  {
    Pascal(n, k - 1);
    hide Choose;
    if k > 1 {
      TailPascal(n, k - 1);
    } else {
      NoneNegative(n - 1);
    }
  }

  lemma NoneNegative(n: nat)
    ensures Choose(n, -1) == 0
  {
  }

  lemma {:induction false} WholeRow(n: nat)
    ensures Tail(n, n + 1) == Pow2(n)
  {
    if n > 0 {
      WholeRow(n - 1);
      TailPascal(n, n + 1);
    }
  }

  lemma {:induction false} TailsComplement(n: nat, k: nat)
    requires k <= n + 1
    ensures Tail(n, k) + Tail(n, n + 1 - k) == Pow2(n)
  {
    if k == 0 {
      WholeRow(n);
    } else {
      TailsComplement(n, k - 1);
      ChooseSymmetric(n, k - 1);
    }
  }

  lemma {:induction false} TailGrows(n: nat, k: nat, m: nat)
    requires k <= m
    ensures Tail(n, k) <= Tail(n, m)
    decreases m
  {
    if k < m {
      TailGrows(n, k, m - 1);
    }
  }

  lemma {:induction false} Pow2AtLeast(n: nat)
    requires n >= 6
    ensures Pow2(n) >= 64
  {
    if n > 6 {
      Pow2AtLeast(n - 1);
    } else {
      assert Pow2(2) == 4;
      assert Pow2(4) == 16;
    }
  }

  lemma {:induction false} Pow2AtMost(n: nat)
    requires n < 6
    ensures 1 <= Pow2(n) <= 32
  {
    if n > 0 {
      Pow2AtMost(n - 1);
      assert n == 5 ==> Pow2(4) == 16;
    }
    assert Pow2(2) == 4 && Pow2(4) == 16;
  }

  lemma OneBelow(n: nat)
    ensures Tail(n, 0) == 0 && Tail(n, 1) == 1
  {
    ChooseSymmetric(n, 0);
    OnlyOne(n);
  }

  lemma {:induction false} OnlyOne(n: nat)
    ensures Choose(n, 0) == 1
  {
    if n > 0 {
      OnlyOne(n - 1);
    }
  }

  // An admissible index stays below the middle of the sample.
  lemma AdmissibleIsLow(n: nat, k: nat)
    requires Admissible(n, k)
    ensures 2 * k < n + 1
  {
    if 2 * k >= n + 1 {
      if k <= n + 1 {
        TailsComplement(n, k);
        TailGrows(n, n + 1 - k, k);
      } else {
        WholeRow(n);
        TailGrows(n, n + 1, k);
      }
      PowerIsPositive(n);
    }
  }

  lemma {:induction false} PowerIsPositive(n: nat)
    ensures Pow2(n) > 0
  {
    if n > 0 {
      PowerIsPositive(n - 1);
    }
  }

  lemma AdmissibleBelow(n: nat, k: nat, m: nat)
    requires k <= m && Admissible(n, m)
    ensures Admissible(n, k)
  {
    TailGrows(n, k, m);
  }

  // ----- The bounds -----

  // The indexes into the sorted sample, when some index is admissible: the
  // largest admissible one and its mirror image.
  method MedianCIBounds(n: nat) returns (lo: int, hi: int, ok: bool)
    ensures ok <==> n >= 6
    ensures ok <==> Admissible(n, 1)
    ensures ok ==> 0 <= lo < hi == n - 1 - lo < n
    ensures ok ==> forall k: nat :: Admissible(n, k) <==> k <= lo + 1
  {
    OneBelow(n);
    if n < 6 {
      Pow2AtMost(n);
      return 0, 0, false;
    }
    Pow2AtLeast(n);
    var cum := 0;
    var best := -1;
    var i := 0;
    assert Admissible(n, 1);
    while i < n
      invariant 0 <= i <= n
      invariant cum == Tail(n, i)
      invariant Admissible(n, i)
      invariant best == if i == 0 then -1 else i
      decreases n - i
    {
      cum := cum + Choose(n, i);
      if 40 * cum > Pow2(n) {
        break;
      }
      best := i + 1;
      i := i + 1;
    }
    if i == n {
      AdmissibleIsLow(n, n);
    }
    AdmissibleIsLow(n, i);
    forall k: nat ensures Admissible(n, k) <==> k <= i {
      if k <= i {
        AdmissibleBelow(n, k, i);
      } else if Admissible(n, k) {
        AdmissibleBelow(n, i + 1, k);
      }
    }
    if best < 1 {
      return 0, 0, false;
    }
    return best - 1, n - best, true;
  }

  // ----- What the tail counts -----

  // Which of the n values fall below the median: each pattern is equally likely.
  type Pattern = seq<bool>

  function NumBelow(p: Pattern): nat {
    if p == [] then 0 else NumBelow(p[..|p|-1]) + if p[|p|-1] then 1 else 0
  }

  function Extended(s: set<Pattern>, b: bool): set<Pattern> {
    set p <- s :: p + [b]
  }

  // Patterns of length n with exactly k below.
  function Exactly(n: nat, k: int): set<Pattern> {
    if k < 0 || k > n then {}
    else if n == 0 then {[]}
    else Extended(Exactly(n - 1, k - 1), true) + Extended(Exactly(n - 1, k), false)
  }

  lemma ExtendedMembers(s: set<Pattern>, b: bool, p: Pattern)
    ensures p in Extended(s, b) <==> |p| > 0 && p[|p|-1] == b && p[..|p|-1] in s
  {
    if |p| > 0 {
      assert p == p[..|p|-1] + [p[|p|-1]];
    }
    assert forall q: Pattern :: (q + [b])[..|q|] == q;
  }

  lemma {:induction false} ExactlyMembers(n: nat, k: int, p: Pattern)
    ensures p in Exactly(n, k) <==> |p| == n && NumBelow(p) == k
  {
    hide Extended;
    BelowIsBounded(p);
    if 0 <= k <= n && n > 0 {
      ExtendedMembers(Exactly(n - 1, k - 1), true, p);
      ExtendedMembers(Exactly(n - 1, k), false, p);
      if |p| > 0 {
        ExactlyMembers(n - 1, k - 1, p[..|p|-1]);
        ExactlyMembers(n - 1, k, p[..|p|-1]);
      }
    }
  }

  lemma {:induction false} BelowIsBounded(p: Pattern)
    ensures NumBelow(p) <= |p|
  {
    if p != [] {
      BelowIsBounded(p[..|p|-1]);
    }
  }

  lemma {:induction false} ExtendedSize(s: set<Pattern>, b: bool)
    ensures |Extended(s, b)| == |s|
  {
    if s == {} {
      assert Extended(s, b) == {};
    } else {
      var p :| p in s;
      var rest := s - {p};
      ExtendedSize(rest, b);
      ExtendedMembers(rest, b, p + [b]);
      assert (p + [b])[..|p|] == p;
      assert Extended(s, b) == Extended(rest, b) + {p + [b]};
    }
  }

  lemma ExtendedApart(s: set<Pattern>, t: set<Pattern>)
    ensures Extended(s, true) !! Extended(t, false)
  {
    forall p | p in Extended(s, true) ensures p !in Extended(t, false) {
      ExtendedMembers(s, true, p);
      ExtendedMembers(t, false, p);
    }
  }

  lemma {:induction false} ExactlySize(n: nat, k: int)
    ensures |Exactly(n, k)| == Choose(n, k)
  {
    hide Extended;
    if 0 <= k <= n && n > 0 {
      ExactlySize(n - 1, k - 1);
      ExactlySize(n - 1, k);
      ExtendedSize(Exactly(n - 1, k - 1), true);
      ExtendedSize(Exactly(n - 1, k), false);
      ExtendedApart(Exactly(n - 1, k - 1), Exactly(n - 1, k));
    }
  }

  function Fewer(n: nat, k: nat): set<Pattern> {
    if k == 0 then {} else Fewer(n, k - 1) + Exactly(n, k - 1)
  }

  lemma {:induction false} FewerMembers(n: nat, k: nat, p: Pattern)
    ensures p in Fewer(n, k) <==> |p| == n && NumBelow(p) < k
  {
    if k > 0 {
      FewerMembers(n, k - 1, p);
      ExactlyMembers(n, k - 1, p);
    }
  }

  lemma FewerApart(n: nat, k: nat, few: set<Pattern>, exact: set<Pattern>)
    requires few == Fewer(n, k) && exact == Exactly(n, k)
    ensures few !! exact
  {
    hide Fewer, Exactly;
    forall p | p in few ensures p !in exact {
      FewerMembers(n, k, p);
      ExactlyMembers(n, k, p);
    }
  }

  lemma {:induction false} FewerSize(n: nat, k: nat)
    ensures |Fewer(n, k)| == Tail(n, k)
  {
    hide Exactly, Choose;
    if k > 0 {
      FewerSize(n, k - 1);
      ExactlySize(n, k - 1);
      FewerApart(n, k - 1, Fewer(n, k - 1), Exactly(n, k - 1));
    }
  }

  // ----- Coverage -----

  function AllPatterns(n: nat): set<Pattern> {
    Fewer(n, n + 1)
  }

  // The interval from the k-th smallest to the k-th largest misses the median.
  predicate MissesMedian(p: Pattern, k: nat) {
    NumBelow(p) < k || |p| - NumBelow(p) < k
  }

  function Missing(n: nat, k: nat): set<Pattern> {
    set p | p in AllPatterns(n) && MissesMedian(p, k)
  }

  lemma AllPatternsAre(n: nat)
    ensures |AllPatterns(n)| == Pow2(n)
    ensures forall p :: p in AllPatterns(n) <==> |p| == n
  {
    FewerSize(n, n + 1);
    WholeRow(n);
    forall p ensures p in AllPatterns(n) <==> |p| == n {
      FewerMembers(n, n + 1, p);
      BelowIsBounded(p);
    }
  }

  lemma SetSizes(all: set<Pattern>, a: set<Pattern>, b: set<Pattern>)
    requires b <= all
    ensures |a + (all - b)| <= |a| + |all| - |b|
  {
    assert |all - b| == |all| - |b|;
    assert a + (all - b) == a + ((all - b) - a);
  }

  // Too few below, or all but too many below.
  lemma MissingIs(n: nat, k: nat)
    requires k <= n + 1
    ensures Fewer(n, n + 1 - k) <= AllPatterns(n)
    ensures Missing(n, k) == Fewer(n, k) + (AllPatterns(n) - Fewer(n, n + 1 - k))
  {
    hide AllPatterns, Fewer, NumBelow;
    AllPatternsAre(n);
    forall p: Pattern
      ensures p in Fewer(n, n + 1 - k) ==> p in AllPatterns(n)
      ensures p in Missing(n, k) <==> p in Fewer(n, k) + (AllPatterns(n) - Fewer(n, n + 1 - k))
    {
      FewerMembers(n, k, p);
      FewerMembers(n, n + 1 - k, p);
    }
  }

  lemma MissingSize(n: nat, k: nat)
    requires k <= n + 1
    ensures |Missing(n, k)| <= 2 * Tail(n, k)
    ensures |AllPatterns(n)| == Pow2(n)
  {
    hide AllPatterns, Fewer, Missing, Tail, Pow2;
    AllPatternsAre(n);
    MissingIs(n, k);
    FewerSize(n, k);
    FewerSize(n, n + 1 - k);
    TailsComplement(n, k);
    SetSizes(AllPatterns(n), Fewer(n, k), Fewer(n, n + 1 - k));
  }

  // At most one pattern in twenty leaves the median outside an admissible
  // interval.
  lemma AdmissibleCovers(n: nat, k: nat)
    requires Admissible(n, k)
    ensures 20 * |Missing(n, k)| <= |AllPatterns(n)|
  {
    hide AllPatterns, Missing, Tail, Pow2;
    AdmissibleIsLow(n, k);
    MissingSize(n, k);
  }

  // ----- The sorted sample -----

  function PatternOf(sample: seq<real>, median: real): (p: Pattern)
    ensures |p| == |sample| && forall i :: 0 <= i < |p| ==> p[i] == (sample[i] < median)
  {
    seq(|sample|, i requires 0 <= i < |sample| => sample[i] < median)
  }

  function CountIf(xs: seq<real>, f: real -> bool): nat {
    if xs == [] then 0 else CountIf(xs[..|xs|-1], f) + if f(xs[|xs|-1]) then 1 else 0
  }

  function CountBelow(xs: seq<real>, median: real): nat {
    CountIf(xs, (x: real) => x < median)
  }

  function CountAbove(xs: seq<real>, median: real): nat {
    CountIf(xs, (x: real) => x > median)
  }

  lemma {:induction false} CountAppend(a: seq<real>, b: seq<real>, f: real -> bool)
    ensures CountIf(a + b, f) == CountIf(a, f) + CountIf(b, f)
  {
    if b == [] {
      assert a + b == a;
    } else {
      assert (a + b)[..|a + b|-1] == a + b[..|b|-1];
      CountAppend(a, b[..|b|-1], f);
    }
  }

  lemma CountOne(x: real, f: real -> bool)
    ensures CountIf([x], f) == if f(x) then 1 else 0
  {
    assert [x][..0] == [];
  }

  // Taking out one element takes out its share of the count.
  lemma CountWithout(b: seq<real>, i: nat, f: real -> bool)
    requires i < |b|
    ensures CountIf(b, f) == CountIf(b[..i] + b[i+1..], f) + if f(b[i]) then 1 else 0
    ensures multiset(b[..i] + b[i+1..]) == multiset(b) - multiset{b[i]}
  {
    hide CountIf;
    assert b == b[..i] + [b[i]] + b[i+1..];
    CountAppend(b[..i], b[i+1..], f);
    CountAppend(b[..i] + [b[i]], b[i+1..], f);
    CountAppend(b[..i], [b[i]], f);
    CountOne(b[i], f);
  }

  lemma {:induction false} PermutationCounts(a: seq<real>, b: seq<real>, f: real -> bool)
    requires multiset(a) == multiset(b)
    ensures CountIf(a, f) == CountIf(b, f) && |a| == |b|
  {
    hide CountIf;
    assert |a| == |multiset(a)| == |multiset(b)| == |b|;
    if a != [] {
      assert a[0] in multiset(b);
      var i :| 0 <= i < |b| && b[i] == a[0];
      CountWithout(a, 0, f);
      CountWithout(b, i, f);
      PermutationCounts(a[..0] + a[1..], b[..i] + b[i+1..], f);
    } else {
      assert b == a;
    }
  }

  ghost predicate Sorted(xs: seq<real>) {
    forall i, j :: 0 <= i < j < |xs| ==> xs[i] <= xs[j]
  }

  lemma {:induction false} BelowComeFirst(sorted: seq<real>, median: real, i: nat)
    requires Sorted(sorted) && i < |sorted|
    ensures sorted[i] < median <==> i < CountBelow(sorted, median)
  {
    var n := |sorted| - 1;
    var front := sorted[..n];
    if i < n {
      BelowComeFirst(front, median, i);
    } else if sorted[n] < median {
      AllBelow(front, median);
    } else {
      CountIsBounded(front, median);
    }
  }

  lemma {:induction false} AllBelow(xs: seq<real>, median: real)
    requires forall i :: 0 <= i < |xs| ==> xs[i] < median
    ensures CountBelow(xs, median) == |xs|
  {
    if xs != [] {
      AllBelow(xs[..|xs|-1], median);
    }
  }

  lemma {:induction false} CountIsBounded(xs: seq<real>, median: real)
    ensures CountBelow(xs, median) <= |xs|
  {
    if xs != [] {
      CountIsBounded(xs[..|xs|-1], median);
    }
  }

  lemma {:induction false} AboveComeLast(sorted: seq<real>, median: real, i: nat)
    requires Sorted(sorted) && i < |sorted|
    ensures sorted[i] > median <==> i >= |sorted| - CountAbove(sorted, median)
  {
    var n := |sorted| - 1;
    var front := sorted[..n];
    if i < n {
      AboveComeLast(front, median, i);
      if sorted[n] <= median {
        NoneAbove(front, median);
      }
    } else if sorted[n] <= median {
      NoneAbove(front, median);
    }
  }

  lemma {:induction false} NoneAbove(xs: seq<real>, median: real)
    requires forall i :: 0 <= i < |xs| ==> xs[i] <= median
    ensures CountAbove(xs, median) == 0
  {
    if xs != [] {
      NoneAbove(xs[..|xs|-1], median);
    }
  }

  // A pattern the sample may stand for: values equal to the median fall on either
  // side of it.
  ghost predicate Consistent(p: Pattern, sample: seq<real>, median: real) {
    |p| == |sample| && forall i :: 0 <= i < |p| ==> (sample[i] < median ==> p[i]) && (sample[i] > median ==> !p[i])
  }

  lemma {:induction false} ConsistentCounts(p: Pattern, sample: seq<real>, median: real)
    requires Consistent(p, sample, median)
    ensures CountBelow(sample, median) <= NumBelow(p) <= |sample| - CountAbove(sample, median)
  {
    if p != [] {
      ConsistentCounts(p[..|p|-1], sample[..|p|-1], median);
    }
  }

  // Every count between the two extremes is some consistent pattern's.
  lemma {:induction false} PatternWith(sample: seq<real>, median: real, below: nat) returns (p: Pattern)
    requires CountBelow(sample, median) <= below <= |sample| - CountAbove(sample, median)
    ensures Consistent(p, sample, median) && NumBelow(p) == below
  {
    if sample == [] {
      p := [];
    } else {
      var front, last := sample[..|sample|-1], sample[|sample|-1];
      SidesApart(front, median);
      var side := last < median || (last == median && below > CountBelow(front, median));
      var q := PatternWith(front, median, if side then below - 1 else below);
      p := q + [side];
      assert p[..|q|] == q;
    }
  }

  lemma {:induction false} SidesApart(xs: seq<real>, median: real)
    ensures CountBelow(xs, median) + CountAbove(xs, median) <= |xs|
  {
    if xs != [] {
      SidesApart(xs[..|xs|-1], median);
    }
  }

  // The closed interval from the k-th smallest to the k-th largest contains the
  // median exactly when neither side of it holds too many values.
  lemma IntervalCoversByCounts(sample: seq<real>, sorted: seq<real>, median: real, k: nat)
    requires multiset(sample) == multiset(sorted) && Sorted(sorted)
    requires 0 < k && 2 * k < |sample| + 1 && |sorted| == |sample|
    ensures sorted[k - 1] <= median <= sorted[|sorted| - k] <==>
              CountBelow(sample, median) <= |sample| - k && CountAbove(sample, median) <= |sample| - k
  {
    PermutationCounts(sample, sorted, (x: real) => x < median);
    PermutationCounts(sample, sorted, (x: real) => x > median);
    BelowComeFirst(sorted, median, |sorted| - k);
    AboveComeLast(sorted, median, k - 1);
  }

  // The reported interval contains the median exactly when some pattern the
  // sample may stand for is not one of the missing ones.
  lemma IntervalCoversExactlyWhen(sample: seq<real>, sorted: seq<real>, median: real, k: nat)
    requires multiset(sample) == multiset(sorted) && Sorted(sorted)
    requires 0 < k && 2 * k < |sample| + 1 && |sorted| == |sample|
    ensures sorted[k - 1] <= median <= sorted[|sorted| - k] <==>
              exists p :: Consistent(p, sample, median) && p !in Missing(|sample|, k)
  {
    var n := |sample|;
    IntervalCoversByCounts(sample, sorted, median, k);
    AllPatternsAre(n);
    SidesApart(sample, median);
    var below, above := CountBelow(sample, median), CountAbove(sample, median);
    hide CountBelow, CountAbove, AllPatterns, Sorted;
    if p :| Consistent(p, sample, median) && p !in Missing(n, k) {
      ConsistentCounts(p, sample, median);
    }
    if below <= n - k && above <= n - k {
      var p := PatternWith(sample, median, if below < k then k else below);
    }
  }

  // A sample without the median itself stands for one pattern only.
  lemma UntiedIntervalCovers(sample: seq<real>, sorted: seq<real>, median: real, k: nat)
    requires multiset(sample) == multiset(sorted) && Sorted(sorted) && median !in sample
    requires 0 < k && 2 * k < |sample| + 1 && |sorted| == |sample|
    ensures forall p :: Consistent(p, sample, median) <==> p == PatternOf(sample, median)
    ensures sorted[k - 1] < median < sorted[|sorted| - k] <==> PatternOf(sample, median) !in Missing(|sample|, k)
  {
    IntervalCoversExactlyWhen(sample, sorted, median, k);
    assert sorted[k - 1] in multiset(sample) && sorted[|sorted| - k] in multiset(sample);
    forall p ensures Consistent(p, sample, median) <==> p == PatternOf(sample, median) {
      assert forall i :: 0 <= i < |sample| ==> sample[i] in sample;
    }
    hide Missing;
  }
}
