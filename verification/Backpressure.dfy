/** The write-latency tracker: a ring of samples, the 99th percentile of the positive ones,
    and a mode machine that climbs after three windows and recovers at once. */
module Backpressure {
  import opened Modular

  datatype Mode = Normal | Throttled | Backoff

  /** One computation: nothing recorded, or the 99th percentile in milliseconds. */
  datatype Window = Empty | P99(ms: int)

  const WINDOWS_TO_TRANSITION: int := 3

  // ------------------------------------------------------------------ sorting

  function Insert(x: int, s: seq<int>): (r: seq<int>)
    ensures |r| == |s| + 1
  {
    if s == [] then [x] else if x <= s[0] then [x] + s else [s[0]] + Insert(x, s[1..])
  }

  /** The samples in ascending order. */
  function Sort(s: seq<int>): (r: seq<int>)
    ensures |r| == |s|
  {
    if s == [] then [] else Insert(s[0], Sort(s[1..]))
  }

  predicate Sorted(s: seq<int>) {
    forall i, j :: 0 <= i < j < |s| ==> s[i] <= s[j]
  }

  function CountAtMost(s: seq<int>, v: int): (n: nat)
    ensures n <= |s|
  {
    if s == [] then 0 else (if s[0] <= v then 1 else 0) + CountAtMost(s[1..], v)
  }

  predicate AllAtLeast(s: seq<int>, lo: int) {
    forall i :: 0 <= i < |s| ==> lo <= s[i]
  }

  lemma {:induction false} InsertKeepsBound(x: int, s: seq<int>, lo: int)
    requires lo <= x && AllAtLeast(s, lo)
    ensures AllAtLeast(Insert(x, s), lo)
  {
    if s == [] || x <= s[0] {
    } else {
      InsertKeepsBound(x, s[1..], lo);
    }
  }

  lemma {:induction false} InsertSorts(x: int, s: seq<int>)
    requires Sorted(s)
    ensures Sorted(Insert(x, s))
  {
    if s == [] || x <= s[0] {
    } else {
      InsertSorts(x, s[1..]);
      InsertKeepsBound(x, s[1..], s[0]);
    }
  }

  lemma {:induction false} SortSorts(s: seq<int>)
    ensures Sorted(Sort(s))
  {
    if s == [] {
    } else {
      SortSorts(s[1..]);
      InsertSorts(s[0], Sort(s[1..]));
    }
  }

  lemma {:induction false} InsertMember(x: int, s: seq<int>, y: int)
    ensures y in Insert(x, s) <==> y == x || y in s
  {
    if s == [] || x <= s[0] {
    } else {
      InsertMember(x, s[1..], y);
      assert s == [s[0]] + s[1..];
    }
  }

  lemma {:induction false} SortMember(s: seq<int>, y: int)
    ensures y in Sort(s) <==> y in s
  {
    if s == [] {
    } else {
      SortMember(s[1..], y);
      InsertMember(s[0], Sort(s[1..]), y);
      assert s == [s[0]] + s[1..];
    }
  }

  lemma {:induction false} InsertCounts(x: int, s: seq<int>, v: int)
    ensures CountAtMost(Insert(x, s), v) == (if x <= v then 1 else 0) + CountAtMost(s, v)
  {
    if s != [] && x > s[0] {
      InsertCounts(x, s[1..], v);
      assert ([s[0]] + Insert(x, s[1..]))[1..] == Insert(x, s[1..]);
    } else {
      assert ([x] + s)[1..] == s;
    }
  }

  lemma {:induction false} SortCounts(s: seq<int>, v: int)
    ensures CountAtMost(Sort(s), v) == CountAtMost(s, v)
  {
    if s == [] {
    } else {
      SortCounts(s[1..], v);
      InsertCounts(s[0], Sort(s[1..]), v);
    }
  }

  lemma {:induction false} InsertsCommute(x: int, y: int, s: seq<int>)
    ensures Insert(x, Insert(y, s)) == Insert(y, Insert(x, s))
  {
    if s == [] {
      assert [x, y][1..] == [y] && [y, x][1..] == [x];
    } else {
      InsertsCommute(x, y, s[1..]);
      assert ([x] + s)[1..] == s && ([y] + s)[1..] == s;
      assert ([s[0]] + Insert(x, s[1..]))[1..] == Insert(x, s[1..]);
      assert ([s[0]] + Insert(y, s[1..]))[1..] == Insert(y, s[1..]);
    }
  }

  lemma {:induction false} SortSnoc(s: seq<int>, x: int)
    ensures Sort(s + [x]) == Insert(x, Sort(s))
  {
    if s == [] {
      assert s + [x] == [x];
    } else {
      assert (s + [x])[1..] == s[1..] + [x];
      SortSnoc(s[1..], x);
      InsertsCommute(s[0], x, Sort(s[1..]));
    }
  }

  /** Where the ring happens to start does not matter. */
  lemma {:induction false} SortIgnoresRotation(a: seq<int>, b: seq<int>)
    ensures Sort(a + b) == Sort(b + a)
    decreases |a|
  {
    if a == [] {
      assert a + b == b && b + a == b;
    } else {
      var h, t := a[0], a[1..];
      SortIgnoresRotation(t, b + [h]);
      SortSnoc(t + b, h);
      assert a + b == [h] + (t + b) && (a + b)[1..] == t + b;
      assert t + (b + [h]) == (t + b) + [h];
      assert (b + [h]) + t == b + a;
    }
  }

  // --------------------------------------------------------------- percentile

  /** ceil(0.99 n) - 1, in exact arithmetic. */
  function Rank(n: nat): (r: nat)
    requires n > 0
    ensures r < n
  {
    (99 * n + 99) / 100 - 1
  }

  function Percentile(s: seq<int>): int
    requires s != []
  {
    Sort(s)[Rank(|s|)]
  }

  lemma {:induction false} SortedRank(t: seq<int>, r: nat)
    requires Sorted(t) && r < |t|
    ensures CountAtMost(t, t[r]) >= r + 1
    ensures CountAtMost(t, t[r] - 1) <= r
  {
    if r == 0 {
      NothingBelow(t, t[0]);
    } else {
      SortedRank(t[1..], r - 1);
    }
  }

  lemma {:induction false} NothingBelow(t: seq<int>, v: int)
    requires forall i :: 0 <= i < |t| ==> v <= t[i]
    ensures CountAtMost(t, v - 1) == 0
  {
    if t == [] {
    } else {
      NothingBelow(t[1..], v);
    }
  }

  lemma {:induction false} CountMonotone(s: seq<int>, u: int, v: int)
    requires u <= v
    ensures CountAtMost(s, u) <= CountAtMost(s, v)
  {
    if s == [] {
    } else {
      CountMonotone(s[1..], u, v);
    }
  }

  /** v is the sample of rank r (counted from 0). */
  predicate HasRank(s: seq<int>, v: int, r: nat) {
    v in s && CountAtMost(s, v - 1) <= r < CountAtMost(s, v)
  }

  lemma SortedIndexHasRank(s: seq<int>, t: seq<int>, r: nat)
    requires t == Sort(s) && r < |t|
    ensures HasRank(s, t[r], r)
  {
    var v := t[r];
    assert v in t;
    assert v in s by { SortMember(s, v); }
    assert CountAtMost(t, v - 1) <= r < CountAtMost(t, v) by {
      SortSorts(s);
      SortedRank(t, r);
    }
    assert CountAtMost(s, v) == CountAtMost(t, v) by { SortCounts(s, v); }
    assert CountAtMost(s, v - 1) == CountAtMost(t, v - 1) by { SortCounts(s, v - 1); }
  }

  lemma RankIsUnique(s: seq<int>, u: int, v: int, r: nat)
    requires HasRank(s, u, r) && HasRank(s, v, r)
    ensures u == v
  {
    if u < v {
      CountMonotone(s, u, v - 1);
    } else if v < u {
      CountMonotone(s, v, u - 1);
    }
  }

  /** ceil(0.99 n), in exact arithmetic. */
  function Share(n: nat): nat {
    (99 * n + 99) / 100
  }

  /** Share is the least count that is at least 99 hundredths of n, */
  lemma ShareIsCeiling(n: nat, m: nat)
    ensures m >= Share(n) <==> 100 * m >= 99 * n
  {
  }

  /** and the rank is the index of the sample of that number. */
  lemma RankIsShare(n: nat)
    requires n > 0
    ensures Rank(n) + 1 == Share(n)
  {
  }

  /** v is a sample with this many samples at or below it, but fewer below it. */
  predicate IsNth(s: seq<int>, v: int, n: nat) {
    v in s && CountAtMost(s, v - 1) < n <= CountAtMost(s, v)
  }

  /** The percentile is a sample; at least ceil(0.99 n) samples are at or below it, fewer than that are
      below it, and at most n/100 are strictly above. */
  lemma PercentileBounds(s: seq<int>)
    requires s != []
    ensures IsNth(s, Percentile(s), Share(|s|))
    ensures |s| - CountAtMost(s, Percentile(s)) <= |s| / 100
  {
    PercentileIsTheRank(s, Percentile(s));
    AboveShare(|s|, CountAtMost(s, Percentile(s)));
  }

  lemma AboveShare(n: nat, m: nat)
    requires m >= Share(n)
    ensures n - m <= n / 100
  {
  }

  /** It is the only sample with ceil(0.99 n) samples at or below it but fewer below it. */
  lemma PercentileIsTheRank(s: seq<int>, v: int)
    requires s != []
    ensures IsNth(s, v, Share(|s|)) <==> v == Percentile(s)
  {
    RankIsShare(|s|);
    SortedIndexHasRank(s, Sort(s), Rank(|s|));
    if HasRank(s, v, Rank(|s|)) {
      RankIsUnique(s, v, Percentile(s), Rank(|s|));
    }
  }

  function Positives(s: seq<int>): seq<int> {
    if s == [] then []
    else
      var front := Positives(s[..|s| - 1]);
      if s[|s| - 1] > 0 then front + [s[|s| - 1]] else front
  }

  lemma {:induction false} PositivesConcat(a: seq<int>, b: seq<int>)
    ensures Positives(a + b) == Positives(a) + Positives(b)
  {
    if b == [] {
      assert a + b == a;
    } else {
      var n := |b| - 1;
      assert (a + b)[..|a + b| - 1] == a + b[..n];
      PositivesConcat(a, b[..n]);
    }
  }

  lemma {:induction false} ZerosAreNotPositive(s: seq<int>)
    requires forall i :: 0 <= i < |s| ==> s[i] == 0
    ensures Positives(s) == []
  {
    if s == [] {
    } else {
      ZerosAreNotPositive(s[..|s| - 1]);
    }
  }

  function WindowOf(samples: seq<int>): Window {
    var buf := Positives(samples);
    if buf == [] then Empty else P99(Percentile(buf))
  }

  /** Exactly the samples above zero are kept, as often as they occur. */
  lemma {:induction false} PositivesAreExact(s: seq<int>, v: int)
    ensures multiset(Positives(s))[v] == if v > 0 then multiset(s)[v] else 0
  {
    if s == [] {
    } else {
      PositivesAreExact(s[..|s| - 1], v);
      assert s == s[..|s| - 1] + [s[|s| - 1]];
    }
  }

  lemma PositiveIsKept(s: seq<int>, v: int)
    ensures v in Positives(s) <==> v > 0 && v in s
  {
    PositivesAreExact(s, v);
    assert v in Positives(s) <==> v in multiset(Positives(s));
    assert v in s <==> v in multiset(s);
  }

  /** A window is empty exactly when no sample is positive; otherwise its value is the one positive
      sample with ceil(0.99 n) of the n positive samples at or below it but fewer below it. */
  lemma WindowIsPercentile(samples: seq<int>, v: int)
    ensures WindowOf(samples).Empty? <==> forall i :: 0 <= i < |samples| ==> samples[i] <= 0
    ensures
      var kept := Positives(samples);
      WindowOf(samples) == P99(v) <==>
      v > 0 && v in samples && IsNth(kept, v, Share(|kept|))
  {
    var kept := Positives(samples);
    PositiveIsKept(samples, v);
    if kept == [] {
      forall i | 0 <= i < |samples| ensures samples[i] <= 0 {
        PositiveIsKept(samples, samples[i]);
      }
    } else {
      PositiveIsKept(samples, kept[0]);
      PercentileIsTheRank(kept, v);
    }
  }

  lemma WindowIgnoresRotation(a: seq<int>, b: seq<int>)
    ensures WindowOf(a + b) == WindowOf(b + a)
  {
    PositivesConcat(a, b);
    PositivesConcat(b, a);
    SortIgnoresRotation(Positives(a), Positives(b));
  }

  // ------------------------------------------------------------- mode machine

  datatype Level = Level(mode: Mode, above0: nat, above1: nat)

  datatype Thresholds = Thresholds(throttled: int, backoff: int)

  /** One evaluation of the thresholds. */
  function Evaluate(th: Thresholds, l: Level, w: Window): Level {
    match w
    case Empty => Level(Normal, 0, 0)
    case P99(p99) =>
      if p99 >= th.backoff then
        Level(if l.above1 + 1 >= WINDOWS_TO_TRANSITION then Backoff else l.mode, l.above0 + 1, l.above1 + 1)
      else if p99 >= th.throttled then
        Level(if l.above0 + 1 >= WINDOWS_TO_TRANSITION then Throttled else l.mode, l.above0 + 1, 0)
      else
        Level(Normal, 0, 0)
  }

  function RunMachine(th: Thresholds, windows: seq<Window>): Level {
    if windows == [] then Level(Normal, 0, 0)
    else Evaluate(th, RunMachine(th, windows[..|windows| - 1]), windows[|windows| - 1])
  }

  /** Length of the latest run of windows at or above a threshold. */
  function RunAtOrAbove(windows: seq<Window>, threshold: int): nat {
    if windows == [] then 0
    else
      var last := windows[|windows| - 1];
      if last.P99? && last.ms >= threshold
      then 1 + RunAtOrAbove(windows[..|windows| - 1], threshold)
      else 0
  }

  /** The lower of the two thresholds, whichever that is. */
  function Lower(th: Thresholds): int {
    if th.throttled <= th.backoff then th.throttled else th.backoff
  }

  /** The mode as a closed form of two run lengths. */
  function ModeOfRuns(a0: nat, a1: nat): Mode {
    if a1 >= WINDOWS_TO_TRANSITION then Backoff
    else if a0 - a1 >= WINDOWS_TO_TRANSITION then Throttled
    else Normal
  }

  /** The level that the latest runs alone determine. */
  function ClosedForm(th: Thresholds, windows: seq<Window>): Level {
    var a0 := RunAtOrAbove(windows, Lower(th));
    var a1 := RunAtOrAbove(windows, th.backoff);
    Level(ModeOfRuns(a0, a1), a0, a1)
  }

  lemma {:induction false} HighRunIsShorter(th: Thresholds, windows: seq<Window>)
    ensures RunAtOrAbove(windows, th.backoff) <= RunAtOrAbove(windows, Lower(th))
  {
    if windows == [] {
    } else {
      HighRunIsShorter(th, windows[..|windows| - 1]);
    }
  }

  lemma ClosedFormStep(th: Thresholds, windows: seq<Window>, w: Window)
    ensures Evaluate(th, ClosedForm(th, windows), w) == ClosedForm(th, windows + [w])
  {
    assert (windows + [w])[..|windows|] == windows;
    HighRunIsShorter(th, windows);
  }

  /** In every run, and for any two thresholds, the stored level is that closed form. */
  lemma {:induction false} ModeIsClosedForm(th: Thresholds, windows: seq<Window>)
    ensures RunMachine(th, windows) == ClosedForm(th, windows)
  {
    if windows == [] {
    } else {
      var front := windows[..|windows| - 1];
      ModeIsClosedForm(th, front);
      ClosedFormStep(th, front, windows[|windows| - 1]);
      assert windows == front + [windows[|windows| - 1]];
    }
  }

  /** The documented rule, "three consecutive windows above a threshold raise the mode", fails:
      a middling window followed by two high ones leaves the mode at Normal. */
  lemma ThreeWindowsMayNotRaise(th: Thresholds, mid: int, high: int)
    requires th.throttled <= mid < th.backoff <= high
    ensures RunAtOrAbove([P99(mid), P99(high), P99(high)], th.throttled) == 3
    ensures RunMachine(th, [P99(mid), P99(high), P99(high)]).mode == Normal
  {
    var ws := [P99(mid), P99(high), P99(high)];
    assert ws[..2] == [P99(mid), P99(high)] && ws[..2][..1] == [P99(mid)] && ws[..2][..1][..0] == [];
    assert RunMachine(th, ws[..2][..1]) == Level(Normal, 1, 0);
    assert RunMachine(th, ws[..2]) == Level(Normal, 2, 1);
    assert RunAtOrAbove(ws[..2][..1], th.throttled) == 1;
    assert RunAtOrAbove(ws[..2], th.throttled) == 2;
  }

  /** Exactly when it fails: the run above the lower threshold has one or two middling windows
      left before a tail of one or two high ones. */
  lemma ThreeWindowsRaiseIff(th: Thresholds, windows: seq<Window>)
    requires RunAtOrAbove(windows, Lower(th)) >= WINDOWS_TO_TRANSITION
    ensures
      var a0 := RunAtOrAbove(windows, Lower(th));
      var a1 := RunAtOrAbove(windows, th.backoff);
      RunMachine(th, windows).mode != Normal <==> a1 >= 3 || a0 >= a1 + 3
  {
    ModeIsClosedForm(th, windows);
  }

  /** Recovery is immediate: one window below both thresholds, or an empty one, resets everything. */
  lemma RecoveryIsImmediate(th: Thresholds, windows: seq<Window>, w: Window)
    requires w.P99? ==> w.ms < th.throttled && w.ms < th.backoff
    ensures RunMachine(th, windows + [w]) == Level(Normal, 0, 0)
  {
  }

  // ------------------------------------------------------------------ tracker

  function Latest(s: seq<int>, n: nat): seq<int> {
    if |s| <= n then s else s[|s| - n..]
  }

  /** A ring whose next slot is k: while filling, what was recorded and then zeros;
      once full, read from k on, the latest entries recorded. */
  predicate RingHolds(ring: seq<int>, k: nat, recorded: seq<int>) {
    && k < |ring|
    && if |recorded| < |ring|
       then k == |recorded| && ring[..k] == recorded && forall i :: k <= i < |ring| ==> ring[i] == 0
       else ring[k..] + ring[..k] == recorded[|recorded| - |ring|..]
  }

  lemma RingRecords(ring: seq<int>, k: nat, recorded: seq<int>, ms: int)
    requires RingHolds(ring, k, recorded)
    ensures RingHolds(ring[k := ms], NextResidue(k, |ring|), recorded + [ms])
  {
  }

  /** The window the ring yields is that of the latest recorded latencies. */
  lemma RingWindow(ring: seq<int>, k: nat, recorded: seq<int>)
    requires RingHolds(ring, k, recorded)
    ensures WindowOf(ring) == WindowOf(Latest(recorded, |ring|))
  {
    assert ring == ring[..k] + ring[k..];
    if |recorded| < |ring| {
      PositivesConcat(ring[..k], ring[k..]);
      ZerosAreNotPositive(ring[k..]);
      assert Positives(ring) == Positives(recorded);
    } else {
      WindowIgnoresRotation(ring[..k], ring[k..]);
      assert ring[k..] + ring[..k] == Latest(recorded, |ring|);
    }
  }

  class Tracker {
    const samples: array<int>
    const size: nat
    var pos: nat
    var p99: int
    var mode: Mode
    const thresholds: Thresholds
    var above0: nat
    var above1: nat
    /** Every latency recorded and every window computed so far. */
    ghost var recorded: seq<int>
    ghost var windows: seq<Window>

    ghost predicate Valid()
      reads this, samples
    {
      && samples.Length == size
      && pos == |recorded|
      && size > 0
      && RingHolds(samples[..], pos % size, recorded)
      && Level(mode, above0, above1) == ClosedForm(thresholds, windows)
    }

    constructor (size: nat, throttledMs: int, backoffMs: int)
      requires size > 0
      ensures Valid() && fresh(samples)
      ensures this.size == size && thresholds == Thresholds(throttledMs, backoffMs)
      ensures recorded == [] && windows == []
    {
      samples := new int[size](_ => 0);
      this.size := size;
      thresholds := Thresholds(throttledMs, backoffMs);
      pos, p99, mode, above0, above1 := 0, 0, Normal, 0, 0;
      recorded, windows := [], [];
    }

    method Record(ms: int)
      requires Valid()
      modifies this`pos, this`recorded, samples
      ensures Valid()
      ensures recorded == old(recorded) + [ms]
    {
      RingRecords(samples[..], pos % size, recorded, ms);
      ModSuccessor(pos, size);
      ghost var before := samples[..];
      var idx := pos;
      pos := pos + 1;
      samples[idx % size] := ms;
      recorded := recorded + [ms];
      assert samples[..] == before[idx % size := ms];
    }

    /** The copy loop: the positive samples in slot order. */
    method CopyPositives() returns (buf: seq<int>)
      requires Valid()
      ensures buf == Positives(samples[..])
    {
      buf := [];
      for i := 0 to size
        invariant buf == Positives(samples[..i])
      {
        assert samples[..i + 1][..i] == samples[..i];
        if samples[i] > 0 {
          buf := buf + [samples[i]];
        }
      }
      assert samples[..size] == samples[..];
    }

    /** Sorts the samples and picks one by its index. */
    method NearestRank(buf: seq<int>) returns (v: int)
      requires buf != []
      ensures v == Percentile(buf)
    {
      var sorted := Sort(buf);
      var idx := (99 * |buf| + 99) / 100 - 1;
      if idx < 0 {
        idx := 0;
      }
      v := sorted[idx];
    }

    /** Adds the window of the latest latencies; the level stays the closed form of all windows. */
    method ComputeP99()
      requires Valid()
      modifies this`p99, this`mode, this`above0, this`above1, this`windows
      ensures Valid()
      ensures windows == old(windows) + [WindowOf(Latest(recorded, size))]
      ensures p99 == (var w := WindowOf(Latest(recorded, size)); if w.P99? then w.ms else 0)
    {
      var buf := CopyPositives();
      RingWindow(samples[..], pos % size, recorded);
      ghost var w := WindowOf(Latest(recorded, size));
      ClosedFormStep(thresholds, windows, w);
      windows := windows + [w];

      if |buf| == 0 {
        p99 := 0;
        mode := Normal;
        above0, above1 := 0, 0;
        return;
      }
      p99 := NearestRank(buf);
      assert w == P99(p99);
      UpdateMode(w);
    }

    /** The threshold branches. */
    method UpdateMode(ghost w: Window)
      requires w == P99(p99)
      modifies this`mode, this`above0, this`above1
      ensures Level(mode, above0, above1) == Evaluate(thresholds, old(Level(mode, above0, above1)), w)
    {
      if p99 >= thresholds.backoff {
        above1 := above1 + 1;
        above0 := above0 + 1;
        if above1 >= WINDOWS_TO_TRANSITION {
          mode := Backoff;
          return;
        }
      } else if p99 >= thresholds.throttled {
        above0 := above0 + 1;
        above1 := 0;
        if above0 >= WINDOWS_TO_TRANSITION {
          mode := Throttled;
          return;
        }
      } else {
        above0, above1 := 0, 0;
        mode := Normal;
        return;
      }
    }
  }
}
