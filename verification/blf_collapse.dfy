/**
 * Run collapse: `add_time_columns` (BLFSummary.py:29-49).
 *
 * Each maximal run of rows whose state equals the state of the run's first row
 * becomes one interval that keeps the first row's Start Time, state and
 * voltage; its End Time is the Start Time of the run's LAST row, so two
 * consecutive intervals do not meet.
 */
module BlfCollapse {
  import opened BlfModel

  /** A row as `add_time_columns` first sees it: End Time = Start Time, Duration = 0. */
  function Initial(s: Sample): Interval {
    Interval(s.time, s.time, 0, s.state, s.voltage)
  }

  /** The interval a run from `first` to `last` becomes. */
  function CloseRun(first: Sample, last: Sample): Interval {
    Interval(first.time, last.time, last.time - first.time, first.state, first.voltage)
  }

  /** Reference definition: one forward pass that remembers the first and the latest
      sample of the current run. */
  function RunsFrom(first: Sample, last: Sample, rest: seq<Sample>): seq<Interval>
    decreases |rest|
  {
    if rest == [] then [CloseRun(first, last)]
    else if SameState(rest[0].state, first.state) then RunsFrom(first, rest[0], rest[1..])
    else [CloseRun(first, last)] + RunsFrom(rest[0], rest[0], rest[1..])
  }

  function Runs(samples: seq<Sample>): seq<Interval> {
    if samples == [] then [] else RunsFrom(samples[0], samples[0], samples[1..])
  }

  /** The state column of a sequence of samples. */
  function States(s: seq<Sample>): seq<State> {
    if s == [] then [] else [s[0].state] + States(s[1..])
  }

  /** The state column of a sequence of intervals. */
  function IntervalStates(s: seq<Interval>): seq<State> {
    if s == [] then [] else [s[0].state] + IntervalStates(s[1..])
  }

  /** A state sequence with every element that equals its predecessor removed. */
  function DropRepeats(xs: seq<State>): seq<State> {
    if |xs| <= 1 then xs
    else if SameState(xs[0], xs[1]) then DropRepeats(xs[1..])
    else [xs[0]] + DropRepeats(xs[1..])
  }

  function CountAbsent(xs: seq<State>): nat {
    if xs == [] then 0 else (if xs[0].Absent? then 1 else 0) + CountAbsent(xs[1..])
  }

  /** The table before the loop of `add_time_columns`: one row per sample. */
  function Initials(s: seq<Sample>): seq<Interval> {
    seq(|s|, k requires 0 <= k < |s| => Initial(s[k]))
  }

  /** The loop invariant of `add_time_columns`: rows before `i` are finished
      intervals, row `i` holds the run of samples[p..q], and the rows after it
      are still the untouched samples[q..]. */
  ghost predicate Folding(samples: seq<Sample>, df: seq<Interval>, i: nat, p: nat, q: nat) {
    p < q <= |samples| && i < |df| &&
    df[i] == CloseRun(samples[p], samples[q - 1]) &&
    df[i + 1..] == Initials(samples[q..]) &&
    Runs(samples) == df[..i] + RunsFrom(samples[p], samples[q - 1], samples[q..])
  }

  /** `add_time_columns`, on the table it rewrites: `i` walks the table, a run
      starting at `i` is folded into row `i` and its other rows are dropped. */
  method AddTimeColumns(samples: seq<Sample>) returns (df: seq<Interval>)
    ensures df == Runs(samples)
  {
    df := Initials(samples);
    var i := 0;
    ghost var p: nat, q: nat := 0, 1;
    if |samples| > 0 {
      FoldStart(samples);
    }
    while i < |df| - 1
      invariant |samples| == 0 ==> df == [] && i == 0
      invariant |samples| > 0 ==> Folding(samples, df, i, p, q)
      decreases |df| - i
    {
      if SameState(df[i].state, df[i + 1].state) {
        var startTime := df[i].start;
        var j := RunEnd(df, i);
        var endTime := df[j - 1].start;
        var df' := df[..i] + [df[i].(end := endTime, duration := endTime - startTime)] + df[j..];
        FoldRun(samples, df, df', i, p, q, j);
        df := df';
        q := q + (j - i - 1);
      } else {
        CloseRow(samples, df, i, p, q);
        i := i + 1;
        p, q := q, q + 1;
      }
    }
    if |samples| > 0 {
      FoldDone(samples, df, i, p, q);
    }
  }

  /** Before the loop every sample is its own row, and row 0 holds the run samples[0..1]. */
  lemma FoldStart(samples: seq<Sample>)
    requires |samples| > 0
    ensures Folding(samples, Initials(samples), 0, 0, 1)
  {
    assert Initials(samples)[1..] == Initials(samples[1..]);
  }

  /** When `i` reaches the last row, the table is the reference result. */
  lemma FoldDone(samples: seq<Sample>, df: seq<Interval>, i: nat, p: nat, q: nat)
    requires Folding(samples, df, i, p, q)
    requires i == |df| - 1
    ensures df == Runs(samples)
  {
    assert samples[q..] == [];
    assert df == df[..i] + [df[i]];
  }

  /** The inner loop of `add_time_columns`: the first row after `i` whose state
      differs from row i's (or the table's length). */
  method RunEnd(df: seq<Interval>, i: nat) returns (j: nat)
    requires i + 1 < |df| && SameState(df[i].state, df[i + 1].state)
    ensures i + 1 < j <= |df|
    ensures forall k :: i < k < j ==> SameState(df[k].state, df[i].state)
    ensures j < |df| ==> !SameState(df[j].state, df[i].state)
  {
    var state := df[i].state;
    j := i + 1;
    while j < |df| && SameState(df[j].state, state)
      invariant i + 1 <= j <= |df|
      invariant forall k :: i < k < j ==> SameState(df[k].state, state)
    {
      j := j + 1;
    }
  }

  /** The branch of `add_time_columns` that folds rows i+1..j-1 into row i. */
  lemma FoldRun(samples: seq<Sample>, df: seq<Interval>, df': seq<Interval>, i: nat, p: nat, q: nat, j: nat)
    requires Folding(samples, df, i, p, q)
    requires i + 1 < j <= |df|
    requires forall k :: i < k < j ==> SameState(df[k].state, df[i].state)
    requires df' == df[..i] + [df[i].(end := df[j - 1].start, duration := df[j - 1].start - df[i].start)] + df[j..]
    ensures Folding(samples, df', i, p, q + (j - i - 1))
  {
    var n := j - i - 1;
    var rest := samples[q..];
    var tail := Initials(rest);
    assert |tail| == |rest|;
    forall k | 0 <= k < n ensures SameState(rest[k].state, samples[p].state) {
      assert df[i + 1 + k] == tail[k];
    }
    SkipRun(samples[p], samples[q - 1], rest, n);
    assert rest[n - 1] == samples[q + n - 1];
    assert df[j - 1] == tail[n - 1] == Initial(samples[q + n - 1]);
    assert df'[i] == CloseRun(samples[p], samples[q + n - 1]);
    assert rest[n..] == samples[q + n..];
    InitialsDrop(rest, n);
    assert df'[i + 1..] == df[j..] == tail[n..];
    assert df'[..i] == df[..i];
  }

  /** Dropping rows of the untouched table drops the same samples. */
  lemma InitialsDrop(s: seq<Sample>, n: nat)
    requires n <= |s|
    ensures Initials(s)[n..] == Initials(s[n..])
  {
  }

  /** The branch of `add_time_columns` that leaves row i finished and moves on. */
  lemma CloseRow(samples: seq<Sample>, df: seq<Interval>, i: nat, p: nat, q: nat)
    requires Folding(samples, df, i, p, q)
    requires i + 1 < |df|
    requires !SameState(df[i].state, df[i + 1].state)
    ensures q < |samples| && Folding(samples, df, i + 1, q, q + 1)
  {
    var rest := samples[q..];
    var tail := Initials(rest);
    assert df[i + 1] == tail[0];
    assert rest == [samples[q]] + samples[q + 1..];
    assert df[..i + 1] == df[..i] + [df[i]];
    assert df[i + 2..] == tail[1..];
    assert tail[1..] == Initials(samples[q + 1..]);
  }

  /** Samples that share the run's state extend the run without closing it. */
  lemma {:induction false} SkipRun(first: Sample, last: Sample, rest: seq<Sample>, n: nat)
    requires 0 < n <= |rest|
    requires forall k :: 0 <= k < n ==> SameState(rest[k].state, first.state)
    ensures RunsFrom(first, last, rest) == RunsFrom(first, rest[n - 1], rest[n..])
    decreases n
  {
    if n > 1 {
      SkipRun(first, rest[0], rest[1..], n - 1);
      assert rest[1..][n - 1..] == rest[n..];
    }
  }

  // ----- Properties of the collapsed table -----

  lemma {:induction false} RunsFromDistinct(first: Sample, last: Sample, rest: seq<Sample>)
    ensures var r := RunsFrom(first, last, rest);
      0 < |r| <= |rest| + 1 && r[0].state == first.state &&
      forall k :: 0 <= k < |r| - 1 ==> !SameState(r[k].state, r[k + 1].state)
    decreases |rest|
  {
    if rest != [] {
      if SameState(rest[0].state, first.state) {
        RunsFromDistinct(first, rest[0], rest[1..]);
      } else {
        RunsFromDistinct(rest[0], rest[0], rest[1..]);
      }
    }
  }

  lemma {:induction false} IntervalStatesCons(x: Interval, r: seq<Interval>)
    ensures IntervalStates([x] + r) == [x.state] + IntervalStates(r)
  {
    assert ([x] + r)[1..] == r;
  }

  lemma {:induction false} RunsFromStates(first: Sample, last: Sample, rest: seq<Sample>)
    ensures IntervalStates(RunsFrom(first, last, rest)) == DropRepeats([first.state] + States(rest))
    decreases |rest|
  {
    var xs := [first.state] + States(rest);
    if rest == [] {
      IntervalStatesCons(CloseRun(first, last), []);
    } else {
      assert States(rest) == [rest[0].state] + States(rest[1..]);
      assert xs[1..] == States(rest);
      if SameState(rest[0].state, first.state) {
        RunsFromStates(first, rest[0], rest[1..]);
      } else {
        RunsFromStates(rest[0], rest[0], rest[1..]);
        IntervalStatesCons(CloseRun(first, last), RunsFrom(rest[0], rest[0], rest[1..]));
      }
    }
  }

  /** Collapsing keeps the state column with consecutive repeats removed: no two
      neighbouring intervals share a state, and the table never grows. */
  lemma CollapseRemovesRepeats(samples: seq<Sample>)
    ensures IntervalStates(Runs(samples)) == DropRepeats(States(samples))
    ensures forall k :: 0 <= k < |Runs(samples)| - 1 ==> !SameState(Runs(samples)[k].state, Runs(samples)[k + 1].state)
    ensures |Runs(samples)| <= |samples|
    ensures |Runs(samples)| == 0 <==> |samples| == 0
  {
    if samples != [] {
      RunsFromDistinct(samples[0], samples[0], samples[1..]);
      RunsFromStates(samples[0], samples[0], samples[1..]);
      assert samples == [samples[0]] + samples[1..];
    }
  }

  lemma {:induction false} CountAbsentCons(x: State, ys: seq<State>)
    ensures CountAbsent([x] + ys) == (if x.Absent? then 1 else 0) + CountAbsent(ys)
  {
    assert ([x] + ys)[1..] == ys;
  }

  /** Removing repeats never removes a NaN state: NaN equals nothing. */
  lemma {:induction false} DropRepeatsKeepsAbsent(xs: seq<State>)
    ensures CountAbsent(DropRepeats(xs)) == CountAbsent(xs)
    decreases |xs|
  {
    if |xs| > 1 {
      DropRepeatsKeepsAbsent(xs[1..]);
      if !SameState(xs[0], xs[1]) {
        CountAbsentCons(xs[0], DropRepeats(xs[1..]));
      }
    }
  }

  /** Every interval whose state is NaN has zero length. */
  predicate AbsentRowsEmpty(r: seq<Interval>) {
    forall k :: 0 <= k < |r| && r[k].state.Absent? ==> r[k].end == r[k].start && r[k].duration == 0
  }

  lemma {:induction false} RunsFromAbsent(first: Sample, last: Sample, rest: seq<Sample>)
    requires first.state.Absent? ==> last == first
    ensures AbsentRowsEmpty(RunsFrom(first, last, rest))
    decreases |rest|
  {
    if rest != [] {
      if SameState(rest[0].state, first.state) {
        RunsFromAbsent(first, rest[0], rest[1..]);
      } else {
        RunsFromAbsent(rest[0], rest[0], rest[1..]);
        var tail := RunsFrom(rest[0], rest[0], rest[1..]);
        var r := [CloseRun(first, last)] + tail;
        assert RunsFrom(first, last, rest) == r;
        forall k | 0 <= k < |r| && r[k].state.Absent? ensures r[k].end == r[k].start && r[k].duration == 0 {
          if k > 0 { assert r[k] == tail[k - 1]; }
        }
      }
    }
  }

  lemma {:induction false} RunsFromTerminal(first: Sample, last: Sample, rest: seq<Sample>)
    requires rest != [] && rest[|rest| - 1].state.Absent?
    ensures var r := RunsFrom(first, last, rest);
      |r| > 0 && r[|r| - 1] == Initial(rest[|rest| - 1])
    decreases |rest|
  {
    if |rest| > 1 {
      if SameState(rest[0].state, first.state) {
        RunsFromTerminal(first, rest[0], rest[1..]);
      } else {
        RunsFromTerminal(rest[0], rest[0], rest[1..]);
      }
    }
  }

  /** NaN states are never merged: every NaN sample stays an interval of its own,
      of zero length, and a NaN terminal sample is the last interval unchanged. */
  lemma AbsentNeverMerged(samples: seq<Sample>)
    ensures CountAbsent(IntervalStates(Runs(samples))) == CountAbsent(States(samples))
    ensures AbsentRowsEmpty(Runs(samples))
    ensures |samples| > 0 && samples[|samples| - 1].state.Absent? ==>
      |Runs(samples)| > 0 && Runs(samples)[|Runs(samples)| - 1] == Initial(samples[|samples| - 1])
  {
    CollapseRemovesRepeats(samples);
    DropRepeatsKeepsAbsent(States(samples));
    if samples != [] {
      RunsFromAbsent(samples[0], samples[0], samples[1..]);
      if samples[|samples| - 1].state.Absent? && |samples| > 1 {
        RunsFromTerminal(samples[0], samples[0], samples[1..]);
      }
    }
  }

  lemma {:induction false} RunsFromOrdered(first: Sample, last: Sample, rest: seq<Sample>)
    requires first.time <= last.time
    requires TimesSorted(rest)
    requires rest != [] ==> last.time <= rest[0].time
    ensures var r := RunsFrom(first, last, rest);
      |r| > 0 && Ordered(r) && r[0].start == first.time &&
      r[|r| - 1].end == (if rest == [] then last.time else rest[|rest| - 1].time)
    decreases |rest|
  {
    if rest != [] {
      if SameState(rest[0].state, first.state) {
        RunsFromOrdered(first, rest[0], rest[1..]);
      } else {
        RunsFromOrdered(rest[0], rest[0], rest[1..]);
      }
    }
  }

  lemma {:induction false} RunsFromNoGap(first: Sample, last: Sample, rest: seq<Sample>)
    requires !first.state.GapNull?
    requires forall t :: 0 <= t < |rest| ==> !rest[t].state.GapNull?
    ensures NoGapRows(RunsFrom(first, last, rest))
    decreases |rest|
  {
    if rest != [] {
      assert !rest[0].state.GapNull?;
      forall t | 0 <= t < |rest| - 1 ensures !rest[1..][t].state.GapNull? {
        assert rest[1..][t] == rest[t + 1];
      }
      if SameState(rest[0].state, first.state) {
        RunsFromNoGap(first, rest[0], rest[1..]);
      } else {
        RunsFromNoGap(rest[0], rest[0], rest[1..]);
        var tail := RunsFrom(rest[0], rest[0], rest[1..]);
        var r := [CloseRun(first, last)] + tail;
        forall k | 0 < k < |r| ensures !r[k].state.GapNull? {
          assert r[k] == tail[k - 1];
        }
      }
    }
  }

  /** Every interval takes its state from a sample, so samples without the
      off-time 'Null' give intervals without it. */
  lemma CollapseKeepsSignalStates(samples: seq<Sample>)
    requires forall t :: 0 <= t < |samples| ==> !samples[t].state.GapNull?
    ensures NoGapRows(Runs(samples))
  {
    if samples != [] {
      forall t | 0 <= t < |samples| - 1 ensures !samples[1..][t].state.GapNull? {
        assert samples[1..][t] == samples[t + 1];
      }
      RunsFromNoGap(samples[0], samples[0], samples[1..]);
    }
  }

  // ----- The runs of a table -----

  /** Rows lo .. hi-1 form one maximal run: every row after lo has row lo's
      state, and row hi, if there is one, does not. */
  ghost predicate Block(samples: seq<Sample>, lo: nat, hi: nat) {
    lo < hi <= |samples| &&
    (forall t :: lo < t < hi ==> SameState(samples[t].state, samples[lo].state)) &&
    (hi < |samples| ==> !SameState(samples[hi].state, samples[lo].state))
  }

  /** `b` cuts `samples` into consecutive maximal runs b[0]..b[1]-1, b[1]..b[2]-1,
      ..., the last of them ending at the table's length. */
  ghost predicate Partition(samples: seq<Sample>, b: seq<nat>)
    decreases |b|
  {
    |b| > 0 &&
    if |b| == 1 then b[0] == |samples|
    else Block(samples, b[0], b[1]) && Partition(samples, b[1..])
  }

  /** The boundaries of the maximal runs of `samples`: a partition that starts at row 0. */
  ghost predicate RunBoundaries(samples: seq<Sample>, b: seq<nat>) {
    Partition(samples, b) && b[0] == 0
  }

  /** The interval each block of `b` collapses to, in block order. */
  ghost function Blocks(samples: seq<Sample>, b: seq<nat>): seq<Interval>
    requires Partition(samples, b)
    decreases |b|
  {
    if |b| == 1 then []
    else [CloseRun(samples[b[0]], samples[b[1] - 1])] + Blocks(samples, b[1..])
  }

  /** Block by block: the k-th boundary pair is a maximal run, and the k-th
      interval spans it. */
  lemma {:induction false} BlocksIndex(samples: seq<Sample>, b: seq<nat>)
    requires Partition(samples, b)
    ensures |Blocks(samples, b)| == |b| - 1
    ensures forall k :: 0 <= k < |b| - 1 ==>
      Block(samples, b[k], b[k + 1]) &&
      Blocks(samples, b)[k] == CloseRun(samples[b[k]], samples[b[k + 1] - 1])
    decreases |b|
  {
    if |b| > 1 {
      var c := b[1..];
      BlocksIndex(samples, c);
      var r := Blocks(samples, b);
      assert r == [CloseRun(samples[b[0]], samples[b[1] - 1])] + Blocks(samples, c);
      forall k | 0 <= k < |b| - 1
        ensures Block(samples, b[k], b[k + 1]) && r[k] == CloseRun(samples[b[k]], samples[b[k + 1] - 1])
      {
        if k > 0 {
          assert b[k] == c[k - 1] && b[k + 1] == c[k];
          assert r[k] == Blocks(samples, c)[k - 1];
        }
      }
    }
  }

  /** The collapse reads a whole block before it closes the interval. */
  lemma BlockSkip(samples: seq<Sample>, lo: nat, hi: nat)
    requires Block(samples, lo, hi)
    ensures RunsFrom(samples[lo], samples[lo], samples[lo + 1..]) == RunsFrom(samples[lo], samples[hi - 1], samples[hi..])
  {
    var first := samples[lo];
    var rest := samples[lo + 1..];
    var n := hi - lo - 1;
    if n > 0 {
      forall j | 0 <= j < n ensures SameState(rest[j].state, first.state) {
        assert rest[j] == samples[lo + 1 + j];
      }
      SkipRun(first, first, rest, n);
      assert rest[n - 1] == samples[hi - 1] && rest[n..] == samples[hi..];
    }
  }

  /** At the end of a block the interval is closed and the next block begins. */
  lemma BlockClose(samples: seq<Sample>, lo: nat, hi: nat)
    requires Block(samples, lo, hi)
    ensures hi == |samples| ==> RunsFrom(samples[lo], samples[hi - 1], samples[hi..]) == [CloseRun(samples[lo], samples[hi - 1])]
    ensures hi < |samples| ==>
      RunsFrom(samples[lo], samples[hi - 1], samples[hi..]) ==
      [CloseRun(samples[lo], samples[hi - 1])] + RunsFrom(samples[hi], samples[hi], samples[hi + 1..])
  {
    if hi < |samples| {
      var tail := samples[hi..];
      assert tail[0] == samples[hi] && tail[1..] == samples[hi + 1..];
    }
  }

  /** The collapse of the table from its first boundary on is its blocks. */
  lemma {:induction false} RunsFromBlocks(samples: seq<Sample>, b: seq<nat>)
    requires Partition(samples, b) && |b| > 1
    ensures RunsFrom(samples[b[0]], samples[b[0]], samples[b[0] + 1..]) == Blocks(samples, b)
    decreases |b|
  {
    var c := b[1..];
    assert Block(samples, b[0], b[1]) && Partition(samples, c) && c[0] == b[1];
    var head := CloseRun(samples[b[0]], samples[b[1] - 1]);
    assert Blocks(samples, b) == [head] + Blocks(samples, c);
    BlockSkip(samples, b[0], b[1]);
    BlockClose(samples, b[0], b[1]);
    if b[1] < |samples| {
      assert |c| > 1;
      RunsFromBlocks(samples, c);
    } else {
      assert |c| == 1 && Blocks(samples, c) == [];
    }
  }

  /** For any run boundaries `b`, interval k is the run from row b[k] to row
      b[k+1]-1: it starts at the run's first sample and keeps its state and
      voltage, and it ends at the run's LAST sample. */
  lemma RunsAreBlocks(samples: seq<Sample>, b: seq<nat>)
    requires RunBoundaries(samples, b)
    ensures |Runs(samples)| == |b| - 1
    ensures forall k :: 0 <= k < |b| - 1 ==>
      Block(samples, b[k], b[k + 1]) &&
      Runs(samples)[k] == CloseRun(samples[b[k]], samples[b[k + 1] - 1])
  {
    BlocksIndex(samples, b);
    if samples == [] {
      assert |b| == 1;
    } else {
      RunsFromBlocks(samples, b);
    }
  }

  /** The starts of the runs after the one that begins at `p`, scanning from `q`. */
  ghost function Cuts(samples: seq<Sample>, p: nat, q: nat): seq<nat>
    requires p < q <= |samples|
    decreases |samples| - q
  {
    if q == |samples| then [q]
    else if SameState(samples[q].state, samples[p].state) then Cuts(samples, p, q + 1)
    else [q] + Cuts(samples, q, q + 1)
  }

  lemma {:induction false} CutsPartition(samples: seq<Sample>, p: nat, q: nat)
    requires p < q <= |samples|
    requires forall t :: p < t < q ==> SameState(samples[t].state, samples[p].state)
    ensures Partition(samples, [p] + Cuts(samples, p, q))
    decreases |samples| - q
  {
    if q == |samples| {
      assert Block(samples, p, q);
      assert ([p] + [q])[1..] == [q];
    } else if SameState(samples[q].state, samples[p].state) {
      CutsPartition(samples, p, q + 1);
    } else {
      CutsPartition(samples, q, q + 1);
      var c := [q] + Cuts(samples, q, q + 1);
      assert Cuts(samples, p, q) == c;
      assert Block(samples, p, q);
      assert ([p] + c)[1..] == c;
    }
  }

  /** Every table has run boundaries, and its collapsed table is made of its runs. */
  lemma RunsPartition(samples: seq<Sample>) returns (b: seq<nat>)
    ensures RunBoundaries(samples, b)
    ensures |Runs(samples)| == |b| - 1
    ensures forall k :: 0 <= k < |b| - 1 ==>
      Block(samples, b[k], b[k + 1]) &&
      Runs(samples)[k] == CloseRun(samples[b[k]], samples[b[k + 1] - 1])
  {
    if samples == [] {
      b := [0];
    } else {
      CutsPartition(samples, 0, 1);
      b := [0] + Cuts(samples, 0, 1);
    }
    RunsAreBlocks(samples, b);
  }

  /** Rows at 0 s and 1 s in state 1, at 2 s, 3 s and 3 s in state 3, and the NaN
      terminal row at 5 s collapse to state 1 from 0 s to 1 s with the first row's
      voltage, state 3 from 2 s to 3 s, and the terminal row. */
  lemma CollapseExample(v1: Voltage, v2: Voltage, v3: Voltage, v4: Voltage, v5: Voltage)
    ensures Runs([Sample(0, Code(1), v1), Sample(1_000_000, Code(1), v2),
                  Sample(2_000_000, Code(3), v3), Sample(3_000_000, Code(3), v4), Sample(3_000_000, Code(3), v5),
                  Sample(5_000_000, Absent, Missing)])
      == [Interval(0, 1_000_000, 1_000_000, Code(1), v1),
          Interval(2_000_000, 3_000_000, 1_000_000, Code(3), v3),
          Interval(5_000_000, 5_000_000, 0, Absent, Missing)]
  {
    var samples := [Sample(0, Code(1), v1), Sample(1_000_000, Code(1), v2),
                    Sample(2_000_000, Code(3), v3), Sample(3_000_000, Code(3), v4), Sample(3_000_000, Code(3), v5),
                    Sample(5_000_000, Absent, Missing)];
    var b := [0, 2, 5, 6];
    assert Block(samples, 0, 2) && Block(samples, 2, 5) && Block(samples, 5, 6);
    assert b[1..] == [2, 5, 6] && b[1..][1..] == [5, 6] && b[1..][1..][1..] == [6];
    assert Partition(samples, [6]);
    assert Partition(samples, [5, 6]);
    assert Partition(samples, [2, 5, 6]);
    RunsAreBlocks(samples, b);
    var r := Runs(samples);
    assert r[0] == CloseRun(samples[b[0]], samples[b[1] - 1]);
    assert r[1] == CloseRun(samples[b[1]], samples[b[2] - 1]);
    assert r[2] == CloseRun(samples[b[2]], samples[b[3] - 1]);
  }

  /** On time-ordered samples every interval is well formed, each ends no later
      than the next starts, the first starts at the first sample and the last ends
      at the last sample. */
  lemma CollapseOrdered(samples: seq<Sample>)
    requires TimesSorted(samples) && |samples| > 0
    ensures |Runs(samples)| > 0 && Ordered(Runs(samples))
    ensures Runs(samples)[0].start == samples[0].time
    ensures Runs(samples)[|Runs(samples)| - 1].end == samples[|samples| - 1].time
  {
    RunsFromOrdered(samples[0], samples[0], samples[1..]);
  }
}
