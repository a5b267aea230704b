/**
 * Off-time insertion: `add_off_time_periods` (BLFSummary.py:51-63).
 *
 * Between two neighbouring rows whose distance (next Start Time minus this End
 * Time) is strictly greater than 2 s, a 'Null' row spanning exactly that
 * distance is inserted. The inserted row lands directly after the first row of
 * the pair. On an ordered table this is Start Time order (`GapsStartSorted`),
 * so the re-sort of BLFSummary.py:59 leaves it there whenever Start Times do
 * not tie.
 */
module BlfGaps {
  import opened BlfModel

  /** The pair is far enough apart to need an off-time row (strict: exactly 2 s is not). */
  predicate Wide(a: Interval, b: Interval) {
    b.start - a.end > GapThreshold
  }

  /** The off-time row between `a` and `b` (BLFSummary.py:55-58). */
  function GapBetween(a: Interval, b: Interval): Interval {
    Interval(a.end, b.start, b.start - a.end, GapNull, NullMarker)
  }

  /** Reference definition: each neighbouring pair is examined once. */
  function Gaps(rows: seq<Interval>): seq<Interval>
    decreases |rows|
  {
    if |rows| <= 1 then rows
    else if Wide(rows[0], rows[1]) then [rows[0], GapBetween(rows[0], rows[1])] + Gaps(rows[1..])
    else [rows[0]] + Gaps(rows[1..])
  }

  /** `add_off_time_periods` on the table it grows: after inserting a row it skips past it. */
  method AddOffTimePeriods(rows: seq<Interval>) returns (df: seq<Interval>)
    ensures df == Gaps(rows)
  {
    df := rows;
    var i := 0;
    ghost var m := 0;  // df[i..] is still rows[m..]
    ghost var whole := Gaps(rows);
    assert Building(rows, df, i, m, whole) by { assert df[..0] == []; }
    while i < |df| - 1
      invariant Building(rows, df, i, m, whole)
      decreases |rows| - m
    {
      if df[i + 1].start - df[i].end > GapThreshold {
        var startTime := df[i].end;
        var endTime := df[i + 1].start;
        var duration := endTime - startTime;
        var gap := Interval(startTime, endTime, duration, GapNull, NullMarker);
        assert gap == GapBetween(df[i], df[i + 1]);
        InsertStep(rows, df, i, m, whole);
        df := df[..i + 1] + [gap] + df[i + 1..];
        i := i + 1;
      } else {
        KeepStep(rows, df, i, m, whole);
      }
      i := i + 1;
      m := m + 1;
    }
    BuildDone(rows, df, i, m, whole);
  }

  /** The loop's invariant: the rows from i on are the input's rows from m on, and
      the rows before i followed by the off-time insertion of the rest make up `whole`. */
  ghost predicate Building(rows: seq<Interval>, df: seq<Interval>, i: nat, m: nat, whole: seq<Interval>) {
    m <= |rows| && i <= |df| && df[i..] == rows[m..] && df[..i] + Gaps(rows[m..]) == whole
  }

  /** One pass of the loop that inserts an off-time row after row i. */
  lemma InsertStep(rows: seq<Interval>, df: seq<Interval>, i: nat, m: nat, whole: seq<Interval>)
    requires Building(rows, df, i, m, whole) && i + 1 < |df| && Wide(df[i], df[i + 1])
    ensures Building(rows, df[..i + 1] + [GapBetween(df[i], df[i + 1])] + df[i + 1..], i + 2, m + 1, whole)
  {
    var r := rows[m..];
    assert r[0] == df[i] && r[1] == df[i + 1] && r[1..] == rows[m + 1..];
    assert Gaps(r) == [r[0], GapBetween(r[0], r[1])] + Gaps(r[1..]);
    var df' := df[..i + 1] + [GapBetween(df[i], df[i + 1])] + df[i + 1..];
    assert df'[..i + 2] == df[..i] + [r[0], GapBetween(r[0], r[1])];
    assert df'[i + 2..] == df[i + 1..] == r[1..];
  }

  /** One pass of the loop that leaves row i as it is. */
  lemma KeepStep(rows: seq<Interval>, df: seq<Interval>, i: nat, m: nat, whole: seq<Interval>)
    requires Building(rows, df, i, m, whole) && i + 1 < |df| && !Wide(df[i], df[i + 1])
    ensures Building(rows, df, i + 1, m + 1, whole)
  {
    var r := rows[m..];
    assert r[0] == df[i] && r[1] == df[i + 1] && r[1..] == rows[m + 1..];
    assert Gaps(r) == [r[0]] + Gaps(r[1..]);
    assert df[..i + 1] == df[..i] + [r[0]];
    assert df[i + 1..] == r[1..];
  }

  /** When at most one row is left unexamined, the table is complete. */
  lemma BuildDone(rows: seq<Interval>, df: seq<Interval>, i: nat, m: nat, whole: seq<Interval>)
    requires Building(rows, df, i, m, whole) && !(i < |df| - 1)
    ensures df == whole
  {
    assert |rows[m..]| <= 1;
    assert Gaps(rows[m..]) == rows[m..];
    assert df == df[..i] + df[i..];
  }

  // ----- Properties of the table with off-time rows -----

  /** No neighbouring pair is further apart than the threshold. */
  predicate Abutting(xs: seq<Interval>) {
    forall k :: 0 <= k < |xs| - 1 ==> !Wide(xs[k], xs[k + 1])
  }

  /** The rows that are not off-time rows, in order. */
  function Originals(xs: seq<Interval>): seq<Interval> {
    if xs == [] then [] else (if xs[0].state.GapNull? then [] else [xs[0]]) + Originals(xs[1..])
  }

  /** The number of neighbouring pairs that are too far apart. */
  function WidePairs(rows: seq<Interval>): nat {
    if |rows| <= 1 then 0 else (if Wide(rows[0], rows[1]) then 1 else 0) + WidePairs(rows[1..])
  }

  lemma {:induction false} GapsEnds(rows: seq<Interval>)
    requires |rows| > 0
    ensures |Gaps(rows)| > 0 && Gaps(rows)[0] == rows[0]
    ensures Gaps(rows)[|Gaps(rows)| - 1] == rows[|rows| - 1]
    decreases |rows|
  {
    if |rows| > 1 {
      GapsEnds(rows[1..]);
    }
  }

  /** After insertion no two neighbours are more than 2 s apart: every off-time
      row meets both its neighbours exactly. */
  lemma {:induction false} GapsAbut(rows: seq<Interval>)
    ensures Abutting(Gaps(rows))
    decreases |rows|
  {
    if |rows| > 1 {
      GapsAbut(rows[1..]);
      GapsEnds(rows[1..]);
      var tail := Gaps(rows[1..]);
      var out := Gaps(rows);
      forall k | 0 <= k < |out| - 1 ensures !Wide(out[k], out[k + 1]) {
        if Wide(rows[0], rows[1]) {
          assert out == [rows[0], GapBetween(rows[0], rows[1])] + tail;
          if k >= 2 { assert out[k] == tail[k - 2] && out[k + 1] == tail[k - 1]; }
        } else {
          assert out == [rows[0]] + tail;
          if k >= 1 { assert out[k] == tail[k - 1] && out[k + 1] == tail[k]; }
        }
      }
    }
  }

  /** A table with no over-wide pair is left as it is. */
  lemma {:induction false} GapsOfAbutting(xs: seq<Interval>)
    requires Abutting(xs)
    ensures Gaps(xs) == xs
    decreases |xs|
  {
    if |xs| > 1 {
      assert !Wide(xs[0], xs[1]);
      GapsOfAbutting(xs[1..]);
      assert xs == [xs[0]] + xs[1..];
    }
  }

  /** Running the stage on its own output inserts nothing. */
  lemma GapsIdempotent(rows: seq<Interval>)
    ensures Gaps(Gaps(rows)) == Gaps(rows)
  {
    GapsAbut(rows);
    GapsOfAbutting(Gaps(rows));
  }

  lemma {:induction false} OriginalsAppend(xs: seq<Interval>, ys: seq<Interval>)
    ensures Originals(xs + ys) == Originals(xs) + Originals(ys)
    decreases |xs|
  {
    if xs == [] {
      assert xs + ys == ys;
    } else {
      var zs := xs + ys;
      assert zs != [] && zs[0] == xs[0] && zs[1..] == xs[1..] + ys;
      OriginalsAppend(xs[1..], ys);
      var head := if xs[0].state.GapNull? then [] else [xs[0]];
      assert Originals(zs) == head + Originals(xs[1..] + ys);
      assert Originals(xs) == head + Originals(xs[1..]);
    }
  }

  /** Dropping the off-time rows gives back the input: every original row is
      kept, unchanged and in its order. */
  lemma {:induction false} GapsKeepOriginals(rows: seq<Interval>)
    requires NoGapRows(rows)
    ensures Originals(Gaps(rows)) == rows
    decreases |rows|
  {
    if |rows| == 1 {
      assert Originals(rows) == [rows[0]] + Originals(rows[1..]);
    } else if |rows| > 1 {
      var tail := rows[1..];
      assert NoGapRows(tail) by {
        forall k | 0 <= k < |tail| ensures !tail[k].state.GapNull? {
          assert tail[k] == rows[k + 1];
        }
      }
      GapsKeepOriginals(tail);
      var head := FirstOfPair(rows[0], rows[1]);
      assert Gaps(rows) == head + Gaps(tail);
      OriginalsAppend(head, Gaps(tail));
      OriginalsOfFirst(rows[0], rows[1]);
      assert rows == [rows[0]] + tail;
    }
  }

  /** What the insertion puts out for the first row of a pair. */
  function FirstOfPair(a: Interval, b: Interval): seq<Interval> {
    if Wide(a, b) then [a, GapBetween(a, b)] else [a]
  }

  lemma OriginalsOfFirst(a: Interval, b: Interval)
    requires !a.state.GapNull?
    ensures Originals(FirstOfPair(a, b)) == [a]
  {
    var g := GapBetween(a, b);
    assert Originals([g]) == [] + Originals([g][1..]);
    if Wide(a, b) {
      assert [a, g][1..] == [g];
    }
    assert Originals([a]) == [a] + Originals([a][1..]);
  }

  /** The inserted rows: at most one per neighbouring pair, exactly one per pair
      that is too far apart. */
  lemma {:induction false} GapsCount(rows: seq<Interval>)
    ensures |Gaps(rows)| == |rows| + WidePairs(rows)
    ensures |rows| > 0 ==> WidePairs(rows) <= |rows| - 1
    decreases |rows|
  {
    if |rows| > 1 {
      GapsCount(rows[1..]);
    }
  }

  /** Each off-time row sits between two original rows, starts where the first
      ends, ends where the second starts, lasts more than 2 s and carries 'Null'
      state and voltage. */
  lemma {:induction false} GapRowShape(rows: seq<Interval>, k: nat)
    requires NoGapRows(rows)
    requires k < |Gaps(rows)| && Gaps(rows)[k].state.GapNull?
    ensures 0 < k < |Gaps(rows)| - 1
    ensures var out := Gaps(rows);
      !out[k - 1].state.GapNull? && !out[k + 1].state.GapNull? &&
      out[k].start == out[k - 1].end && out[k].end == out[k + 1].start &&
      out[k].duration == out[k].end - out[k].start && out[k].duration > GapThreshold &&
      out[k].voltage == NullMarker
    decreases |rows|
  {
    var out := Gaps(rows);
    assert |rows| > 1;
    var tail := Gaps(rows[1..]);
    GapsEnds(rows[1..]);
    if Wide(rows[0], rows[1]) {
      assert out == [rows[0], GapBetween(rows[0], rows[1])] + tail;
      if k > 1 {
        assert tail[k - 2] == out[k];
        GapRowShape(rows[1..], k - 2);
        assert out[k - 1] == tail[k - 3] && out[k + 1] == tail[k - 1];
      }
    } else {
      assert out == [rows[0]] + tail;
      assert k > 0;
      assert tail[k - 1] == out[k];
      GapRowShape(rows[1..], k - 1);
      assert out[k - 1] == tail[k - 2] && out[k + 1] == tail[k];
    }
  }

  /** Gap insertion keeps a well-formed, time-ordered table well formed and
      ordered, with the same first and last row. */
  lemma {:induction false} GapsOrdered(rows: seq<Interval>)
    requires Ordered(rows)
    ensures Ordered(Gaps(rows))
    decreases |rows|
  {
    if |rows| > 1 {
      GapsOrdered(rows[1..]);
      GapsEnds(rows[1..]);
      var tail := Gaps(rows[1..]);
      var out := Gaps(rows);
      if Wide(rows[0], rows[1]) {
        assert out == [rows[0], GapBetween(rows[0], rows[1])] + tail;
        forall k | 0 <= k < |out| ensures WellFormed(out[k]) {
          if k >= 2 { assert out[k] == tail[k - 2]; }
        }
        forall k | 0 <= k < |out| - 1 ensures out[k].end <= out[k + 1].start {
          if k >= 2 { assert out[k] == tail[k - 2] && out[k + 1] == tail[k - 1]; }
        }
      } else {
        assert out == [rows[0]] + tail;
        forall k | 0 <= k < |out| ensures WellFormed(out[k]) {
          if k >= 1 { assert out[k] == tail[k - 1]; }
        }
        forall k | 0 <= k < |out| - 1 ensures out[k].end <= out[k + 1].start {
          if k >= 1 { assert out[k] == tail[k - 1] && out[k + 1] == tail[k]; }
        }
      }
    }
  }

  /** In an ordered table Start Times never decrease. */
  lemma {:induction false} OrderedStarts(xs: seq<Interval>, i: nat, j: nat)
    requires Ordered(xs) && i <= j < |xs|
    ensures xs[i].start <= xs[j].start
    decreases j - i
  {
    if i < j {
      assert WellFormed(xs[i]) && xs[i].end <= xs[i + 1].start;
      OrderedStarts(xs, i + 1, j);
    }
  }

  /** On an ordered table every inserted row already sits in Start Time order, so
      the re-sort after each insertion finds the rows where the loop put them. */
  lemma GapsStartSorted(rows: seq<Interval>)
    requires Ordered(rows)
    ensures forall i, j :: 0 <= i < j < |Gaps(rows)| ==> Gaps(rows)[i].start <= Gaps(rows)[j].start
  {
    GapsOrdered(rows);
    forall i, j | 0 <= i < j < |Gaps(rows)| ensures Gaps(rows)[i].start <= Gaps(rows)[j].start {
      OrderedStarts(Gaps(rows), i, j);
    }
  }

  /** Rows exactly 2 s apart get no off-time row; 3.5 s apart get one of 3.5 s. */
  lemma GapThresholdExamples(a: Interval, b: Interval, c: Interval)
    requires a.end == 10 * MicrosPerSecond && b.start == 12 * MicrosPerSecond
    requires c.start == 13_500_000
    ensures Gaps([a, b]) == [a, b]
    ensures Gaps([a, c]) == [a, Interval(a.end, c.start, 3_500_000, GapNull, NullMarker), c]
  {
  }
}
