/**
 * Cycle stamping: `add_cycle_count` (BLFSummary.py:65-72), and the running
 * offset that threads cycle numbers through a batch of logs
 * (BLFSummary.py:99, 143-144).
 */
module BlfCycles {
  import opened BlfModel
  import opened BlfGaps

  /** A row that counts as one cycle: state 5 lasting strictly more than 800 s.
      An off-time row's 'Null' state never equals 5. */
  predicate Triggers(iv: Interval) {
    iv.state == Code(CycleState) && iv.duration > CycleThreshold
  }

  /** The number of qualifying rows among the first `n`. */
  function CountUpTo(rows: seq<Interval>, n: nat): nat
    requires n <= |rows|
  {
    if n == 0 then 0 else CountUpTo(rows, n - 1) + (if Triggers(rows[n - 1]) then 1 else 0)
  }

  /** The number of rows that count as a cycle. */
  function CountTriggers(rows: seq<Interval>): nat {
    CountUpTo(rows, |rows|)
  }

  /** Reference definition: each row stamped with the number of cycles up to and including it. */
  function Stamped(rows: seq<Interval>): seq<Counted> {
    seq(|rows|, i requires 0 <= i < |rows| => Counted(rows[i], CountUpTo(rows, i + 1)))
  }

  /** `add_cycle_count`: one pass with a running counter, writing it into every row. */
  method AddCycleCount(rows: seq<Interval>) returns (out: seq<Counted>)
    ensures out == Stamped(rows)
  {
    var cycleCount := 0;
    out := [];
    for i := 0 to |rows|
      invariant |out| == i
      invariant cycleCount == CountUpTo(rows, i)
      invariant forall k :: 0 <= k < i ==> out[k] == Counted(rows[k], CountUpTo(rows, k + 1))
    {
      if rows[i].state == Code(CycleState) && rows[i].duration > CycleThreshold {
        cycleCount := cycleCount + 1;
      }
      out := out + [Counted(rows[i], cycleCount)];
    }
  }

  /** Counting inside the front part of `a + b` only sees `a`. */
  lemma {:induction false} CountUpToFront(a: seq<Interval>, b: seq<Interval>, n: nat)
    requires n <= |a|
    ensures CountUpTo(a + b, n) == CountUpTo(a, n)
  {
    if n > 0 {
      CountUpToFront(a, b, n - 1);
      assert (a + b)[n - 1] == a[n - 1];
    }
  }

  /** Counting into the back part of `a + b` sees all of `a` and then `b`. */
  lemma {:induction false} CountUpToBack(a: seq<Interval>, b: seq<Interval>, m: nat)
    requires m <= |b|
    ensures CountUpTo(a + b, |a| + m) == CountTriggers(a) + CountUpTo(b, m)
  {
    if m == 0 {
      CountUpToFront(a, b, |a|);
    } else {
      CountUpToBack(a, b, m - 1);
      assert (a + b)[|a| + m - 1] == b[m - 1];
    }
  }

  lemma CountTriggersAppend(a: seq<Interval>, b: seq<Interval>)
    ensures CountTriggers(a + b) == CountTriggers(a) + CountTriggers(b)
  {
    CountUpToBack(a, b, |b|);
  }

  /** The stamped counter starts from the first row's own contribution and rises
      by exactly one at each qualifying row, staying put elsewhere; every row keeps
      its other columns. */
  lemma StampedSteps(rows: seq<Interval>)
    ensures |Stamped(rows)| == |rows|
    ensures forall i :: 0 <= i < |rows| ==> Stamped(rows)[i].interval == rows[i]
    ensures |rows| > 0 ==> Stamped(rows)[0].cycle == if Triggers(rows[0]) then 1 else 0
    ensures forall i :: 0 <= i < |rows| - 1 ==>
      Stamped(rows)[i + 1].cycle == Stamped(rows)[i].cycle + (if Triggers(rows[i + 1]) then 1 else 0)
  {
    if |rows| > 0 {
      assert CountUpTo(rows, 1) == CountUpTo(rows, 0) + (if Triggers(rows[0]) then 1 else 0);
    }
    forall i | 0 <= i < |rows| - 1
      ensures Stamped(rows)[i + 1].cycle == Stamped(rows)[i].cycle + (if Triggers(rows[i + 1]) then 1 else 0)
    {
      assert CountUpTo(rows, i + 2) == CountUpTo(rows, i + 1) + (if Triggers(rows[i + 1]) then 1 else 0);
    }
  }

  /** The stamped counter never decreases and ends at the number of qualifying
      rows, which is at most the row count. */
  lemma StampedMonotone(rows: seq<Interval>)
    ensures forall i, j :: 0 <= i <= j < |rows| ==> Stamped(rows)[i].cycle <= Stamped(rows)[j].cycle
    ensures |rows| > 0 ==> Stamped(rows)[|rows| - 1].cycle == CountTriggers(rows)
    ensures CountTriggers(rows) <= |rows|
  {
    forall i, j | 0 <= i <= j < |rows| ensures Stamped(rows)[i].cycle <= Stamped(rows)[j].cycle {
      CountUpToMonotone(rows, i + 1, j + 1);
    }
    CountUpToBound(rows, |rows|);
  }

  /** A longer prefix has at least as many qualifying rows. */
  lemma {:induction false} CountUpToMonotone(rows: seq<Interval>, m: nat, n: nat)
    requires m <= n <= |rows|
    ensures CountUpTo(rows, m) <= CountUpTo(rows, n)
    decreases n
  {
    if m < n {
      CountUpToMonotone(rows, m, n - 1);
    }
  }

  lemma {:induction false} CountUpToBound(rows: seq<Interval>, n: nat)
    requires n <= |rows|
    ensures CountUpTo(rows, n) <= n
  {
    if n > 0 {
      CountUpToBound(rows, n - 1);
    }
  }

  /** Off-time rows never trigger: inserting them leaves the cycle total unchanged. */
  lemma {:induction false} GapsKeepCycleTotal(rows: seq<Interval>)
    ensures CountTriggers(Gaps(rows)) == CountTriggers(rows)
    decreases |rows|
  {
    if |rows| > 1 {
      GapsKeepCycleTotal(rows[1..]);
      var head := if Wide(rows[0], rows[1]) then [rows[0], GapBetween(rows[0], rows[1])] else [rows[0]];
      assert Gaps(rows) == head + Gaps(rows[1..]);
      CountTriggersAppend(head, Gaps(rows[1..]));
      assert rows == [rows[0]] + rows[1..];
      CountTriggersAppend([rows[0]], rows[1..]);
      var one := if Triggers(rows[0]) then 1 else 0;
      assert CountTriggers([rows[0]]) == CountUpTo([rows[0]], 0) + one;
      if Wide(rows[0], rows[1]) {
        assert CountUpTo(head, 1) == CountUpTo(head, 0) + one;
        assert CountTriggers(head) == CountUpTo(head, 1);
      }
    }
  }

  /** Line 143: every count of one log shifted by the total of the earlier logs. */
  function Shift(out: seq<Counted>, offset: int): (r: seq<Counted>)
    ensures |r| == |out|
    ensures forall i :: 0 <= i < |out| ==> r[i].interval == out[i].interval && r[i].cycle - offset == out[i].cycle
  {
    seq(|out|, i requires 0 <= i < |out| => Counted(out[i].interval, out[i].cycle + offset))
  }

  /** Line 144: the largest count of the column. */
  function MaxCycle(out: seq<Counted>): (m: int)
    requires |out| > 0
    ensures forall i :: 0 <= i < |out| ==> out[i].cycle <= m
    ensures exists i :: 0 <= i < |out| && out[i].cycle == m
    decreases |out|
  {
    if |out| == 1 then out[0].cycle
    else
      var rest := MaxCycle(out[1..]);
      assert forall i :: 1 <= i < |out| ==> out[i] == out[1..][i - 1];
      if out[0].cycle >= rest then out[0].cycle else rest
  }

  /** The next running total is the previous one plus this log's qualifying rows:
      the counts are non-decreasing, so their maximum is the last one. */
  lemma NextOffset(rows: seq<Interval>, offset: int)
    requires |rows| > 0
    ensures MaxCycle(Shift(Stamped(rows), offset)) == offset + CountTriggers(rows)
  {
    StampedMonotone(rows);
    var shifted := Shift(Stamped(rows), offset);
    var m := MaxCycle(shifted);
    assert shifted[|rows| - 1].cycle == offset + CountTriggers(rows);
    var i :| 0 <= i < |shifted| && shifted[i].cycle == m;
    assert Stamped(rows)[i].cycle <= Stamped(rows)[|rows| - 1].cycle;
  }

  /** Counting two logs one after the other with the offset threaded between them
      gives the same counts as counting their rows as one table: cycle numbers
      never restart. */
  lemma BatchContinuity(a: seq<Interval>, b: seq<Interval>)
    ensures Stamped(a + b) == Stamped(a) + Shift(Stamped(b), CountTriggers(a))
  {
    var lhs := Stamped(a + b);
    var rhs := Stamped(a) + Shift(Stamped(b), CountTriggers(a));
    assert |lhs| == |rhs|;
    forall i | 0 <= i < |a + b| ensures lhs[i] == rhs[i] {
      if i < |a| {
        CountUpToFront(a, b, i + 1);
      } else {
        CountUpToBack(a, b, i - |a| + 1);
      }
    }
  }

  /** Three state-5 rows lasting 900 s, 500 s and 850 s are stamped 1, 1, 2. */
  lemma CycleExample(x: Interval, y: Interval, z: Interval)
    requires x.state == y.state == z.state == Code(5)
    requires x.duration == 900 * MicrosPerSecond && y.duration == 500 * MicrosPerSecond
    requires z.duration == 850 * MicrosPerSecond
    ensures Stamped([x, y, z])[0].cycle == 1
    ensures Stamped([x, y, z])[1].cycle == 1
    ensures Stamped([x, y, z])[2].cycle == 2
  {
    StampedSteps([x, y, z]);
  }
}
