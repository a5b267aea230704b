/**
 * The per-log pipeline and the batch loop of `main` (BLFSummary.py:95-149):
 * normalise, pass through, collapse runs, insert off-time rows, stamp cycles,
 * shift by the running total and carry the new total to the next log.
 */
module BlfSummary {
  import opened Optional
  import opened BlfModel
  import opened BlfNormalise
  import opened BlfCollapse
  import opened BlfGaps
  import opened BlfCycles

  /** One decoded log with the start and stop time stamps of its container. */
  datatype Log = Log(decoded: seq<Decoded>, logStart: int, logStop: int)

  /** The intervals of one log, before they are counted. The terminal row makes
      sure there is at least one, and it stays the last row whatever the
      decoded rows are; no two neighbours are more than 2 s apart. */
  function Intervals(log: Log): (ivs: seq<Interval>)
    ensures |ivs| > 0 && Abutting(ivs)
    ensures ivs[|ivs| - 1] == Interval(log.logStop - log.logStart, log.logStop - log.logStart, 0, Absent, Missing)
  {
    var samples := ReadAndFilter(Normalise(log.decoded, log.logStart, log.logStop));
    AbsentNeverMerged(samples);
    GapsAbut(Runs(samples));
    GapsEnds(Runs(samples));
    Gaps(Runs(samples))
  }

  /** Decoded rows never carry 'Null', so the 'Null' rows of a log's intervals are
      exactly the inserted off-time rows: dropping them gives back the collapsed
      runs, and each one bridges more than 2 s between two of them. */
  lemma IntervalsOriginals(log: Log)
    ensures Originals(Intervals(log)) == Runs(ReadAndFilter(Normalise(log.decoded, log.logStart, log.logStop)))
    ensures var ivs := Intervals(log);
      forall k :: 0 <= k < |ivs| && ivs[k].state.GapNull? ==>
        0 < k < |ivs| - 1 && !ivs[k - 1].state.GapNull? && !ivs[k + 1].state.GapNull? &&
        ivs[k].start == ivs[k - 1].end && ivs[k].end == ivs[k + 1].start && ivs[k].duration > GapThreshold
  {
    var samples := ReadAndFilter(Normalise(log.decoded, log.logStart, log.logStop));
    CollapseKeepsSignalStates(samples);
    GapsKeepOriginals(Runs(samples));
    var ivs := Intervals(log);
    forall k | 0 <= k < |ivs| && ivs[k].state.GapNull?
      ensures 0 < k < |ivs| - 1 && !ivs[k - 1].state.GapNull? && !ivs[k + 1].state.GapNull? &&
        ivs[k].start == ivs[k - 1].end && ivs[k].end == ivs[k + 1].start && ivs[k].duration > GapThreshold
    {
      GapRowShape(Runs(samples), k);
    }
  }

  /** The intervals of a batch of logs, one log after the other. */
  function AllIntervals(logs: seq<Log>): seq<Interval> {
    if logs == [] then [] else AllIntervals(logs[..|logs| - 1]) + Intervals(logs[|logs| - 1])
  }

  function Flatten(tables: seq<seq<Counted>>): seq<Counted> {
    if tables == [] then [] else Flatten(tables[..|tables| - 1]) + tables[|tables| - 1]
  }

  /** The body of the loop over logs in `main`, lines 111-149 without the I/O. */
  method SummariseLog(log: Log, previousCycleCount: int) returns (summary: seq<Counted>, nextCycleCount: int)
    ensures summary == Shift(Stamped(Intervals(log)), previousCycleCount)
    ensures nextCycleCount == previousCycleCount + CountTriggers(Intervals(log))
  {
    var df := Normalise(log.decoded, log.logStart, log.logStop);
    var filteredDf := ReadAndFilter(df);
    var resultDf := AddTimeColumns(filteredDf);
    var withOffTimes := AddOffTimePeriods(resultDf);
    var counted := AddCycleCount(withOffTimes);
    summary := Shift(counted, previousCycleCount);
    assert withOffTimes == Intervals(log);
    nextCycleCount := MaxCycle(summary);
    NextOffset(Intervals(log), previousCycleCount);
  }

  /** The loop over logs in `main`: the running total starts at 0 (line 99) and
      each log's counts are shifted by the total of the logs before it. The
      concatenated summaries are exactly the counts of all the logs' intervals
      taken as one table. */
  method SummariseBatch(logs: seq<Log>) returns (summaries: seq<seq<Counted>>, total: int)
    ensures |summaries| == |logs|
    ensures forall f :: 0 <= f < |logs| ==>
      summaries[f] == Shift(Stamped(Intervals(logs[f])), CountTriggers(AllIntervals(logs[..f])))
    ensures Flatten(summaries) == Stamped(AllIntervals(logs))
    ensures total == CountTriggers(AllIntervals(logs))
  {
    var previousCycleCount := 0;
    summaries := [];
    assert logs[..0] == [];
    for f := 0 to |logs|
      invariant Batched(logs, f, summaries, previousCycleCount)
    {
      var summary, next := SummariseLog(logs[f], previousCycleCount);
      BatchStep(logs, f, summaries, summary, previousCycleCount);
      summaries := summaries + [summary];
      previousCycleCount := next;
    }
    BatchDone(logs, summaries, previousCycleCount);
    total := previousCycleCount;
  }

  /** The invariant of the batch loop after `f` logs. */
  ghost predicate Batched(logs: seq<Log>, f: nat, summaries: seq<seq<Counted>>, previousCycleCount: int) {
    f <= |logs| && |summaries| == f &&
    ShiftedByTotals(logs, summaries) &&
    Flatten(summaries) == Stamped(AllIntervals(logs[..f])) &&
    previousCycleCount == CountTriggers(AllIntervals(logs[..f]))
  }

  lemma BatchDone(logs: seq<Log>, summaries: seq<seq<Counted>>, previousCycleCount: int)
    requires Batched(logs, |logs|, summaries, previousCycleCount)
    ensures |summaries| == |logs|
    ensures forall f :: 0 <= f < |logs| ==>
      summaries[f] == Shift(Stamped(Intervals(logs[f])), CountTriggers(AllIntervals(logs[..f])))
    ensures Flatten(summaries) == Stamped(AllIntervals(logs))
    ensures previousCycleCount == CountTriggers(AllIntervals(logs))
  {
    assert logs[..|logs|] == logs;
  }

  lemma AllIntervalsSnoc(logs: seq<Log>, f: nat)
    requires f < |logs|
    ensures AllIntervals(logs[..f + 1]) == AllIntervals(logs[..f]) + Intervals(logs[f])
  {
    assert logs[..f + 1][..f] == logs[..f];
  }

  lemma FlattenSnoc(tables: seq<seq<Counted>>, table: seq<Counted>)
    ensures Flatten(tables + [table]) == Flatten(tables) + table
  {
    assert (tables + [table])[..|tables|] == tables;
  }

  /** Every log's counts shifted by the total of the logs before it. */
  ghost predicate ShiftedByTotals(logs: seq<Log>, summaries: seq<seq<Counted>>)
    requires |summaries| <= |logs|
  {
    forall g :: 0 <= g < |summaries| ==>
      summaries[g] == Shift(Stamped(Intervals(logs[g])), CountTriggers(AllIntervals(logs[..g])))
  }

  /** One turn of the batch loop keeps its invariant. */
  lemma BatchStep(logs: seq<Log>, f: nat, summaries: seq<seq<Counted>>, summary: seq<Counted>, previousCycleCount: int)
    requires f < |logs| && Batched(logs, f, summaries, previousCycleCount)
    requires summary == Shift(Stamped(Intervals(logs[f])), previousCycleCount)
    ensures Batched(logs, f + 1, summaries + [summary], previousCycleCount + CountTriggers(Intervals(logs[f])))
  {
    AllIntervalsSnoc(logs, f);
    ShiftedStep(logs, f, summaries, summary);
    FlattenStep(AllIntervals(logs[..f]), Intervals(logs[f]), summaries, summary);
    CountTriggersAppend(AllIntervals(logs[..f]), Intervals(logs[f]));
  }

  lemma ShiftedStep(logs: seq<Log>, f: nat, summaries: seq<seq<Counted>>, summary: seq<Counted>)
    requires f < |logs| && |summaries| == f && ShiftedByTotals(logs, summaries)
    requires summary == Shift(Stamped(Intervals(logs[f])), CountTriggers(AllIntervals(logs[..f])))
    ensures ShiftedByTotals(logs, summaries + [summary])
  {
    var grown := summaries + [summary];
    forall g | 0 <= g <= f
      ensures grown[g] == Shift(Stamped(Intervals(logs[g])), CountTriggers(AllIntervals(logs[..g])))
    {
      if g < f { assert grown[g] == summaries[g]; }
    }
  }

  lemma FlattenStep(before: seq<Interval>, current: seq<Interval>, summaries: seq<seq<Counted>>, summary: seq<Counted>)
    requires Flatten(summaries) == Stamped(before)
    requires summary == Shift(Stamped(current), CountTriggers(before))
    ensures Flatten(summaries + [summary]) == Stamped(before + current)
  {
    BatchContinuity(before, current);
    FlattenSnoc(summaries, summary);
  }

  /** The shape of one log's summary: non-empty, well formed and ordered, no two
      neighbours more than 2 s apart, beginning at the first decoded row and
      ending with the zero-length NaN terminal row at the log length. */
  lemma LogShape(log: Log)
    requires log.logStart <= log.logStop
    requires Bracketed(log.decoded, log.logStart, log.logStop)
    ensures var ivs := Intervals(log);
      |ivs| > 0 && Ordered(ivs) && Abutting(ivs) &&
      ivs[0].start == (if log.decoded == [] then log.logStop else log.decoded[0].stamp) - log.logStart &&
      ivs[|ivs| - 1] == Interval(log.logStop - log.logStart, log.logStop - log.logStart, 0, Absent, Missing)
  {
    var samples := ReadAndFilter(Normalise(log.decoded, log.logStart, log.logStop));
    NormaliseOrdered(log.decoded, log.logStart, log.logStop);
    CollapseOrdered(samples);
    AbsentNeverMerged(samples);
    GapsOrdered(Runs(samples));
    GapsAbut(Runs(samples));
    GapsEnds(Runs(samples));
  }

  /** The label table of lines 147-149. */
  const StateLabels: map<int, string> := map[
    0 := "NULL", 1 := "1: NmWait", 2 := "2: OldKL30Wait", 3 := "3: PreDrive",
    4 := "4: DriveDown", 5 := "5: DriveUp", 6 := "6: PostRun", 7 := "7: Off",
    8 := "8: Error", 9 := "9: Flash", 10 := "10: LowVolt", 11 := "11", 12 := "12",
    13 := "13", 14 := "14", 15 := "15"]

  /** `Series.map` with the label table: codes outside it, NaN and 'Null' become NaN. */
  function Label(s: State): (shown: Option<string>)
    ensures shown.Some? <==> s.Code? && 0 <= s.code <= 15
  {
    if s.Code? && s.code in StateLabels then Some(StateLabels[s.code]) else None
  }

  /** No two codes share a label, so the labelled column still tells the states apart. */
  lemma LabelsDistinct(a: State, b: State)
    requires Label(a).Some? && Label(a) == Label(b)
    ensures a == b
  {
  }
}
