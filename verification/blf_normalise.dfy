/**
 * Normalisation of a decoded log (BLFSummary.py:126-129) and the pass-through
 * `read_and_filter` (BLFSummary.py:13-27).
 */
module BlfNormalise {
  import opened BlfModel

  /** A decoded state: a code, or NaN where the signal has no value. The string
      'Null' is written only by the off-time stage (BLFSummary.py:58). */
  type SignalState = s: State | !s.GapNull? witness Absent

  /** A decoded row: the bus time stamp in microseconds since the epoch and the two signals. */
  datatype Decoded = Decoded(stamp: int, state: SignalState, voltage: Voltage)

  /** Re-base every time to the log start and append the terminal row at the log
      stop, whose state and voltage are NaN. */
  function Normalise(decoded: seq<Decoded>, logStart: int, logStop: int): (df: seq<Sample>)
    ensures |df| == |decoded| + 1
    ensures forall i :: 0 <= i < |decoded| ==>
      df[i].time + logStart == decoded[i].stamp &&
      df[i].state == decoded[i].state && df[i].voltage == decoded[i].voltage
    ensures df[|decoded|] == Sample(logStop - logStart, Absent, Missing)
    ensures forall i :: 0 <= i < |df| ==> !df[i].state.GapNull?
  {
    seq(|decoded|, i requires 0 <= i < |decoded| =>
      Sample(decoded[i].stamp - logStart, decoded[i].state, decoded[i].voltage))
    + [Sample(logStop - logStart, Absent, Missing)]
  }

  /** Bus time stamps in order and inside the log's start/stop bracket. */
  predicate Bracketed(decoded: seq<Decoded>, logStart: int, logStop: int) {
    (forall i, j :: 0 <= i < j < |decoded| ==> decoded[i].stamp <= decoded[j].stamp) &&
    (forall i :: 0 <= i < |decoded| ==> logStart <= decoded[i].stamp <= logStop)
  }

  /** A bracketed log normalises to time-ordered rows between 0 and the log length,
      the last of them the NaN terminal row. */
  lemma NormaliseOrdered(decoded: seq<Decoded>, logStart: int, logStop: int)
    requires Bracketed(decoded, logStart, logStop) && logStart <= logStop
    ensures TimesSorted(Normalise(decoded, logStart, logStop))
    ensures forall i :: 0 <= i < |decoded| + 1 ==> 0 <= Normalise(decoded, logStart, logStop)[i].time <= logStop - logStart
  {
    var df := Normalise(decoded, logStart, logStop);
    forall i, j | 0 <= i < j < |df| ensures df[i].time <= df[j].time {
      if j < |decoded| {
        assert decoded[i].stamp <= decoded[j].stamp;
      } else {
        assert decoded[i].stamp <= logStop;
      }
    }
  }

  /** `read_and_filter`: the three filters it builds (lines 22-24) are all discarded
      at line 25, so every row comes back, in order, under the new column names. */
  function ReadAndFilter(df: seq<Sample>): (filtered: seq<Sample>)
    ensures |filtered| == |df|
    ensures forall i :: 0 <= i < |df| ==> filtered[i] == df[i]
  {
    df
  }
}
