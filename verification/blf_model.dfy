/**
 * Entities of the bus-log summary (BLFSummary.py).
 *
 * Times are integer microseconds: the pipeline rounds every re-based time to
 * six decimals (BLFSummary.py:126), so microseconds represent it exactly and
 * the thresholds 2 s and 800 s become exact integer constants.
 */
module BlfModel {

  const MicrosPerSecond: int := 1_000_000

  /** Two rows further apart than this get an off-time row between them (BLFSummary.py:54). */
  const GapThreshold: int := 2 * MicrosPerSecond

  /** A row in this state lasting longer than CycleThreshold is one cycle (BLFSummary.py:69). */
  const CycleState: int := 5
  const CycleThreshold: int := 800 * MicrosPerSecond

  /** The SystemState column: a decoded code, the NaN of the terminal row, or the
      string 'Null' that an off-time row carries. */
  datatype State = Code(code: int) | Absent | GapNull

  /** The SupplyVoltage column, carried along and never computed with. */
  datatype Voltage = Reading(volts: real) | Missing | NullMarker

  /** pandas `==` on the state column: value equality, except that NaN equals nothing,
      not even itself. */
  predicate SameState(a: State, b: State) {
    a == b && !a.Absent?
  }

  /** A row after normalisation: 'Start Time', 'SystemState_xdu8', 'SupplyVoltage_xdu16'. */
  datatype Sample = Sample(time: int, state: State, voltage: Voltage)

  /** A row once 'End Time' and 'Duration' exist (BLFSummary.py:30-31). */
  datatype Interval = Interval(start: int, end: int, duration: int, state: State, voltage: Voltage)

  /** A row with its 'Cycle Count' column (BLFSummary.py:71). */
  datatype Counted = Counted(interval: Interval, cycle: int)

  /** Start Times non-decreasing: the order the decoder delivers and the code relies on. */
  predicate TimesSorted(s: seq<Sample>) {
    forall i, j :: 0 <= i < j < |s| ==> s[i].time <= s[j].time
  }

  /** Duration agrees with the two ends, and the interval does not run backwards. */
  predicate WellFormed(iv: Interval) {
    iv.duration == iv.end - iv.start && iv.start <= iv.end
  }

  /** No row carries the 'Null' state of an off-time row. */
  predicate NoGapRows(xs: seq<Interval>) {
    forall k :: 0 <= k < |xs| ==> !xs[k].state.GapNull?
  }

  /** Every interval well formed, and each one ends no later than the next one starts. */
  predicate Ordered(ivs: seq<Interval>) {
    (forall k :: 0 <= k < |ivs| ==> WellFormed(ivs[k])) &&
    (forall k :: 0 <= k < |ivs| - 1 ==> ivs[k].end <= ivs[k + 1].start)
  }
}
