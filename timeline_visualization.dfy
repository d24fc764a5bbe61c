/**
 * The timeline player: the visible time window of a day, the records
 * active at the current time, the clock step with wrap-around, the frame
 * throttle of the animation loop and the employee picker's list.
 */
module TimelineVisualization {
  import opened Wrappers
  import opened Seqs
  import opened Strs
  import opened Types
  import opened DataProcessing

  const TIME_MARGIN: int := 300

  datatype TimeRange = TimeRange(start: int, end: int)

  function MinStart(activities: seq<ActivityRecord>): (m: int)
    requires activities != []
    ensures forall k :: 0 <= k < |activities| ==> m <= activities[k].startTime
    ensures exists k :: 0 <= k < |activities| && m == activities[k].startTime
    decreases |activities|
  {
    if |activities| == 1 then activities[0].startTime
    else
      var rest := MinStart(activities[1..]);
      assert forall k :: 1 <= k < |activities| ==> activities[k] == activities[1..][k - 1];
      if activities[0].startTime <= rest then activities[0].startTime else rest
  }

  function MaxEnd(activities: seq<ActivityRecord>): (m: int)
    requires activities != []
    ensures forall k :: 0 <= k < |activities| ==> activities[k].endTime <= m
    ensures exists k :: 0 <= k < |activities| && m == activities[k].endTime
    decreases |activities|
  {
    if |activities| == 1 then activities[0].endTime
    else
      var rest := MaxEnd(activities[1..]);
      assert forall k :: 1 <= k < |activities| ==> activities[k] == activities[1..][k - 1];
      if activities[0].endTime >= rest then activities[0].endTime else rest
  }

  function Max(a: int, b: int): int { if a >= b then a else b }
  function Min(a: int, b: int): int { if a <= b then a else b }

  /** `getTimeRange`: the whole day without activities, else their span widened by five minutes and clipped to the day. */
  function GetTimeRange(activities: seq<ActivityRecord>): TimeRange
  {
    if activities == [] then TimeRange(0, SECONDS_PER_DAY)
    else TimeRange(Max(0, MinStart(activities) - TIME_MARGIN), Min(SECONDS_PER_DAY, MaxEnd(activities) + TIME_MARGIN))
  }

  /**
   * The window stays within the day, and every activity whose times lie
   * within the day is inside it: its start no earlier than the window's
   * start, its end no later than the window's end, with five minutes to
   * spare where the day allows.
   */
  lemma TimeRangeCovers(activities: seq<ActivityRecord>)
    requires forall k :: 0 <= k < |activities| ==> 0 <= activities[k].startTime <= activities[k].endTime <= SECONDS_PER_DAY
    ensures var range := GetTimeRange(activities);
      0 <= range.start < range.end <= SECONDS_PER_DAY
      && forall k :: 0 <= k < |activities| ==>
           range.start <= activities[k].startTime && activities[k].endTime <= range.end
           && (range.start > 0 ==> range.start + TIME_MARGIN <= activities[k].startTime)
           && (range.end < SECONDS_PER_DAY ==> activities[k].endTime + TIME_MARGIN <= range.end)
  {
    if activities != [] {
      var a := activities[0];
      assert MinStart(activities) <= a.startTime <= a.endTime <= MaxEnd(activities);
    }
  }

  /** The records the time window is computed from: the selected date's visible records. */
  function DayRecords(data: seq<ActivityRecord>, selectedDate: Option<int>, hidden: set<string>): seq<ActivityRecord>
  {
    Filter(data, (r: ActivityRecord) => selectedDate == Some(r.date) && r.activity !in hidden)
  }

  /**
   * The player's state. `selectedDate` is `None` for the `""` of no
   * selected dates; `selectedEmployee` is `None` for `null`.
   */
  datatype TimelineState = TimelineState(currentTime: real, isPlaying: bool, speed: real, selectedDate: Option<int>, selectedEmployee: Option<string>)

  /** `!selectedEmployee || selectedEmployee === 'all'`: no employee filter. */
  predicate AllEmployees(selected: Option<string>)
  {
    selected.None? || selected.value == "" || selected.value == ALL_EMPLOYEES
  }

  function IsCurrent(state: TimelineState, hidden: set<string>): ActivityRecord -> bool
  {
    (r: ActivityRecord) =>
      state.selectedDate == Some(r.date)
      && r.startTime as real <= state.currentTime
      && r.endTime as real >= state.currentTime
      && r.activity !in hidden
      && (AllEmployees(state.selectedEmployee) || r.id == state.selectedEmployee.value)
  }

  /** `getCurrentActivities`. */
  function CurrentActivities(data: seq<ActivityRecord>, state: TimelineState, hidden: set<string>): seq<ActivityRecord>
  {
    Filter(data, IsCurrent(state, hidden))
  }

  /**
   * A record is current iff it is on the selected date, spans the current
   * time (both ends inclusive), is not hidden and belongs to the selected
   * employee unless none or `all` is selected; the current records are
   * among the day's records, so within the time window.
   */
  lemma CurrentMeaning(data: seq<ActivityRecord>, state: TimelineState, hidden: set<string>, r: ActivityRecord)
    ensures r in CurrentActivities(data, state, hidden) <==>
      r in data
      && state.selectedDate == Some(r.date)
      && r.startTime as real <= state.currentTime <= r.endTime as real
      && r.activity !in hidden
      && (AllEmployees(state.selectedEmployee) || r.id == state.selectedEmployee.value)
    ensures r in CurrentActivities(data, state, hidden) ==> r in DayRecords(data, state.selectedDate, hidden)
  {
  }

  /** `updateTime`: advance by `speed / 60` seconds, back to the window's start on reaching its end. */
  function UpdateTime(state: TimelineState, range: TimeRange): (next: TimelineState)
    ensures next == state.(currentTime := next.currentTime)
  {
    var newTime := state.currentTime + state.speed / 60.0;
    if newTime >= range.end as real then state.(currentTime := range.start as real)
    else state.(currentTime := newTime)
  }

  /** With a non-negative speed, a clock inside the window stays inside it: it moves forward or wraps to the start. */
  lemma UpdateTimeStaysInWindow(state: TimelineState, range: TimeRange)
    requires range.start as real <= state.currentTime < range.end as real
    requires state.speed >= 0.0
    ensures range.start as real <= UpdateTime(state, range).currentTime < range.end as real
    ensures UpdateTime(state, range).currentTime == state.currentTime + state.speed / 60.0
      || UpdateTime(state, range).currentTime == range.start as real
  {
  }

  /** The throttle's decision for one animation frame: whether to step, and the new reference timestamp. */
  function Throttle(lastTimestamp: Option<real>, timestamp: real): (r: (bool, Option<real>))
  {
    var last := if lastTimestamp.None? || lastTimestamp.value == 0.0 then timestamp else lastTimestamp.value;
    if timestamp - last >= FRAME_INTERVAL then (true, Some(timestamp)) else (false, Some(last))
  }

  /** The `animate` closure's state: the `lastTimestamp` it captures (`None` while `undefined`). */
  class FrameThrottle {
    var lastTimestamp: Option<real>

    constructor ()
      ensures lastTimestamp.None?
    {
      lastTimestamp := None;
    }

    /**
     * One call of `animate`: adopt the first timestamp as the reference,
     * then step (and move the reference) once a frame interval has passed.
     */
    method Animate(timestamp: real) returns (stepped: bool)
      modifies this
      ensures (stepped, lastTimestamp) == Throttle(old(lastTimestamp), timestamp)
      ensures stepped ==> lastTimestamp == Some(timestamp)
    {
      if lastTimestamp.None? || lastTimestamp.value == 0.0 {
        lastTimestamp := Some(timestamp);
      }
      var elapsed := timestamp - lastTimestamp.value;
      stepped := false;
      if elapsed >= FRAME_INTERVAL {
        stepped := true;
        lastTimestamp := Some(timestamp);
      }
    }
  }

  /** The timestamps at which a run of frames steps the clock, and the reference left afterwards. */
  function StepTimes(last: Option<real>, frames: seq<real>): (r: (seq<real>, Option<real>))
    decreases |frames|
  {
    if frames == [] then ([], last)
    else
      var t := Throttle(last, frames[0]);
      var rest := StepTimes(t.1, frames[1..]);
      (if t.0 then [frames[0]] + rest.0 else rest.0, rest.1)
  }

  /**
   * With positive frame timestamps, steps are at least a frame interval
   * apart, and the first comes at least a frame interval after the
   * reference (the first frame's timestamp when there is none).
   */
  lemma {:induction false} StepsAreSpaced(last: Option<real>, frames: seq<real>)
    requires last.Some? ==> last.value > 0.0
    requires forall i :: 0 <= i < |frames| ==> frames[i] > 0.0
    ensures var steps := StepTimes(last, frames).0;
      (forall i :: 0 <= i < |steps| - 1 ==> steps[i + 1] - steps[i] >= FRAME_INTERVAL)
      && (|steps| > 0 ==> steps[0] - (if last.None? then frames[0] else last.value) >= FRAME_INTERVAL)
    decreases |frames|
  {
    if frames != [] {
      var t := Throttle(last, frames[0]);
      var rest := frames[1..];
      assert forall i :: 0 <= i < |rest| ==> rest[i] == frames[i + 1];
      StepsAreSpaced(t.1, rest);
      var steps := StepTimes(last, frames).0;
      var later := StepTimes(t.1, rest).0;
      if t.0 {
        assert steps == [frames[0]] + later;
        assert forall i :: 1 <= i < |steps| ==> steps[i] == later[i - 1];
      }
    }
  }

  /** `uniqueEmployees`: the distinct record ids, sorted. */
  function UniqueEmployees(data: seq<ActivityRecord>): seq<string>
  {
    SortStrings(Dedup(Column(data, IdOf)))
  }

  /** The employee list is sorted, repeat-free, and holds exactly the ids of the records. */
  lemma UniqueEmployeesMeaning(data: seq<ActivityRecord>)
    ensures SortedStrings(UniqueEmployees(data))
    ensures Distinct(UniqueEmployees(data))
    ensures forall id :: id in UniqueEmployees(data) <==> exists k :: 0 <= k < |data| && data[k].id == id
  {
    var d := Dedup(Column(data, IdOf));
    DedupDistinct(Column(data, IdOf));
    DistinctByMultiset(d, UniqueEmployees(data));
    forall id ensures id in UniqueEmployees(data) <==> id in d {
      assert id in UniqueEmployees(data) <==> id in multiset(UniqueEmployees(data));
      assert id in d <==> id in multiset(d);
    }
    ColumnMembers(data, IdOf);
  }
}
