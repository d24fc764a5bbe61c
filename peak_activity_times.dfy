/**
 * The peak-times line chart: 24 hourly buckets, each with the hours of the
 * visible records that start in that hour, in total and per activity.
 */
module PeakActivityTimes {
  import opened Wrappers
  import opened Seqs
  import opened Strs
  import opened Types
  import opened Grouping
  import opened DataProcessing

  const HOURS_PER_DAY: nat := 24

  /** `Math.floor(startTime / 3600) % 24`; Dafny's `/` by a positive divisor rounds down. */
  function StartHour(r: ActivityRecord): int
  {
    JsRem(r.startTime / 3600, HOURS_PER_DAY)
  }

  /**
   * Some visible record starts in a negative bucket, where `hours[startHour]`
   * is `undefined` and the update throws.
   */
  predicate HourOutOfRange(data: seq<ActivityRecord>, hidden: set<string>)
  {
    exists k :: 0 <= k < |data| && data[k].activity !in hidden && StartHour(data[k]) < 0
  }

  datatype HourBucket = HourBucket(hour: nat, total: real, activities: map<string, real>)

  /** One record into its bucket: the total and the activity's entry (started at 0) grow by its hours. */
  function AddToBucket(b: HourBucket, r: ActivityRecord): HourBucket
  {
    var previous := if r.activity in b.activities then b.activities[r.activity] else 0.0;
    b.(total := b.total + RecordHours(r), activities := b.activities[r.activity := previous + RecordHours(r)])
  }

  function InitialBuckets(): (b: seq<HourBucket>)
    ensures |b| == HOURS_PER_DAY
  {
    seq(HOURS_PER_DAY, i requires 0 <= i < HOURS_PER_DAY => HourBucket(i, 0.0, map[]))
  }

  /** The 24 buckets after the records `data`; a record in no bucket is passed over. */
  function BucketsOf(data: seq<ActivityRecord>, hidden: set<string>): (b: seq<HourBucket>)
    ensures |b| == HOURS_PER_DAY
    decreases |data|
  {
    if data == [] then InitialBuckets()
    else
      var b := BucketsOf(data[..|data| - 1], hidden);
      var r := data[|data| - 1];
      var h := StartHour(r);
      if r.activity in hidden || h < 0 then b else b[h := AddToBucket(b[h], r)]
  }

  datatype HourlyPoint = HourlyPoint(hour: string, total: real, activities: map<string, real>)

  /** `HH:00`. */
  function HourLabel(h: nat): string
  {
    PadStart(NatToString(h), 2, '0') + ":00"
  }

  function PointsOf(b: seq<HourBucket>): seq<HourlyPoint>
  {
    seq(|b|, h requires 0 <= h < |b| => HourlyPoint(HourLabel(b[h].hour), b[h].total, b[h].activities))
  }

  /**
   * `hourlyData`: an array of 24 zeroed buckets updated in place, one
   * visible record at a time, then labelled.
   */
  method HourlyData(data: seq<ActivityRecord>, hidden: set<string>) returns (result: Option<seq<HourlyPoint>>)
    ensures result.None? <==> HourOutOfRange(data, hidden)
    ensures result.Some? ==> result.value == PointsOf(BucketsOf(data, hidden))
  {
    var hours := new HourBucket[HOURS_PER_DAY](i => HourBucket(i, 0.0, map[]));
    assert hours[..] == InitialBuckets();
    var i := 0;
    while i < |data|
      invariant 0 <= i <= |data|
      invariant hours[..] == BucketsOf(data[..i], hidden)
      invariant forall k :: 0 <= k < i && data[k].activity !in hidden ==> StartHour(data[k]) >= 0
    {
      var record := data[i];
      assert data[..i + 1][..i] == data[..i];
      if record.activity !in hidden {
        var h := StartHour(record);
        if h < 0 {
          return None;
        }
        hours[h] := AddToBucket(hours[h], record);
      }
      i := i + 1;
    }
    assert data[..|data|] == data;
    result := Some(PointsOf(hours[..]));
  }

  /** The records that the bucket of hour `h` receives. */
  function InHour(hidden: set<string>, h: int): ActivityRecord -> bool
  {
    (r: ActivityRecord) => r.activity !in hidden && StartHour(r) == h
  }

  /** A single bucket filled from a list of records. */
  function BucketOf(records: seq<ActivityRecord>, h: nat): HourBucket
    decreases |records|
  {
    if records == [] then HourBucket(h, 0.0, map[])
    else AddToBucket(BucketOf(records[..|records| - 1], h), records[|records| - 1])
  }

  /** Bucket `h` of the 24 is the bucket filled from the visible records starting in hour `h`. */
  lemma {:induction false} BucketsArePerHour(data: seq<ActivityRecord>, hidden: set<string>, h: nat)
    requires h < HOURS_PER_DAY
    ensures BucketsOf(data, hidden)[h] == BucketOf(Filter(data, InHour(hidden, h)), h)
    decreases |data|
  {
    if data != [] {
      var p := data[..|data| - 1];
      var r := data[|data| - 1];
      BucketsArePerHour(p, hidden, h);
      BucketsStep(data, hidden, h);
      assert data == p + [r];
      FilterAppend(p, [r], InHour(hidden, h));
      var f := Filter(p, InHour(hidden, h));
      if InHour(hidden, h)(r) {
        assert Filter([r], InHour(hidden, h)) == [r];
        assert (f + [r])[..|f|] == f;
      } else {
        assert Filter([r], InHour(hidden, h)) == [];
        assert f + [] == f;
      }
    }
  }

  /** The last record changes bucket `h` only when it is visible and starts in hour `h`. */
  lemma BucketsStep(data: seq<ActivityRecord>, hidden: set<string>, h: nat)
    requires data != [] && h < HOURS_PER_DAY
    ensures var b := BucketsOf(data[..|data| - 1], hidden)[h];
      BucketsOf(data, hidden)[h] == if InHour(hidden, h)(data[|data| - 1]) then AddToBucket(b, data[|data| - 1]) else b
  {
  }

  /** A bucket's activities are those of its records, and each entry holds that activity's hours. */
  lemma {:induction false} BucketActivities(records: seq<ActivityRecord>, h: nat)
    ensures BucketOf(records, h).hour == h
    ensures BucketOf(records, h).total == SumReal(records, RecordHours)
    ensures forall a :: a in BucketOf(records, h).activities <==> a in Column(records, ActivityOf)
    ensures forall a :: a in BucketOf(records, h).activities ==> BucketOf(records, h).activities[a] == HoursFor(records, ActivityOf, a)
    decreases |records|
  {
    if records != [] {
      var p := records[..|records| - 1];
      BucketActivities(p, h);
      var c := Column(records, ActivityOf);
      assert c == Column(p, ActivityOf) + [records[|records| - 1].activity];
      var last := records[|records| - 1].activity;
      if last !in BucketOf(p, h).activities {
        UnseenActivityHasNoHours(p, last);
      }
    }
  }

  lemma {:induction false} UnseenActivityHasNoHours(records: seq<ActivityRecord>, a: string)
    requires a !in Column(records, ActivityOf)
    ensures HoursFor(records, ActivityOf, a) == 0.0
    decreases |records|
  {
    if records != [] {
      var p := records[..|records| - 1];
      assert Column(records, ActivityOf) == Column(p, ActivityOf) + [records[|records| - 1].activity];
      UnseenActivityHasNoHours(p, a);
    }
  }

  /** The activities of a record list, each once, in first-seen order. */
  function ActivitiesOf(records: seq<ActivityRecord>): seq<string>
  {
    Dedup(Column(records, ActivityOf))
  }

  /** A bucket's total is the sum of its per-activity subtotals. */
  lemma {:induction false} TotalIsSumOfSubtotals(records: seq<ActivityRecord>)
    ensures SumReal(records, RecordHours) == SumReal(ActivitiesOf(records), a => HoursFor(records, ActivityOf, a))
    decreases |records|
  {
    if records != [] {
      var p := records[..|records| - 1];
      var r := records[|records| - 1];
      TotalIsSumOfSubtotals(p);
      var d := ActivitiesOf(p);
      var f := a => HoursFor(p, ActivityOf, a);
      var g := a => HoursFor(records, ActivityOf, a);
      assert Column(records, ActivityOf) == Column(p, ActivityOf) + [r.activity];
      assert Column(records, ActivityOf)[..|p|] == Column(p, ActivityOf);
      assert forall a :: g(a) == f(a) + (if a == r.activity then RecordHours(r) else 0.0);
      DedupDistinct(Column(p, ActivityOf));
      if r.activity in d {
        SumRealBump(d, f, g, r.activity, RecordHours(r));
      } else {
        assert ActivitiesOf(records) == d + [r.activity];
        SumRealAgree(d, f, g);
        SumRealAppend(d, [r.activity], g);
        assert SumReal([r.activity], g) == g(r.activity) by {
          assert [r.activity][..0] == [];
        }
        UnseenActivityHasNoHours(p, r.activity);
      }
    }
  }

  /**
   * There are 24 points labelled `00:00` to `23:00`; point `h` holds the
   * hours of the visible records starting in hour `h`, in total and per
   * activity, and the total is the sum of the per-activity subtotals.
   */
  lemma HourlyDataMeaning(data: seq<ActivityRecord>, hidden: set<string>, h: nat)
    requires h < HOURS_PER_DAY
    ensures var points := PointsOf(BucketsOf(data, hidden));
      var records := Filter(data, InHour(hidden, h));
      |points| == HOURS_PER_DAY
      && points[h].hour == HourLabel(h)
      && points[h].total == SumReal(records, RecordHours)
      && points[h].total == SumReal(ActivitiesOf(records), a => HoursFor(records, ActivityOf, a))
      && (forall a :: a in points[h].activities <==> a in ActivitiesOf(records))
      && (forall a :: a in points[h].activities ==> points[h].activities[a] == HoursFor(records, ActivityOf, a))
  {
    var records := Filter(data, InHour(hidden, h));
    BucketsArePerHour(data, hidden, h);
    BucketActivities(records, h);
    TotalIsSumOfSubtotals(records);
  }

  /** Every label is the hour's tens digit, its units digit, then `:00`. */
  lemma HourLabelShape(h: nat)
    requires h < HOURS_PER_DAY
    ensures HourLabel(h) == [DigitChar(h / 10), DigitChar(h % 10)] + ":00"
  {
    if h < 10 {
      assert NatToString(h) == [DigitChar(h)];
      assert PadStart([DigitChar(h)], 2, '0') == ['0', DigitChar(h)];
      assert DigitChar(h / 10) == '0';
    } else {
      assert NatToString(h / 10) == [DigitChar(h / 10)];
      assert NatToString(h) == [DigitChar(h / 10), DigitChar(h % 10)];
    }
  }
}
