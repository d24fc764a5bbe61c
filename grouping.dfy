/**
 * Summing record durations per key (a region, an activity) into a plain
 * object: a key without an entry starts at 0, and the keys come out in
 * first-seen order, as `Object.keys` lists them for string keys.
 */
module Grouping {
  import opened Seqs
  import opened Types

  /** The accumulator: sums per key, with the keys in insertion order. */
  datatype Totals = Totals(sums: map<string, int>, order: seq<string>)

  /** `if (!acc[k]) acc[k] = 0; acc[k] += v` (an entry that is 0 is reset to the same 0). */
  function Add(t: Totals, k: string, v: int): Totals
  {
    var previous := if k in t.sums then t.sums[k] else 0;
    Totals(t.sums[k := previous + v], if k in t.sums then t.order else t.order + [k])
  }

  /** The accumulator after adding every record's duration under its key. */
  function TotalsBy(records: seq<ActivityRecord>, key: ActivityRecord -> string): Totals
    decreases |records|
  {
    if records == [] then Totals(map[], [])
    else
      var last := records[|records| - 1];
      Add(TotalsBy(records[..|records| - 1], key), key(last), last.duration)
  }

  /** Sum of the durations of the records under key `k`. */
  function SumFor(records: seq<ActivityRecord>, key: ActivityRecord -> string, k: string): int
    decreases |records|
  {
    if records == [] then 0
    else
      var last := records[|records| - 1];
      SumFor(records[..|records| - 1], key, k) + (if key(last) == k then last.duration else 0)
  }

  ghost predicate Seen(records: seq<ActivityRecord>, key: ActivityRecord -> string, k: string)
  {
    exists i :: 0 <= i < |records| && key(records[i]) == k
  }

  lemma SeenSnoc(records: seq<ActivityRecord>, key: ActivityRecord -> string)
    requires records != []
    ensures forall k :: Seen(records, key, k) <==> Seen(records[..|records| - 1], key, k) || key(records[|records| - 1]) == k
  {
    var p := records[..|records| - 1];
    forall k ensures Seen(records, key, k) <==> Seen(p, key, k) || key(records[|records| - 1]) == k {
      if Seen(records, key, k) {
        var i :| 0 <= i < |records| && key(records[i]) == k;
        if i < |p| {
          assert p[i] == records[i];
        }
      }
      if Seen(p, key, k) {
        var i :| 0 <= i < |p| && key(p[i]) == k;
        assert records[i] == p[i];
      }
    }
  }

  /**
   * The accumulator has one entry per key some record carries, listed
   * once each in first-seen order, holding that key's summed duration.
   */
  lemma {:induction false} TotalsByMeaning(records: seq<ActivityRecord>, key: ActivityRecord -> string)
    ensures var t := TotalsBy(records, key);
      Distinct(t.order)
      && (forall k :: k in t.sums <==> k in t.order)
      && (forall k :: k in t.sums <==> Seen(records, key, k))
      && (forall k :: k in t.sums ==> t.sums[k] == SumFor(records, key, k))
    decreases |records|
  {
    if records != [] {
      var p := records[..|records| - 1];
      var last := key(records[|records| - 1]);
      TotalsByMeaning(p, key);
      SeenSnoc(records, key);
      var t := TotalsBy(p, key);
      if last !in t.sums {
        UnseenSumZero(p, key, last);
        var o := t.order + [last];
        forall i, j | 0 <= i < j < |o| ensures o[i] != o[j] {
          if j == |t.order| {
            assert o[i] == t.order[i];
          } else {
            assert o[i] == t.order[i] && o[j] == t.order[j];
          }
        }
      }
    }
  }

  lemma {:induction false} UnseenSumZero(records: seq<ActivityRecord>, key: ActivityRecord -> string, k: string)
    requires !Seen(records, key, k)
    ensures SumFor(records, key, k) == 0
    decreases |records|
  {
    if records != [] {
      var p := records[..|records| - 1];
      forall i | 0 <= i < |p| ensures key(p[i]) != k {
        assert p[i] == records[i];
      }
      UnseenSumZero(p, key, k);
    }
  }

  lemma {:induction false} SumForNonNegative(records: seq<ActivityRecord>, key: ActivityRecord -> string, k: string)
    requires forall i :: 0 <= i < |records| ==> records[i].duration >= 0
    ensures SumFor(records, key, k) >= 0
    decreases |records|
  {
    if records != [] {
      var p := records[..|records| - 1];
      assert forall i :: 0 <= i < |p| ==> p[i] == records[i];
      SumForNonNegative(p, key, k);
    }
  }

  /** The accumulator of a loop that skips the records failing `keep`. */
  function TotalsWhere(records: seq<ActivityRecord>, keep: ActivityRecord -> bool, key: ActivityRecord -> string): Totals
    decreases |records|
  {
    if records == [] then Totals(map[], [])
    else
      var last := records[|records| - 1];
      var t := TotalsWhere(records[..|records| - 1], keep, key);
      if keep(last) then Add(t, key(last), last.duration) else t
  }

  /** Skipping inside the loop is summing the filtered records. */
  lemma {:induction false} TotalsWhereIsFiltered(records: seq<ActivityRecord>, keep: ActivityRecord -> bool, key: ActivityRecord -> string)
    ensures TotalsWhere(records, keep, key) == TotalsBy(Filter(records, keep), key)
    decreases |records|
  {
    if records != [] {
      var p := records[..|records| - 1];
      var last := records[|records| - 1];
      TotalsWhereIsFiltered(p, keep, key);
      assert records == p + [last];
      FilterAppend(p, [last], keep);
      var f := Filter(p, keep);
      if keep(last) {
        assert Filter([last], keep) == [last];
        assert (f + [last])[..|f|] == f;
      } else {
        assert Filter([last], keep) == [];
        assert f + [] == f;
      }
    }
  }

  /** A record's duration in hours. */
  function RecordHours(r: ActivityRecord): real
  {
    r.duration as real / 3600.0
  }

  /** Hours of the records whose `key` is `k`, each record converted on its own as the loops do. */
  function HoursFor(records: seq<ActivityRecord>, key: ActivityRecord -> string, k: string): real
    decreases |records|
  {
    if records == [] then 0.0
    else
      var last := records[|records| - 1];
      HoursFor(records[..|records| - 1], key, k) + (if key(last) == k then RecordHours(last) else 0.0)
  }

  /** Converting each record to hours and summing is converting the summed seconds. */
  lemma {:induction false} HoursForIsSum(records: seq<ActivityRecord>, key: ActivityRecord -> string, k: string)
    ensures HoursFor(records, key, k) == SumFor(records, key, k) as real / 3600.0
    decreases |records|
  {
    if records != [] {
      HoursForIsSum(records[..|records| - 1], key, k);
    }
  }
}
