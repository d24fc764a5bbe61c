/**
 * Calendar helpers over day numbers (day 0 is 1 January 1970, a
 * Thursday): weekends, the next business day, grouping of consecutive
 * dates across weekends, and the compact duration text used on labels.
 */
module DateUtils {
  import opened Seqs
  import opened Strs

  /** `getDay()`: 0 is Sunday, 6 is Saturday. */
  function Weekday(day: int): (w: int)
    ensures 0 <= w < 7
  {
    (day + 4) % 7
  }

  predicate IsWeekend(day: int)
  {
    Weekday(day) == 0 || Weekday(day) == 6
  }

  lemma WeekdayNext(day: int)
    ensures Weekday(day + 1) == if Weekday(day) == 6 then 0 else Weekday(day) + 1
  {
  }

  /** Of three consecutive days at least one is a working day. */
  lemma NoThreeWeekendDays(day: int)
    ensures !(IsWeekend(day) && IsWeekend(day + 1) && IsWeekend(day + 2))
  {
    WeekdayNext(day);
    WeekdayNext(day + 1);
  }

  /** `getNextBusinessDay`: step forward one day, then keep stepping while on a weekend. */
  method GetNextBusinessDay(day: int) returns (next: int)
    ensures day < next <= day + 3
    ensures !IsWeekend(next)
    ensures forall k :: day < k < next ==> IsWeekend(k)
  {
    next := day + 1;
    while IsWeekend(next)
      invariant day < next <= day + 3
      invariant forall k :: day < k < next ==> IsWeekend(k)
      decreases day + 3 - next
    {
      if next == day + 3 {
        NoThreeWeekendDays(day + 1);
        assert false;
      }
      next := next + 1;
    }
  }

  datatype DateGroup = DateGroup(start: int, end: int)

  /** The rule that lets `current` extend the group ending at `previous`. */
  predicate Joins(previous: int, current: int)
  {
    var gap := current - previous;
    gap <= 1 || (gap <= 3 && IsWeekend(previous + 1))
  }

  /** The groups of a sorted, non-empty date list, built from the left one date at a time. */
  function GroupsOf(s: seq<int>): (g: seq<DateGroup>)
    requires |s| >= 1
    ensures |g| >= 1
    decreases |s|
  {
    if |s| == 1 then [DateGroup(s[0], s[0])]
    else
      var g := GroupsOf(s[..|s| - 1]);
      var last := s[|s| - 1];
      if Joins(s[|s| - 2], last) then g[..|g| - 1] + [g[|g| - 1].(end := last)]
      else g + [DateGroup(last, last)]
  }

  /** `groupContinuousDates`: sorts the dates and sweeps them once. */
  method GroupContinuousDates(dates: seq<int>) returns (groups: seq<DateGroup>)
    ensures |dates| == 0 ==> groups == []
    ensures |dates| == 1 ==> groups == [DateGroup(dates[0], dates[0])]
    ensures |dates| >= 1 ==> groups == GroupsOf(SortInts(dates))
  {
    if |dates| == 0 {
      return [];
    }
    if |dates| == 1 {
      return [DateGroup(dates[0], dates[0])];
    }
    var sorted := SortInts(dates);
    groups := Sweep(sorted);
  }

  /** The sweep over the sorted dates: the open group is stretched or closed at each date. */
  method Sweep(sorted: seq<int>) returns (groups: seq<DateGroup>)
    requires |sorted| >= 1
    ensures groups == GroupsOf(sorted)
  {
    groups := [];
    var current := DateGroup(sorted[0], sorted[0]);
    var i := 1;
    assert sorted[..1] == [sorted[0]];
    while i < |sorted|
      invariant 1 <= i <= |sorted|
      invariant groups + [current] == GroupsOf(sorted[..i])
    {
      var currentDate := sorted[i];
      var previousDate := sorted[i - 1];
      GroupsOfStep(sorted, i);
      ghost var g := groups + [current];
      assert g[..|g| - 1] == groups && g[|g| - 1] == current;
      if Joins(previousDate, currentDate) {
        current := current.(end := currentDate);
      } else {
        groups := groups + [current];
        current := DateGroup(currentDate, currentDate);
      }
      i := i + 1;
    }
    groups := groups + [current];
    assert sorted[..|sorted|] == sorted;
  }

  /** One more date either stretches the last group or opens a new one. */
  lemma GroupsOfStep(s: seq<int>, i: nat)
    requires 1 <= i < |s|
    ensures var g := GroupsOf(s[..i]);
      GroupsOf(s[..i + 1]) ==
        if Joins(s[i - 1], s[i]) then g[..|g| - 1] + [g[|g| - 1].(end := s[i])]
        else g + [DateGroup(s[i], s[i])]
  {
    assert s[..i + 1][..i] == s[..i];
  }

  /** The groups run from the first date to the last. */
  lemma {:induction false} GroupsOfEnds(s: seq<int>)
    requires |s| >= 1
    ensures GroupsOf(s)[0].start == s[0]
    ensures GroupsOf(s)[|GroupsOf(s)| - 1].end == s[|s| - 1]
    decreases |s|
  {
    if |s| > 1 {
      GroupsOfEnds(s[..|s| - 1]);
    }
  }

  /**
   * For sorted dates each group starts no later than it ends, and
   * consecutive groups are separated by a gap the joining rule refuses,
   * so group starts strictly increase.
   */
  lemma {:induction false} GroupsOfOrdered(s: seq<int>)
    requires |s| >= 1 && SortedInts(s)
    ensures var g := GroupsOf(s);
      (forall j :: 0 <= j < |g| ==> g[j].start <= g[j].end)
      && (forall j :: 0 <= j < |g| - 1 ==> !Joins(g[j].end, g[j + 1].start) && g[j].end + 1 < g[j + 1].start)
    decreases |s|
  {
    if |s| > 1 {
      var p := s[..|s| - 1];
      assert SortedInts(p);
      GroupsOfOrdered(p);
      GroupsOfEnds(p);
      assert s[|s| - 2] <= s[|s| - 1];
    }
  }

  /** The date `k` lies in group `j`. */
  predicate Covers(g: seq<DateGroup>, j: int, k: int)
  {
    0 <= j < |g| && g[j].start <= k <= g[j].end
  }

  ghost predicate InSomeGroup(g: seq<DateGroup>, date: int)
  {
    exists j :: Covers(g, j, date)
  }

  /** Every sorted date lies in some group. */
  lemma {:induction false} GroupsOfCover(s: seq<int>)
    requires |s| >= 1 && SortedInts(s)
    ensures forall k :: 0 <= k < |s| ==> InSomeGroup(GroupsOf(s), s[k])
    decreases |s|
  {
    var r := GroupsOf(s);
    if |s| == 1 {
      forall k | 0 <= k < |s| ensures InSomeGroup(r, s[k]) {
        assert r[0] == DateGroup(s[0], s[0]);
        assert Covers(r, 0, s[k]);
      }
    } else {
      var p := s[..|s| - 1];
      assert SortedInts(p);
      GroupsOfCover(p);
      GroupsOfOrdered(s);
      GroupsOfEnds(s);
      var g := GroupsOf(p);
      forall k | 0 <= k < |s| ensures InSomeGroup(r, s[k]) {
        if k == |s| - 1 {
          assert Covers(r, |r| - 1, s[k]);
        } else {
          assert s[k] == p[k];
          assert InSomeGroup(g, p[k]);
          var j :| Covers(g, j, p[k]);
          if j < |g| - 1 {
            assert r[j] == g[j];
          } else {
            assert r[j].start == g[j].start && r[j].end >= g[j].end;
          }
          assert Covers(r, j, s[k]);
        }
      }
    }
  }

  datatype DurationParts = DurationParts(hours: nat, minutes: nat, seconds: nat)

  /** Whole hours, the minutes within the hour, and the seconds within the minute. */
  function Parts(seconds: nat): (p: DurationParts)
    ensures p.minutes < 60 && p.seconds < 60
    ensures p.hours * 3600 + p.minutes * 60 + p.seconds == seconds
  {
    DurationParts(seconds / 3600, (seconds % 3600) / 60, seconds % 60)
  }

  /**
   * `formatDuration` over whole seconds: under a minute `Ssec`; under an
   * hour `Mmin Ssec` (or `Mmin`); from an hour `Hh Mmin` (or `Hh`).
   */
  function FormatDuration(seconds: int): string
  {
    if seconds < 60 then IntToString(seconds) + "sec"
    else
      var p := Parts(seconds);
      if p.hours == 0 then
        if p.seconds > 0 then NatToString(p.minutes) + "min " + NatToString(p.seconds) + "sec"
        else NatToString(p.minutes) + "min"
      else if p.minutes > 0 then NatToString(p.hours) + "h " + NatToString(p.minutes) + "min"
      else NatToString(p.hours) + "h"
  }

  /** From one hour up the seconds are dropped: durations in the same minute read alike. */
  lemma FormatDurationDropsSeconds(seconds: int)
    requires seconds >= 3600
    ensures FormatDuration(seconds) == FormatDuration(seconds - seconds % 60)
  {
    var t := seconds - seconds % 60;
    assert t / 3600 == seconds / 3600 && (t % 3600) / 60 == (seconds % 3600) / 60;
  }

  /** Below an hour no second is lost: the minute and second counts recombine to the input. */
  lemma FormatDurationBelowHour(seconds: int)
    requires 60 <= seconds < 3600
    ensures Parts(seconds).hours == 0
    ensures Parts(seconds).minutes * 60 + Parts(seconds).seconds == seconds
    ensures Parts(seconds).seconds > 0 ==>
      FormatDuration(seconds) == NatToString(Parts(seconds).minutes) + "min " + NatToString(Parts(seconds).seconds) + "sec"
    ensures Parts(seconds).seconds == 0 ==> FormatDuration(seconds) == NatToString(Parts(seconds).minutes) + "min"
  {
  }

  lemma FormatDurationExamples()
    ensures FormatDuration(45) == "45sec"
    ensures FormatDuration(90) == "1min 30sec"
    ensures FormatDuration(3600) == "1h"
    ensures FormatDuration(3725) == "1h 2min"
  {
    assert NatToString(45) == "45" by { assert NatToString(4) == "4"; }
    assert NatToString(30) == "30" by { assert NatToString(3) == "3"; }
    assert Parts(90) == DurationParts(0, 1, 30);
    assert Parts(3600) == DurationParts(1, 0, 0);
    assert Parts(3725) == DurationParts(1, 2, 5);
  }

  function FormatDateGroup(group: DateGroup, formatDate: int -> string): string
  {
    if group.start == group.end then formatDate(group.start)
    else formatDate(group.start) + " - " + formatDate(group.end)
  }

  function JoinWithComma(parts: seq<string>): (r: string)
    ensures |parts| >= 1 && parts[0] != "" ==> r != ""
  {
    if parts == [] then ""
    else if |parts| == 1 then parts[0]
    else parts[0] + ", " + JoinWithComma(parts[1..])
  }

  /** The pieces a comma-joined list splits into at `,`: the first part, then each later part after its space. */
  function CommaPieces(parts: seq<string>): (r: seq<string>)
    ensures |r| == |parts|
  {
    if parts == [] then [] else [parts[0]] + seq(|parts| - 1, i requires 0 <= i < |parts| - 1 => " " + parts[i + 1])
  }

  /**
   * When no part contains a comma, splitting the `', '`-joined text at
   * commas gives the parts back, each later one behind its space.
   */
  lemma {:induction false} JoinWithCommaSplits(parts: seq<string>)
    requires |parts| >= 1
    requires forall k :: 0 <= k < |parts| ==> ',' !in parts[k]
    ensures Split(JoinWithComma(parts), ',') == CommaPieces(parts)
  {
    if |parts| == 1 {
      SplitWithoutSeparator(parts[0], ',');
    } else {
      var tail := parts[1..];
      var x := JoinWithComma(tail);
      JoinWithCommaSplits(tail);
      assert JoinWithComma(parts) == parts[0] + [','] + ([' '] + x);
      SplitAt(parts[0], [' '] + x, ',');
      SplitCons(' ', x, ',');
      assert Split([' '] + x, ',') == CommaPieces(parts)[1..];
    }
  }

  /**
   * `formatDateRange`: the empty set gives the empty text; otherwise the
   * runs of consecutive days of the sorted dates, each formatted as one
   * day or as `start - end`, joined by `, `. The locale date format is a
   * parameter.
   */
  method FormatDateRange(dates: seq<int>, formatDate: int -> string) returns (text: string)
    ensures |dates| == 0 ==> text == ""
    ensures |dates| >= 1 ==> text == JoinWithComma(FormatGroups(GroupsOf(SortInts(dates)), formatDate))
    ensures |dates| >= 1 && (forall d :: formatDate(d) != "") ==> text != ""
  {
    if |dates| == 0 {
      return "";
    }
    var groups := GroupContinuousDates(dates);
    text := JoinWithComma(FormatGroups(groups, formatDate));
  }

  /** `groups.map(formatDateGroup)`: one text per group, in group order. */
  function FormatGroups(groups: seq<DateGroup>, formatDate: int -> string): (r: seq<string>)
    ensures |r| == |groups|
    ensures forall i :: 0 <= i < |groups| ==> r[i] == FormatDateGroup(groups[i], formatDate)
  {
    seq(|groups|, i requires 0 <= i < |groups| => FormatDateGroup(groups[i], formatDate))
  }
}
