/** The "Recent Captures" part of `generate_readme`: the days sorted newest first, the first seven of them, and one
    line of text per day appended to the report. */
module Report {
  import Text
  import opened Summarize

  /** How many days the report lists. */
  const RecentDayCount: nat := 7

  /** Each day's date is at least the date of every day after it (Python string order on the `date` keys). */
  predicate NewestFirst(days: seq<DaySummary>) {
    forall i, j :: 0 <= i < j < |days| ==> Text.AtMost(days[j].date, days[i].date)
  }

  /** No day occurs more than once. */
  ghost predicate NoRepeats(days: seq<DaySummary>) {
    forall d :: multiset(days)[d] <= 1
  }

  /** Prepending a day whose date is at least every other date keeps the list newest first. */
  lemma PrependNewest(d: DaySummary, s: seq<DaySummary>)
    requires NewestFirst(s)
    requires forall k :: 0 <= k < |s| ==> Text.AtMost(s[k].date, d.date)
    ensures NewestFirst([d] + s)
  {
    var r := [d] + s;
    forall i, j | 0 <= i < j < |r| ensures Text.AtMost(r[j].date, r[i].date) {
      if i > 0 {
        assert r[i] == s[i - 1] && r[j] == s[j - 1];
      } else {
        assert r[j] == s[j - 1];
      }
    }
  }

  /** A day whose date is at least the head's is at least every date of a newest-first list. */
  lemma AboveHead(d: DaySummary, s: seq<DaySummary>)
    requires NewestFirst(s) && s != []
    requires Text.AtMost(s[0].date, d.date)
    ensures forall k :: 0 <= k < |s| ==> Text.AtMost(s[k].date, d.date)
  {
    forall k | 0 <= k < |s| ensures Text.AtMost(s[k].date, d.date) {
      if k > 0 {
        Text.AtMostTransitive(s[k].date, s[0].date, d.date);
      }
    }
  }

  /** Inserts a day into a newest-first list, before the first day whose date is not later than its own; so the
      inserted day goes ahead of days with the same date. */
  function InsertNewestFirst(d: DaySummary, s: seq<DaySummary>): (r: seq<DaySummary>)
    requires NewestFirst(s)
    ensures multiset(r) == multiset(s) + multiset{d}
    ensures NewestFirst(r)
    decreases |s|
  {
    if s == [] then [d]
    else if Text.AtMost(s[0].date, d.date) then
      AboveHead(d, s);
      PrependNewest(d, s);
      [d] + s
    else
      var rest := InsertNewestFirst(d, s[1..]);
      InsertedBelowHead(d, s, rest);
      [s[0]] + rest
  }

  /** A day not newer than the head of a newest-first list, inserted into its tail, leaves the head in front. */
  lemma InsertedBelowHead(d: DaySummary, s: seq<DaySummary>, rest: seq<DaySummary>)
    requires NewestFirst(s) && s != [] && !Text.AtMost(s[0].date, d.date)
    requires NewestFirst(rest) && multiset(rest) == multiset(s[1..]) + multiset{d}
    ensures NewestFirst([s[0]] + rest)
    ensures multiset([s[0]] + rest) == multiset(s) + multiset{d}
  {
    assert s == [s[0]] + s[1..];
    Text.AtMostTotal(s[0].date, d.date);
    forall k | 0 <= k < |rest| ensures Text.AtMost(rest[k].date, s[0].date) {
      assert rest[k] in multiset(rest);
      if rest[k] != d {
        assert rest[k] in multiset(s[1..]);
        var j :| 0 <= j < |s[1..]| && s[1..][j] == rest[k];
        assert s[j + 1] == rest[k];
      }
    }
    PrependNewest(s[0], rest);
  }

  /** `sorted(days, key=lambda x: x['date'], reverse=True)`: the same days, newest first. Each day is inserted ahead
      of the later days with its date, so days with equal dates keep their input order, as Python's stable sort does. */
  function SortNewestFirst(days: seq<DaySummary>): (r: seq<DaySummary>)
    ensures multiset(r) == multiset(days)
    ensures NewestFirst(r)
    decreases |days|
  {
    if days == [] then []
    else
      assert days == [days[0]] + days[1..];
      InsertNewestFirst(days[0], SortNewestFirst(days[1..]))
  }

  /** `sorted(...)[:7]`. */
  function RecentDays(days: seq<DaySummary>): seq<DaySummary> {
    var sorted := SortNewestFirst(days);
    if |sorted| <= RecentDayCount then sorted else sorted[..RecentDayCount]
  }

  /** The recent days are at most seven, newest first, all taken from the summary's days, and no day the list leaves
      out is newer than a day it shows. */
  lemma RecentDaysAreNewest(days: seq<DaySummary>)
    ensures |RecentDays(days)| == if |days| <= RecentDayCount then |days| else RecentDayCount
    ensures NewestFirst(RecentDays(days))
    ensures multiset(RecentDays(days)) <= multiset(days)
    ensures forall d :: d in RecentDays(days) ==> d in days
    ensures forall k, d :: 0 <= k < |RecentDays(days)| && d in multiset(days) - multiset(RecentDays(days)) ==>
      Text.AtMost(d.date, RecentDays(days)[k].date)
  {
    var sorted := SortNewestFirst(days);
    var r := RecentDays(days);
    var m := |r|;
    assert r == sorted[..m];
    assert sorted == r + sorted[m..];
    assert multiset(days) == multiset(r) + multiset(sorted[m..]);
    forall d | d in r ensures d in days {
      assert multiset(r)[d] > 0;
      assert multiset(days)[d] > 0;
    }
    forall k, d | 0 <= k < m && d in multiset(days) - multiset(r) ensures Text.AtMost(d.date, r[k].date) {
      OmittedNotNewer(sorted, m, k, d);
    }
  }

  /** In a newest-first list, no day after position `m` is newer than a day before it. */
  lemma OmittedNotNewer(sorted: seq<DaySummary>, m: nat, k: nat, d: DaySummary)
    requires NewestFirst(sorted)
    requires k < m <= |sorted|
    requires d in multiset(sorted[m..])
    ensures Text.AtMost(d.date, sorted[k].date)
  {
    var tail := sorted[m..];
    assert d in tail;
    var j :| 0 <= j < |tail| && tail[j] == d;
    assert sorted[m + j] == d;
  }

  /** When the summary lists each day once, so does the report. */
  lemma RecentDaysNoRepeats(days: seq<DaySummary>)
    requires NoRepeats(days)
    ensures NoRepeats(RecentDays(days))
  {
    RecentDaysAreNewest(days);
    forall d ensures multiset(RecentDays(days))[d] <= 1 {
      assert multiset(RecentDays(days))[d] <= multiset(days)[d];
    }
  }

  /** The report line of one day. */
  function DayLine(day: DaySummary): string {
    "- **" + day.date + "**: " + Text.Decimal(day.captures) + " capture(s), "
      + Text.Decimal(day.images) + " image(s)\n"
  }

  /** The report lines of the given days, in order. */
  function DayLines(days: seq<DaySummary>): string
    decreases |days|
  {
    if days == [] then "" else DayLines(days[..|days| - 1]) + DayLine(days[|days| - 1])
  }

  lemma DayLinesStep(days: seq<DaySummary>, i: nat)
    requires i < |days|
    ensures DayLines(days[..i + 1]) == DayLines(days[..i]) + DayLine(days[i])
  {
    assert days[..i + 1][..i] == days[..i];
  }

  /** The body of the loop at lines 193-194: appends to `content` one line per day, in order. */
  method AppendDayLines(content: string, days: seq<DaySummary>) returns (text: string)
    ensures text == content + DayLines(days)
  {
    text := content;
    var i := 0;
    while i < |days|
      invariant 0 <= i <= |days|
      invariant text == content + DayLines(days[..i])
    {
      DayLinesStep(days, i);
      text := text + DayLine(days[i]);
      i := i + 1;
    }
    assert days[..i] == days;
  }

  /** The loop at lines 193-194: appends to `content` one line per recent day, newest first. */
  method AppendRecentDays(content: string, summary: Summary) returns (text: string)
    ensures text == content + DayLines(RecentDays(summary.days))
  {
    text := AppendDayLines(content, RecentDays(summary.days));
  }
}
