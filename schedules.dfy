/** The two schedule kinds a feed source can run on (cmsplugin_rss_import/models.py):
    a fixed interval given as a frequency and a unit, and a crontab given
    by four cron fields. Covers the interval's conversion to seconds, its
    validation against the rows already stored, and both text summaries. */
module Schedules {
  import opened Wrappers
  import Text

  /** The units offered for an interval (PERIOD_CHOICES). */
  const PeriodChoices: seq<string> := ["seconds", "minutes", "hours", "days", "weeks"]

  /** An interval schedule; `pk` is None until the row is saved. The unit is a
      free string column: the choices are enforced by forms, not here. */
  datatype IntervalSchedule = IntervalSchedule(pk: Option<nat>, frequency: int, period: string)

  /** A crontab schedule with its four editable cron fields. */
  datatype CrontabSchedule = CrontabSchedule(pk: Option<nat>, minute: string, hour: string, dayOfWeek: string, day: string)

  // ---------------------------------------------------------------------------
  // get_period_in_seconds
  // ---------------------------------------------------------------------------

  function Multiplier(period: string): int {
    if period == "minutes" then 60
    else if period == "hours" then 60 * 60
    else if period == "days" then 60 * 60 * 24
    else if period == "weeks" then 60 * 60 * 24 * 7
    else 1
  }

  /** The interval's length in seconds; a unit outside the choices counts as
      seconds. */
  function PeriodInSeconds(i: IntervalSchedule): (r: int)
    ensures i.period == "seconds" ==> r == i.frequency
    ensures i.period == "minutes" ==> r == i.frequency * 60
    ensures i.period == "hours" ==> r == i.frequency * 3600
    ensures i.period == "days" ==> r == i.frequency * 86400
    ensures i.period == "weeks" ==> r == i.frequency * 604800
    ensures i.period !in PeriodChoices ==> r == i.frequency
  {
    i.frequency * Multiplier(i.period)
  }

  /** Of two intervals with the same frequency, the one in a larger unit is
      at least as long, for any positive frequency. */
  lemma PeriodInSecondsMonotone(f: int, p: nat, q: nat)
    requires f >= 1 && p <= q < |PeriodChoices|
    ensures PeriodInSeconds(IntervalSchedule(None, f, PeriodChoices[p]))
         <= PeriodInSeconds(IntervalSchedule(None, f, PeriodChoices[q]))
  {
    var m := [1, 60, 3600, 86400, 604800];
    forall k | 0 <= k < 5 ensures Multiplier(PeriodChoices[k]) == m[k] {}
    assert m[p] <= m[q];
    assert f * m[p] <= f * m[q] by {
      assert f * m[q] - f * m[p] == f * (m[q] - m[p]);
    }
  }

  // ---------------------------------------------------------------------------
  // IntervalSchedule.clean
  // ---------------------------------------------------------------------------

  datatype IntervalError =
    | FrequencyNotPositive   // 'The frequency must be equal or greater than 1'
    | IntervalExists         // 'This interval already exists'

  /** The stored rows with this frequency and unit, in query order. */
  function SameInterval(rows: seq<IntervalSchedule>, frequency: int, period: string): (r: seq<IntervalSchedule>)
    ensures forall x :: x in r <==> x in rows && x.frequency == frequency && x.period == period
    ensures |r| <= |rows|
  {
    if rows == [] then []
    else
      (if rows[0].frequency == frequency && rows[0].period == period then [rows[0]] else [])
      + SameInterval(rows[1..], frequency, period)
  }

  /** `IntervalSchedule.clean` against the rows already stored: the frequency
      must be positive, and the manager's `get` for the same frequency and
      unit must either find nothing or find this very row. */
  function CleanInterval(i: IntervalSchedule, rows: seq<IntervalSchedule>): (r: Outcome<IntervalError>)
    ensures r == Fail(FrequencyNotPositive) <==> i.frequency <= 0
  {
    if i.frequency <= 0 then Fail(FrequencyNotPositive)
    else
      var found := SameInterval(rows, i.frequency, i.period);
      if |found| > 1 then Fail(IntervalExists)                      // MultipleObjectsReturned
      else if |found| == 1 && found[0].pk != i.pk then Fail(IntervalExists)
      else Pass
  }

  /** Two stored rows with the same frequency and unit as `i`. */
  predicate Duplicated(i: IntervalSchedule, rows: seq<IntervalSchedule>) {
    exists j, k :: 0 <= j < k < |rows|
      && rows[j].frequency == rows[k].frequency == i.frequency
      && rows[j].period == rows[k].period == i.period
  }

  /** Every stored row with the same frequency and unit is this one. */
  predicate OnlySelf(i: IntervalSchedule, rows: seq<IntervalSchedule>) {
    forall k :: 0 <= k < |rows| && rows[k].frequency == i.frequency && rows[k].period == i.period
      ==> rows[k].pk == i.pk
  }

  /** A stored row with the frequency and unit looked up. */
  predicate Same(x: IntervalSchedule, f: int, p: string) {
    x.frequency == f && x.period == p
  }

  /** Two matching stored rows appear in the lookup. */
  lemma {:induction false} SameIntervalFromTwo(rows: seq<IntervalSchedule>, f: int, p: string, j: nat, k: nat)
    requires j < k < |rows| && Same(rows[j], f, p) && Same(rows[k], f, p)
    ensures |SameInterval(rows, f, p)| >= 2
  {
    var tail := rows[1..];
    var rest := SameInterval(tail, f, p);
    assert SameInterval(rows, f, p) == (if Same(rows[0], f, p) then [rows[0]] else []) + rest;
    if j == 0 {
      assert tail[k - 1] in rest;
    } else {
      assert Same(tail[j - 1], f, p) && Same(tail[k - 1], f, p);
      SameIntervalFromTwo(tail, f, p, j - 1, k - 1);
    }
  }

  /** A lookup with two rows comes from two matching stored rows. */
  lemma {:induction false} SameIntervalToTwo(rows: seq<IntervalSchedule>, f: int, p: string)
    requires |SameInterval(rows, f, p)| >= 2
    ensures exists j, k :: 0 <= j < k < |rows| && Same(rows[j], f, p) && Same(rows[k], f, p)
  {
    var tail := rows[1..];
    var rest := SameInterval(tail, f, p);
    assert SameInterval(rows, f, p) == (if Same(rows[0], f, p) then [rows[0]] else []) + rest;
    if Same(rows[0], f, p) {
      var y := rest[0];
      assert y in tail;
      var k :| 0 <= k < |tail| && tail[k] == y;
      assert rows[k + 1] == y && Same(rows[0], f, p) && Same(rows[k + 1], f, p);
    } else {
      SameIntervalToTwo(tail, f, p);
      var j, k :| 0 <= j < k < |tail| && Same(tail[j], f, p) && Same(tail[k], f, p);
      assert rows[j + 1] == tail[j] && rows[k + 1] == tail[k];
    }
  }

  /** When the lookup finds exactly one row, that row is the only stored
      row that matches. */
  lemma {:induction false} SameIntervalOne(rows: seq<IntervalSchedule>, f: int, p: string)
    ensures |SameInterval(rows, f, p)| == 1 ==>
      exists j :: 0 <= j < |rows| && SameInterval(rows, f, p)[0] == rows[j]
        && forall k :: 0 <= k < |rows| && Same(rows[k], f, p) ==> k == j
  {
    if rows != [] {
      var tail := rows[1..];
      SameIntervalOne(tail, f, p);
      var rest := SameInterval(tail, f, p);
      var found := SameInterval(rows, f, p);
      assert found == (if Same(rows[0], f, p) then [rows[0]] else []) + rest;
      if |found| == 1 {
        if Same(rows[0], f, p) {
          forall k | 0 <= k < |rows| && Same(rows[k], f, p) ensures k == 0 {
          }
          assert found[0] == rows[0];
        } else {
          var j :| 0 <= j < |tail| && rest[0] == tail[j]
            && forall k :: 0 <= k < |tail| && Same(tail[k], f, p) ==> k == j;
          assert found[0] == rows[j + 1];
          forall k | 0 <= k < |rows| && Same(rows[k], f, p) ensures k == j + 1 {
            assert k != 0;
            assert tail[k - 1] == rows[k];
          }
        }
      }
    }
  }

  /** What the manager's `get` sees: more than one row exactly when two
      stored rows match, and exactly one row that is then the only match. */
  lemma SameIntervalCount(rows: seq<IntervalSchedule>, f: int, p: string)
    ensures |SameInterval(rows, f, p)| >= 2 <==>
      exists j, k :: 0 <= j < k < |rows| && rows[j].frequency == rows[k].frequency == f && rows[j].period == rows[k].period == p
    ensures |SameInterval(rows, f, p)| == 1 ==>
      exists j :: 0 <= j < |rows| && SameInterval(rows, f, p)[0] == rows[j]
        && forall k :: 0 <= k < |rows| && rows[k].frequency == f && rows[k].period == p ==> k == j
  {
    if |SameInterval(rows, f, p)| >= 2 {
      SameIntervalToTwo(rows, f, p);
    }
    if exists j, k :: 0 <= j < k < |rows| && Same(rows[j], f, p) && Same(rows[k], f, p) {
      var j, k :| 0 <= j < k < |rows| && Same(rows[j], f, p) && Same(rows[k], f, p);
      SameIntervalFromTwo(rows, f, p, j, k);
    }
    SameIntervalOne(rows, f, p);
  }

  /** The interval validates exactly when its frequency is positive, no two
      stored rows share its frequency and unit, and any stored row that does
      is the row being edited. */
  lemma CleanIntervalPasses(i: IntervalSchedule, rows: seq<IntervalSchedule>)
    ensures CleanInterval(i, rows) == Pass <==>
      i.frequency >= 1 && !Duplicated(i, rows) && OnlySelf(i, rows)
  {
    SameIntervalCount(rows, i.frequency, i.period);
    var found := SameInterval(rows, i.frequency, i.period);
    if i.frequency >= 1 && !Duplicated(i, rows) && !OnlySelf(i, rows) {
      var k :| 0 <= k < |rows| && rows[k].frequency == i.frequency && rows[k].period == i.period && rows[k].pk != i.pk;
      assert rows[k] in found;
    }
    if |found| == 1 && found[0].pk == i.pk {
      forall k | 0 <= k < |rows| && rows[k].frequency == i.frequency && rows[k].period == i.period
        ensures rows[k].pk == i.pk
      {}
    }
  }

  // ---------------------------------------------------------------------------
  // __unicode__ summaries
  // ---------------------------------------------------------------------------

  /** `IntervalSchedule.__unicode__`: "Every minute" for a frequency of one
      (the unit with its last letter cut), "Every 5 minutes" otherwise. */
  function IntervalSummary(i: IntervalSchedule): string {
    if i.frequency == 1 then "Every " + Text.Slice(i.period, 0, -1)
    else "Every " + Text.IntToString(i.frequency) + " " + i.period
  }

  /** Reads a summary back into a frequency and a unit, assuming the unit is
      plural so that the cut letter was an `s`. */
  function ParseIntervalSummary(s: string): Option<(int, string)> {
    var parts := Text.Split(s, ' ');
    if |parts| == 2 && parts[0] == "Every" then Some((1, parts[1] + "s"))
    else if |parts| == 3 && parts[0] == "Every" && IsIntText(parts[1]) then Some((Text.ParseInt(parts[1]), parts[2]))
    else None
  }

  predicate IsIntText(s: string) {
    |s| >= 1 && (s[0] == '-' ==> Text.IsDigits(s[1..])) && (s[0] != '-' ==> Text.IsDigits(s))
  }

  lemma IntTextHasNoSpace(n: int)
    ensures ' ' !in Text.IntToString(n)
  {
    var d := Text.NatToString(if n < 0 then -n else n);
    assert forall k :: 0 <= k < |d| ==> d[k] != ' ';
    if n < 0 {
      var s := Text.IntToString(n);
      assert s == "-" + d;
      forall k | 0 <= k < |s| ensures s[k] != ' ' {
        if k > 0 { assert s[k] == d[k - 1]; }
      }
    }
  }

  /** For every unit among the choices, the summary determines the schedule:
      reading it back gives the frequency and the unit. */
  lemma IntervalSummaryRoundTrip(i: IntervalSchedule)
    requires i.period in PeriodChoices
    ensures ParseIntervalSummary(IntervalSummary(i)) == Some((i.frequency, i.period))
  {
    assert ' ' !in i.period && |i.period| >= 1 && i.period[|i.period| - 1] == 's' by {
      var p := i.period;
      assert p == "seconds" || p == "minutes" || p == "hours" || p == "days" || p == "weeks";
    }
    if i.frequency == 1 {
      SingularRoundTrip(i.period);
    } else {
      PluralRoundTrip(i.frequency, i.period);
    }
  }

  lemma SingularRoundTrip(p: string)
    requires ' ' !in p && |p| >= 1 && p[|p| - 1] == 's'
    ensures ParseIntervalSummary(IntervalSummary(IntervalSchedule(None, 1, p))) == Some((1, p))
  {
    var cut := Text.Slice(p, 0, -1);
    assert cut == p[..|p| - 1];
    assert ' ' !in cut by {
      forall k | 0 <= k < |cut| ensures cut[k] != ' ' { assert cut[k] == p[k]; }
    }
    assert IntervalSummary(IntervalSchedule(None, 1, p)) == Text.Join(["Every", cut], ' ');
    Text.SplitJoin(["Every", cut], ' ');
    assert cut + "s" == p;
  }

  lemma PluralRoundTrip(f: int, p: string)
    requires ' ' !in p && f != 1
    ensures ParseIntervalSummary(IntervalSummary(IntervalSchedule(None, f, p))) == Some((f, p))
  {
    var n := Text.IntToString(f);
    PluralSplit(f, p);
    Text.IntToStringRoundTrip(f);
    assert IsIntText(n);
    assert Text.ParseInt(n) == f;
  }

  /** The plural summary splits into `Every`, the printed frequency and the
      unit. */
  lemma PluralSplit(f: int, p: string)
    requires ' ' !in p && f != 1
    ensures Text.Split(IntervalSummary(IntervalSchedule(None, f, p)), ' ') == ["Every", Text.IntToString(f), p]
  {
    var n := Text.IntToString(f);
    IntTextHasNoSpace(f);
    assert ["Every", n, p][1..] == [n, p] && [n, p][1..] == [p];
    assert Text.Join([n, p], ' ') == n + " " + p;
    var summary := IntervalSummary(IntervalSchedule(None, f, p));
    assert summary == Text.Join(["Every", n, p], ' ');
    var parts := ["Every", n, p];
    assert forall i :: 0 <= i < |parts| ==> ' ' !in parts[i];
    Text.SplitJoin(parts, ' ');
  }

  /** `CrontabSchedule.__unicode__`: minute, hour and day of month, a `*`
      for the month, the day of week, and a `*` for the year. */
  function CrontabSummary(c: CrontabSchedule): string {
    c.minute + " " + c.hour + " " + c.day + " * " + c.dayOfWeek + " *"
  }

  /** Splitting the summary on spaces gives the six cron columns back, when
      no field holds a space. */
  lemma CrontabSummaryColumns(c: CrontabSchedule)
    requires ' ' !in c.minute && ' ' !in c.hour && ' ' !in c.day && ' ' !in c.dayOfWeek
    ensures Text.Split(CrontabSummary(c), ' ') == [c.minute, c.hour, c.day, "*", c.dayOfWeek, "*"]
  {
    var cols := [c.minute, c.hour, c.day, "*", c.dayOfWeek, "*"];
    assert cols[1..][1..][1..][1..][1..] == ["*"];
    assert Text.Join(cols[1..][1..][1..][1..], ' ') == c.dayOfWeek + " *";
    assert Text.Join(cols[1..][1..][1..], ' ') == "* " + c.dayOfWeek + " *";
    assert Text.Join(cols[1..][1..], ' ') == c.day + " * " + c.dayOfWeek + " *";
    assert CrontabSummary(c) == Text.Join(cols, ' ');
    Text.SplitJoin(cols, ' ');
  }
}
