/** The scheduler: a loop that wakes once a minute and, at 10:00, sends the
    daily reminder, preceded on report days by the monthly report. Its only
    state is the moment it last sent, kept in memory. The model covers one
    wake at a time and runs of wakes; the sleeping is left to the caller. */
module Scheduling {
  import opened Common
  import opened Records
  import opened Packs
  import opened Notifications

  /** A clock reading as the scheduler looks at it. */
  datatype DateTime = DateTime(year: int, month: int, day: int, hour: int, minute: int)

  datatype Date = Date(year: int, month: int, day: int)

  function DateOf(t: DateTime): Date {
    Date(t.year, t.month, t.day)
  }

  /** `a` is an earlier calendar date than `b`. */
  predicate DateBefore(a: Date, b: Date) {
    || a.year < b.year
    || (a.year == b.year && a.month < b.month)
    || (a.year == b.year && a.month == b.month && a.day < b.day)
  }

  const ReportHour: int := 10

  /** `is_monthly_report_day`: the 28th in February, the 30th in any month. */
  predicate IsMonthlyReportDay(t: DateTime) {
    (t.month == 2 && t.day == 28) || t.day == 30
  }

  predicate IsLeapYear(y: int) {
    y % 4 == 0 && (y % 100 != 0 || y % 400 == 0)
  }

  /** The Gregorian length of a month, 1 = January. */
  function DaysInMonth(year: int, month: int): (n: int)
    requires 1 <= month <= 12
    ensures 28 <= n <= 31
  {
    if month == 2 then (if IsLeapYear(year) then 29 else 28)
    else if month in {4, 6, 9, 11} then 30
    else 31
  }

  /** Across a real calendar the rule fires exactly once a month: on February
      28th (never on the 29th of a leap year), and on the 30th of every other
      month (never on the 31st). */
  lemma ReportDaysOfMonth(year: int, month: int)
    requires 1 <= month <= 12
    ensures (set d | 1 <= d <= DaysInMonth(year, month) && IsMonthlyReportDay(DateTime(year, month, d, 0, 0)))
         == if month == 2 then {28} else {30}
  {
    var days := set d | 1 <= d <= DaysInMonth(year, month) && IsMonthlyReportDay(DateTime(year, month, d, 0, 0));
    var expected: set<int> := if month == 2 then {28} else {30};
    assert month != 2 ==> DaysInMonth(year, month) >= 30;
    forall d ensures d in days <==> d in expected {
      if d in expected {
        assert IsMonthlyReportDay(DateTime(year, month, d, 0, 0));
      }
    }
    assert days == expected;
  }

  lemma ReportDayExamples(y: int)
    ensures IsMonthlyReportDay(DateTime(y, 4, 30, 10, 0))
    ensures !IsMonthlyReportDay(DateTime(y, 4, 29, 10, 0))
    ensures !IsMonthlyReportDay(DateTime(y, 5, 1, 10, 0))
    ensures IsMonthlyReportDay(DateTime(y, 2, 28, 10, 0))
    ensures !IsMonthlyReportDay(DateTime(y, 2, 27, 10, 0))
  {
  }

  /** What one wake does. */
  datatype Action = Idle | Reminders | ReportAndReminders

  /** The decision of one wake of `schedule_tasks`, given when it last sent. */
  function Decide(lastReportSent: Option<DateTime>, now: DateTime): (a: Action)
    ensures a != Idle <==>
      && now.hour == ReportHour && now.minute == 0
      && !(lastReportSent.Some? && DateOf(lastReportSent.value) == DateOf(now))
    ensures a == ReportAndReminders <==> a != Idle && IsMonthlyReportDay(now)
  {
    var due := now.hour == ReportHour && now.minute == 0
      && (lastReportSent.None? || DateOf(lastReportSent.value) != DateOf(now));
    if IsMonthlyReportDay(now) && due then ReportAndReminders
    else if due then Reminders
    else Idle
  }

  /** `last_report_sent` after a wake: the wake's time whenever it sent. */
  function After(lastReportSent: Option<DateTime>, now: DateTime): Option<DateTime> {
    if Decide(lastReportSent, now) == Idle then lastReportSent else Some(now)
  }

  /** The loop of `schedule_tasks`, one wake per call. */
  class Scheduler {
    var lastReportSent: Option<DateTime>

    constructor ()
      ensures lastReportSent == None
    {
      lastReportSent := None;
    }

    /** One wake at clock reading `now` (also given as the timestamp `clock`).
        Returns what it decided, the monthly report it sent (None when none
        was due or no administrator is configured) and the names of the
        reminder it sent (None when none went out). `delivered` says whether
        the messaging gateway accepted the reminder. */
    method Wake(now: DateTime, clock: Timestamp, store: LedgerStore, adminConfigured: bool, delivered: bool)
      returns (action: Action, report: Option<MonthlyReport>, reminder: Option<seq<string>>)
      requires store.Valid()
      modifies this
      ensures action == Decide(old(lastReportSent), now)
      ensures lastReportSent == After(old(lastReportSent), now)
      ensures report.Some? <==> action == ReportAndReminders && adminConfigured
      ensures report.Some? ==>
        var l := Loaded(store.doc, clock);
        report.value == MonthlyReport(|l.vals|, TotalSessions(l), ThresholdClients(l), ZeroClients(l), NewClients(l, clock))
      ensures reminder.Some? <==> action != Idle && adminConfigured && ThresholdClients(Loaded(store.doc, clock)) != []
      ensures reminder.Some? ==> reminder.value == ThresholdClients(Loaded(store.doc, clock))
    {
      action := Decide(lastReportSent, now);
      report, reminder := None, None;
      if action == ReportAndReminders {
        if adminConfigured {
          var data := store.LoadData(clock);
          report := SendMonthlyReport(adminConfigured, data, clock);
        }
        var data := store.LoadData(clock);
        var sent;
        reminder, sent := SendReminders(data, adminConfigured, delivered);
        lastReportSent := Some(now);
      } else if action == Reminders {
        var data := store.LoadData(clock);
        var sent;
        reminder, sent := SendReminders(data, adminConfigured, delivered);
        lastReportSent := Some(now);
      }
    }
  }

  /** The dates on which a run of wakes sent something, in order. */
  function Fired(lastReportSent: Option<DateTime>, wakes: seq<DateTime>): seq<Date>
    decreases |wakes|
  {
    if wakes == [] then []
    else if Decide(lastReportSent, wakes[0]) == Idle then Fired(lastReportSent, wakes[1..])
    else [DateOf(wakes[0])] + Fired(Some(wakes[0]), wakes[1..])
  }

  /** The wakes come in clock order: no later wake has an earlier date. */
  ghost predicate Chronological(wakes: seq<DateTime>) {
    forall i, j :: 0 <= i < j < |wakes| ==> !DateBefore(DateOf(wakes[j]), DateOf(wakes[i]))
  }

  /** No wake is dated before the last send. */
  ghost predicate NotBefore(lastReportSent: Option<DateTime>, wakes: seq<DateTime>) {
    lastReportSent.Some? ==>
      forall i :: 0 <= i < |wakes| ==> !DateBefore(DateOf(wakes[i]), DateOf(lastReportSent.value))
  }

  /** With a clock that does not go back, the scheduler sends on strictly
      increasing dates, so at most once per calendar date, and every send
      after the recorded one falls on a later date. */
  lemma {:induction false} AtMostOncePerDate(lastReportSent: Option<DateTime>, wakes: seq<DateTime>)
    requires Chronological(wakes) && NotBefore(lastReportSent, wakes)
    ensures forall i, j :: 0 <= i < j < |Fired(lastReportSent, wakes)| ==>
      DateBefore(Fired(lastReportSent, wakes)[i], Fired(lastReportSent, wakes)[j])
    ensures lastReportSent.Some? ==>
      forall i :: 0 <= i < |Fired(lastReportSent, wakes)| ==>
        DateBefore(DateOf(lastReportSent.value), Fired(lastReportSent, wakes)[i])
    decreases |wakes|
  {
    if wakes != [] {
      var w, rest := wakes[0], wakes[1..];
      assert Chronological(rest) by {
        forall i, j | 0 <= i < j < |rest| ensures !DateBefore(DateOf(rest[j]), DateOf(rest[i])) {
          assert rest[i] == wakes[i + 1] && rest[j] == wakes[j + 1];
        }
      }
      if Decide(lastReportSent, w) == Idle {
        assert NotBefore(lastReportSent, rest) by {
          forall i | 0 <= i < |rest| ensures lastReportSent.Some? ==> !DateBefore(DateOf(rest[i]), DateOf(lastReportSent.value)) {
            assert rest[i] == wakes[i + 1];
          }
        }
        AtMostOncePerDate(lastReportSent, rest);
      } else {
        assert NotBefore(Some(w), rest) by {
          forall i | 0 <= i < |rest| ensures !DateBefore(DateOf(rest[i]), DateOf(w)) {
            assert rest[i] == wakes[i + 1];
          }
        }
        AtMostOncePerDate(Some(w), rest);
        var later := Fired(Some(w), rest);
        assert Fired(lastReportSent, wakes) == [DateOf(w)] + later;
        if lastReportSent.Some? {
          assert !DateBefore(DateOf(w), DateOf(lastReportSent.value));
          assert DateOf(w) != DateOf(lastReportSent.value);
        }
      }
    }
  }

  /** Two sends never share a date. */
  lemma OncePerDate(lastReportSent: Option<DateTime>, wakes: seq<DateTime>)
    requires Chronological(wakes) && NotBefore(lastReportSent, wakes)
    ensures forall i, j :: 0 <= i < j < |Fired(lastReportSent, wakes)| ==>
      Fired(lastReportSent, wakes)[i] != Fired(lastReportSent, wakes)[j]
  {
    AtMostOncePerDate(lastReportSent, wakes);
  }

  /** The rule matches only the minute 10:00 itself: wakes at 9:59 and 10:01
      of the same day send nothing that day. */
  lemma MissedMinuteSkipsDay(y: int, m: int, d: int)
    ensures Fired(None, [DateTime(y, m, d, 9, 59), DateTime(y, m, d, 10, 1)]) == []
  {
    var wakes := [DateTime(y, m, d, 9, 59), DateTime(y, m, d, 10, 1)];
    assert Decide(None, wakes[0]) == Idle;
    assert Decide(None, wakes[1]) == Idle;
    assert wakes[1..][0] == wakes[1] && wakes[1..][1..] == [];
    assert Fired(None, wakes[1..]) == Fired(None, wakes[1..][1..]);
  }
}
