/** Renewal reminders: the daily batch and its per-day deduplication
    (internal/provisioning/handler.go, scheduler.go).
    Instants are nanoseconds and calendar days are UTC days. */
module Reminders {
  import opened Wrappers
  import opened Float64
  import opened Calendar

  datatype Service = Service(active: bool, expires: Option<nat>)

  /** A renewal_reminder_sent or renewal_reminder_failed row of audit_logs. */
  datatype Record = Record(service: nat, daysLeft: int, at: nat, sent: bool)

  /** How one service fares within a batch: the clock when its history is checked and
      when its record is written, and which of the three operations succeed. */
  datatype Attempt = Attempt(checkedAt: nat, checkOk: bool, sendOk: bool, writtenAt: nat, writeOk: bool)

  datatype Batch = Batch(now: nat, services: seq<Service>, attempts: nat -> Attempt)

  // ----- Days left -----

  /** Duration.Hours, in binary64. */
  function Hours(d: nat): real {
    ToDouble(ToDouble((d / HOUR) as real) + ToDouble(ToDouble((d % HOUR) as real) / 3600000000000.0))
  }

  function Ceil(x: real): int { -((-x).Floor) }

  function DaysUntil(future: int, now: int): int {
    if future - now <= 0 then 0 else Ceil(ToDouble(Hours(future - now) / 24.0))
  }

  function CeilDays(d: int): int { (d + DAY - 1) / DAY }

  predicate IsReminderDay(daysLeft: int) { daysLeft == 7 || daysLeft == 3 || daysLeft == 1 }

  // ----- The batch -----

  predicate Selected(s: Service, now: nat) {
    s.active && s.expires.Some? && now < s.expires.value <= now + 8 * DAY
  }

  predicate AlreadySent(log: seq<Record>, service: nat, daysLeft: int, date: nat) {
    exists i :: 0 <= i < |log| && log[i].sent && log[i].service == service
                && log[i].daysLeft == daysLeft && log[i].at / DAY == date
  }

  /** Whether a service gets a record in a batch, sent or failed. */
  predicate Records(log: seq<Record>, b: Batch, i: nat)
    requires i < |b.services|
  {
    var s, a := b.services[i], b.attempts(i);
    && Selected(s, b.now) && IsReminderDay(DaysUntil(s.expires.value, b.now))
    && a.checkOk && a.writeOk
    && !AlreadySent(log, i, DaysUntil(s.expires.value, b.now), a.checkedAt / DAY)
  }

  function RecordOf(b: Batch, i: nat): Record
    requires i < |b.services| && b.services[i].expires.Some?
  {
    var a := b.attempts(i);
    Record(i, DaysUntil(b.services[i].expires.value, b.now), a.writtenAt, a.sendOk)
  }

  /** The log once the first n services of the batch have been handled. */
  function Handled(log: seq<Record>, b: Batch, n: nat): seq<Record>
    requires n <= |b.services|
  {
    if n == 0 then log
    else
      var before := Handled(log, b, n - 1);
      if Records(before, b, n - 1) then before + [RecordOf(b, n - 1)] else before
  }

  function After(log: seq<Record>, b: Batch): seq<Record> { Handled(log, b, |b.services|) }

  /** The batch reports an error, and is retried, when some service failed. */
  predicate Fails(log: seq<Record>, b: Batch, i: nat)
    requires i < |b.services|
  {
    var s, a := b.services[i], b.attempts(i);
    && Selected(s, b.now) && IsReminderDay(DaysUntil(s.expires.value, b.now))
    && if a.checkOk
       then !AlreadySent(log, i, DaysUntil(s.expires.value, b.now), a.checkedAt / DAY) && !(a.writeOk && a.sendOk)
       else true
  }

  function Errors(log: seq<Record>, b: Batch, n: nat): nat
    requires n <= |b.services|
  {
    if n == 0 then 0
    else Errors(log, b, n - 1) + if Fails(Handled(log, b, n - 1), b, n - 1) then 1 else 0
  }

  class ReminderTask {
    var log: seq<Record>

    constructor ()
      ensures log == []
    {
      log := [];
    }

    /** sendBatchRenewalReminders; an error from one service does not stop the rest. */
    method SendBatch(b: Batch) returns (errors: nat)
      modifies this
      ensures log == After(old(log), b)
      ensures errors == Errors(old(log), b, |b.services|)
    {
      errors := 0;
      for i := 0 to |b.services|
        invariant log == Handled(old(log), b, i) && errors == Errors(old(log), b, i)
      {
        var s := b.services[i];
        if Selected(s, b.now) {
          var daysLeft := DaysUntil(s.expires.value, b.now);
          if IsReminderDay(daysLeft) {
            var a := b.attempts(i);
            if !a.checkOk {
              errors := errors + 1;
            } else {
              var sentToday := AlreadySentToday(i, daysLeft, a.checkedAt / DAY);
              if !sentToday {
                var ok := SendSingle(i, daysLeft, a);
                if !ok { errors := errors + 1; }
              }
            }
          }
        }
      }
    }

    method AlreadySentToday(service: nat, daysLeft: int, date: nat) returns (sent: bool)
      ensures sent <==> AlreadySent(log, service, daysLeft, date)
    {
      for i := 0 to |log|
        invariant forall j | 0 <= j < i ::
            !(log[j].sent && log[j].service == service && log[j].daysLeft == daysLeft && log[j].at / DAY == date)
      {
        var r := log[i];
        if r.sent && r.service == service && r.daysLeft == daysLeft && r.at / DAY == date { return true; }
      }
      sent := false;
    }

    /** The notification is tried first; its outcome is recorded either way. */
    method SendSingle(service: nat, daysLeft: int, a: Attempt) returns (ok: bool)
      modifies this
      ensures log == if a.writeOk then old(log) + [Record(service, daysLeft, a.writtenAt, a.sendOk)] else old(log)
      ensures ok <==> a.writeOk && a.sendOk
    {
      if a.writeOk {
        log := log + [Record(service, daysLeft, a.writtenAt, a.sendOk)];
      }
      ok := a.writeOk && a.sendOk;
    }
  }

  // ----- The floating-point day count is exact over the window of the query -----

  lemma NearestBounds(x: real, limit: real)
    requires 0.0 < x <= limit
    ensures x - limit / TWO_53 <= ToDouble(x) <= x + limit / TWO_53
  {
    RelativeError(x);
  }

  /** The hours of a duration that is not whole stay clear of both neighbours. */
  lemma PartHours(d: nat)
    requires d <= 8 * DAY && d % HOUR != 0
    ensures (d / HOUR) as real + 0.0000000000002 < Hours(d) < (d / HOUR) as real + 1.0 - 0.0000000000002
  {
    var h, n := d / HOUR, d % HOUR;
    IntegersExact(h);
    IntegersExact(n);
    var x := n as real / 3600000000000.0;
    assert 0.00000000000027 < x < 1.0 - 0.00000000000027;
    NearestBounds(x, 1.0);
    var f := ToDouble(x);
    NearestBounds(h as real + f, 200.0);
  }

  lemma WholeHours(d: nat)
    requires d <= 8 * DAY && d % HOUR == 0
    ensures Hours(d) == (d / HOUR) as real
  {
    IntegersExact(d / HOUR);
    IntegersExact(0);
  }

  lemma DaysUntilExact(future: int, now: int)
    requires future - now <= 8 * DAY
    ensures DaysUntil(future, now) == if future <= now then 0 else CeilDays(future - now)
  {
    var d := future - now;
    if d > 0 {
      var h := d / HOUR;
      var k := h / 24;
      if d % HOUR == 0 {
        WholeHours(d);
        WholeQuotient(h);
      } else {
        PartHours(d);
        PartQuotient(Hours(d), h);
      }
      DaysOfHours(d);
    }
  }

  lemma WholeQuotient(h: nat)
    requires 0 < h <= 192
    ensures Ceil(ToDouble(h as real / 24.0)) == (h + 23) / 24
  {
    var k := h / 24;
    if h % 24 == 0 {
      IntegersExact(k);
      assert h as real / 24.0 == k as real;
    } else {
      assert k as real + 0.04 < h as real / 24.0 < k as real + 0.96;
      NearestBounds(h as real / 24.0, 8.0);
    }
  }

  lemma PartQuotient(hours: real, h: nat)
    requires h < 192
    requires h as real + 0.0000000000002 < hours < h as real + 1.0 - 0.0000000000002
    ensures Ceil(ToDouble(hours / 24.0)) == h / 24 + 1
  {
    var k := h / 24;
    assert (24 * k) as real <= h as real && h as real + 1.0 <= (24 * k + 24) as real;
    assert k as real + 0.000000000000008 < hours / 24.0 < k as real + 1.0 - 0.000000000000008;
    NearestBounds(hours / 24.0, 8.0);
  }

  lemma DaysOfHours(d: nat)
    requires d > 0
    ensures CeilDays(d) == if d % HOUR == 0 then (d / HOUR + 23) / 24 else d / HOUR / 24 + 1
  {
    assert DAY == 24 * HOUR;
    var h, n := d / HOUR, d % HOUR;
    var k, m := h / 24, h % 24;
    assert d == k * DAY + m * HOUR + n;
    CeilOf(k, m * HOUR + n);
  }

  lemma CeilOf(k: nat, rest: nat)
    requires rest < DAY
    ensures CeilDays(k * DAY + rest) == if rest == 0 then k else k + 1
  {
  }

  // ----- Exactly which records a batch writes -----

  /** How many of the reminders' days a time span rounds up to; 0 for any other span. */
  function ReminderOf(span: int): int {
    var day := 24 * 60 * 60 * 1_000_000_000;
    if 6 * day < span <= 7 * day then 7
    else if 2 * day < span <= 3 * day then 3
    else if 0 < span <= day then 1
    else 0
  }

  /** The reminder due for a service at the batch's time: none for one that is not active
      or has no expiry. */
  function DueReminder(b: Batch, i: nat): int
    requires i < |b.services|
  {
    match b.services[i]
    case Service(true, Some(expires)) => ReminderOf(expires - b.now)
    case _ => 0
  }

  predicate ToldOn(log: seq<Record>, service: nat, daysLeft: int, date: nat) {
    exists r | r in log :: r.sent && r.service == service && r.daysLeft == daysLeft && r.at / DAY == date
  }

  /** A reminder is due, the history could be read and shows none sent that date, and the
      record could be written. */
  predicate GetsRecord(log: seq<Record>, b: Batch, i: nat)
    requires i < |b.services|
  {
    var a := b.attempts(i);
    DueReminder(b, i) != 0 && a.checkOk && !ToldOn(log, i, DueReminder(b, i), a.checkedAt / DAY) && a.writeOk
  }

  /** A reminder is due, and its history could not be read, or one was called for and
      either was not sent or not recorded. */
  predicate GoesWrong(log: seq<Record>, b: Batch, i: nat)
    requires i < |b.services|
  {
    var a := b.attempts(i);
    && DueReminder(b, i) != 0
    && (!a.checkOk || (!ToldOn(log, i, DueReminder(b, i), a.checkedAt / DAY) && !(a.sendOk && a.writeOk)))
  }

  /** The record each such service gets, and which service gets one, in the batch's order. */
  ghost predicate WrittenExactly(log: seq<Record>, after: seq<Record>, b: Batch, n: nat)
    requires n <= |b.services|
  {
    && log <= after
    && (forall k | |log| <= k < |after| ::
          && after[k].service < n && GetsRecord(log, b, after[k].service)
          && after[k] == Record(after[k].service, DueReminder(b, after[k].service),
                                b.attempts(after[k].service).writtenAt, b.attempts(after[k].service).sendOk))
    && (forall j, k | |log| <= j < k < |after| :: after[j].service < after[k].service)
    && (forall i | 0 <= i < n && GetsRecord(log, b, i) :: exists k | |log| <= k < |after| :: after[k].service == i)
  }

  /** The window, the reminder days and the rounding of the days left, taken together. */
  lemma DueExactly(b: Batch, i: nat)
    requires i < |b.services|
    ensures var s := b.services[i];
            (Selected(s, b.now) && IsReminderDay(DaysUntil(s.expires.value, b.now))) <==> DueReminder(b, i) != 0
    ensures DueReminder(b, i) != 0 ==> DaysUntil(b.services[i].expires.value, b.now) == DueReminder(b, i)
  {
    hide DaysUntil;
    var s := b.services[i];
    if s.expires.Some? && s.expires.value - b.now <= 8 * DAY { DaysUntilExact(s.expires.value, b.now); }
  }

  lemma SameHistory(log: seq<Record>, after: seq<Record>, b: Batch, i: nat, daysLeft: int, date: nat)
    requires i < |b.services| && WrittenExactly(log, after, b, i)
    ensures AlreadySent(after, i, daysLeft, date) <==> ToldOn(log, i, daysLeft, date)
  {
    if AlreadySent(after, i, daysLeft, date) {
      var k :| 0 <= k < |after| && after[k].sent && after[k].service == i && after[k].daysLeft == daysLeft
               && after[k].at / DAY == date;
      assert k < |log| && log[k] in log;
    }
    if ToldOn(log, i, daysLeft, date) {
      var r :| r in log && r.sent && r.service == i && r.daysLeft == daysLeft && r.at / DAY == date;
      var k :| 0 <= k < |log| && log[k] == r;
      assert after[k].service == i;
    }
  }

  lemma HandledNext(log: seq<Record>, after: seq<Record>, b: Batch, i: nat)
    requires i < |b.services| && WrittenExactly(log, after, b, i)
    ensures Records(after, b, i) <==> GetsRecord(log, b, i)
    ensures Fails(after, b, i) <==> GoesWrong(log, b, i)
    ensures Records(after, b, i) ==>
              RecordOf(b, i) == Record(i, DueReminder(b, i), b.attempts(i).writtenAt, b.attempts(i).sendOk)
  {
    hide DaysUntil, Selected, IsReminderDay, DueReminder, AlreadySent, ToldOn, WrittenExactly;
    DueExactly(b, i);
    SameHistory(log, after, b, i, DueReminder(b, i), b.attempts(i).checkedAt / DAY);
  }

  lemma OneMoreWritten(log: seq<Record>, before: seq<Record>, after: seq<Record>, b: Batch, i: nat)
    requires i < |b.services| && WrittenExactly(log, before, b, i)
    requires after == if GetsRecord(log, b, i)
                      then before + [Record(i, DueReminder(b, i), b.attempts(i).writtenAt, b.attempts(i).sendOk)]
                      else before
    ensures WrittenExactly(log, after, b, i + 1)
  {
    hide GetsRecord, DueReminder;
    forall j | 0 <= j < i + 1 && GetsRecord(log, b, j)
      ensures exists k | |log| <= k < |after| :: after[k].service == j
    {
      if j == i {
        assert after[|before|].service == i;
      } else {
        var k :| |log| <= k < |before| && before[k].service == j;
        assert after[k].service == j;
      }
    }
  }

  lemma {:induction false} HandledExactly(log: seq<Record>, b: Batch, n: nat)
    requires n <= |b.services|
    ensures WrittenExactly(log, Handled(log, b, n), b, n)
    ensures Errors(log, b, n) == |set i | 0 <= i < n && GoesWrong(log, b, i)|
    decreases n
  {
    hide WrittenExactly, GoesWrong, GetsRecord, Records, Fails, RecordOf, DueReminder;
    if n == 0 {
      NothingWritten(log, b);
    } else {
      HandledExactly(log, b, n - 1);
      var before := Handled(log, b, n - 1);
      HandledNext(log, before, b, n - 1);
      OneMoreWritten(log, before, Handled(log, b, n), b, n - 1);
      var wrong := set i | 0 <= i < n && GoesWrong(log, b, i);
      var earlier := set i | 0 <= i < n - 1 && GoesWrong(log, b, i);
      if GoesWrong(log, b, n - 1) {
        assert wrong == earlier + {n - 1};
      } else {
        assert wrong == earlier;
      }
    }
  }

  lemma NothingWritten(log: seq<Record>, b: Batch)
    ensures WrittenExactly(log, log, b, 0)
  {
  }

  /** A batch writes one record for each service that gets one, in order, with the day
      count, the clock and the outcome of its own attempt, and nothing else; and it reports
      as many errors as services that went wrong. */
  lemma BatchExactly(log: seq<Record>, b: Batch)
    ensures WrittenExactly(log, After(log, b), b, |b.services|)
    ensures Errors(log, b, |b.services|) == |set i | 0 <= i < |b.services| && GoesWrong(log, b, i)|
  {
    HandledExactly(log, b, |b.services|);
  }

  /** An inactive service, or one without an expiry, is never written to. */
  lemma OnlyActiveReminded(log: seq<Record>, b: Batch, k: nat)
    requires |log| <= k < |After(log, b)|
    ensures var i := After(log, b)[k].service;
            && i < |b.services| && b.services[i].active && b.services[i].expires.Some?
            && 0 < b.services[i].expires.value - b.now <= 7 * 24 * 60 * 60 * 1_000_000_000
  {
    BatchExactly(log, b);
  }

  // ----- At most one a day -----

  /** A failed reminder does not keep a batch from trying again: it is recorded, but the
      check does not see it. */
  lemma FailureIsRetried(log: seq<Record>, r: Record, b: Batch, i: nat)
    requires !r.sent && i < |b.services|
    ensures Records(log + [r], b, i) <==> Records(log, b, i)
  {
    forall daysLeft, date: nat
      ensures AlreadySent(log + [r], i, daysLeft, date) <==> AlreadySent(log, i, daysLeft, date)
    {
      if AlreadySent(log, i, daysLeft, date) {
        var j :| 0 <= j < |log| && log[j].sent && log[j].service == i && log[j].daysLeft == daysLeft
                 && log[j].at / DAY == date;
        assert (log + [r])[j] == log[j];
      }
    }
  }

  predicate SameReminder(r: Record, q: Record) {
    r.sent && q.sent && r.service == q.service && r.daysLeft == q.daysLeft
  }

  /** No service got the same reminder twice on one calendar date. */
  ghost predicate OncePerDate(log: seq<Record>) {
    forall i, j | 0 <= i < j < |log| && SameReminder(log[i], log[j]) :: log[i].at / DAY != log[j].at / DAY
  }

  /** Everything in the log was written by the given time. */
  ghost predicate WrittenBy(log: seq<Record>, now: nat) {
    forall i | 0 <= i < |log| :: log[i].at <= now
  }

  /** The clock of a batch: it starts no earlier than `from`, each service is checked
      and then written after the ones before it, and all is over by `until`.
      Midnight may pass between a check and its write. */
  ghost predicate ClockRuns(b: Batch, from: nat, until: nat) {
    && from <= b.now <= until
    && (forall i | 0 <= i < |b.services| ::
          b.now <= b.attempts(i).checkedAt <= b.attempts(i).writtenAt <= until)
    && (forall i, j | 0 <= i < j < |b.services| :: b.attempts(i).writtenAt <= b.attempts(j).checkedAt)
  }

  lemma {:induction false} HandledOnce(log: seq<Record>, b: Batch, from: nat, until: nat, n: nat)
    requires ClockRuns(b, from, until) && n <= |b.services|
    requires OncePerDate(log) && WrittenBy(log, from)
    ensures var l := Handled(log, b, n);
            && OncePerDate(l) && WrittenBy(l, until)
            && (n < |b.services| ==> WrittenBy(l, b.attempts(n).checkedAt))
    decreases n
  {
    if n > 0 {
      HandledOnce(log, b, from, until, n - 1);
      var before := Handled(log, b, n - 1);
      if Records(before, b, n - 1) {
        NotTwice(before, RecordOf(b, n - 1), b.attempts(n - 1));
      }
    }
  }

  /** The check rules out an earlier record of the same date: such a record was
      written before the check, hence on the date the check looked at. */
  lemma NotTwice(log: seq<Record>, r: Record, a: Attempt)
    requires OncePerDate(log) && WrittenBy(log, a.checkedAt)
    requires a.checkedAt <= a.writtenAt && r.at == a.writtenAt
    requires !AlreadySent(log, r.service, r.daysLeft, a.checkedAt / DAY)
    ensures OncePerDate(log + [r])
  {
    forall i | 0 <= i < |log| && SameReminder(log[i], r) ensures log[i].at / DAY != r.at / DAY {
      assert log[i].at / DAY != a.checkedAt / DAY;
      DatesInOrder(log[i].at, a.checkedAt);
      DatesInOrder(a.checkedAt, a.writtenAt);
    }
  }

  lemma DatesInOrder(s: nat, t: nat)
    requires s <= t
    ensures s / DAY <= t / DAY
  {
  }

  /** Batches, retries among them, one after the other. */
  function Run(log: seq<Record>, batches: seq<Batch>): seq<Record>
    decreases batches
  {
    if batches == [] then log else Run(After(log, batches[0]), batches[1..])
  }

  ghost predicate Schedule(batches: seq<Batch>, from: nat)
    decreases batches
  {
    batches == [] || exists until: nat :: ClockRuns(batches[0], from, until) && Schedule(batches[1..], until)
  }

  /** Over any schedule of batches, whatever fails and is retried, a service gets a
      given reminder at most once per calendar date. */
  lemma {:induction false} AtMostOncePerDate(log: seq<Record>, batches: seq<Batch>, from: nat)
    requires OncePerDate(log) && WrittenBy(log, from) && Schedule(batches, from)
    ensures OncePerDate(Run(log, batches))
    decreases batches
  {
    if batches != [] {
      var until: nat :| ClockRuns(batches[0], from, until) && Schedule(batches[1..], until);
      HandledOnce(log, batches[0], from, until, |batches[0].services|);
      AtMostOncePerDate(After(log, batches[0]), batches[1..], until);
    }
  }

  // ----- How many per days-left value -----

  predicate Counts(r: Record, service: nat, daysLeft: int) {
    r.sent && r.service == service && r.daysLeft == daysLeft
  }

  function Sent(log: seq<Record>, service: nat, daysLeft: int): nat {
    if log == [] then 0
    else Sent(log[..|log| - 1], service, daysLeft) + if Counts(log[|log| - 1], service, daysLeft) then 1 else 0
  }

  function SentOn(log: seq<Record>, service: nat, daysLeft: int, date: int): nat {
    if log == [] then 0
    else SentOn(log[..|log| - 1], service, daysLeft, date)
         + if Counts(log[|log| - 1], service, daysLeft) && log[|log| - 1].at / DAY == date then 1 else 0
  }

  /** Records of a reminder written at `end` or later. */
  function SentLate(log: seq<Record>, service: nat, daysLeft: int, end: int): nat {
    if log == [] then 0
    else SentLate(log[..|log| - 1], service, daysLeft, end)
         + if Counts(log[|log| - 1], service, daysLeft) && log[|log| - 1].at >= end then 1 else 0
  }

  lemma {:induction false} OneOnEachDate(log: seq<Record>, service: nat, daysLeft: int, date: int)
    requires OncePerDate(log)
    ensures SentOn(log, service, daysLeft, date) <= 1
    ensures SentOn(log, service, daysLeft, date) == 1 ==> date >= 0 && AlreadySent(log, service, daysLeft, date)
  {
    if log != [] {
      var front, last := log[..|log| - 1], log[|log| - 1];
      OneOnEachDate(front, service, daysLeft, date);
      if date >= 0 && AlreadySent(front, service, daysLeft, date) {
        var i :| 0 <= i < |front| && Counts(front[i], service, daysLeft) && front[i].at / DAY == date;
        assert log[i] == front[i];
        assert SameReminder(log[i], last) ==> log[i].at / DAY != last.at / DAY;
      }
    }
  }

  /** The instants at which `daysLeft` days are left: from `Opens`, for one day. */
  function Opens(expires: nat, daysLeft: int): int { expires - daysLeft * DAY }

  function Closes(expires: nat, daysLeft: int): int { expires - daysLeft * DAY + DAY }

  predicate InWindow(expires: nat, daysLeft: int, now: nat) {
    Opens(expires, daysLeft) <= now < Closes(expires, daysLeft)
  }

  lemma WindowOf(expires: nat, daysLeft: int, now: nat)
    requires daysLeft > 0
    ensures now < expires && CeilDays(expires - now) == daysLeft <==> InWindow(expires, daysLeft, now)
  {
  }

  /** Every record of a reminder was written after its window opened. */
  ghost predicate AfterOpening(log: seq<Record>, service: nat, daysLeft: int, expires: nat) {
    forall i | 0 <= i < |log| && Counts(log[i], service, daysLeft) :: log[i].at >= Opens(expires, daysLeft)
  }

  /** The service's expiry does not change while the batches run. */
  ghost predicate FixedExpiry(batches: seq<Batch>, service: nat, expires: nat) {
    forall i | 0 <= i < |batches| && service < |batches[i].services| ::
      batches[i].services[service].expires == Some(expires)
  }

  /** A batch adds at most one late record, and only if it began before the window
      closed and ended after. */
  lemma {:induction false} HandledLate(log: seq<Record>, b: Batch, service: nat, daysLeft: int, expires: nat,
                                       from: nat, until: nat, n: nat)
    requires ClockRuns(b, from, until) && FixedExpiry([b], service, expires) && daysLeft in {7, 3, 1}
    requires n <= |b.services| && AfterOpening(log, service, daysLeft, expires)
    ensures var l := Handled(log, b, n);
            var end := Closes(expires, daysLeft);
            var more := SentLate(l, service, daysLeft, end) - SentLate(log, service, daysLeft, end);
            && AfterOpening(l, service, daysLeft, expires)
            && 0 <= more <= (if n > service then 1 else 0)
            && (more == 1 ==> b.now < end <= until)
    decreases n
  {
    hide RecordOf, Records, ClockRuns, FixedExpiry, Opens, Closes, SentLate, AfterOpening;
    if n > 0 {
      HandledLate(log, b, service, daysLeft, expires, from, until, n - 1);
      var before := Handled(log, b, n - 1);
      if Records(before, b, n - 1) {
        RecordLate(before, b, service, daysLeft, expires, from, until, n - 1);
      }
    }
  }

  lemma RecordLate(log: seq<Record>, b: Batch, service: nat, daysLeft: int, expires: nat, from: nat, until: nat, i: nat)
    requires ClockRuns(b, from, until) && FixedExpiry([b], service, expires) && daysLeft in {7, 3, 1}
    requires i < |b.services| && Records(log, b, i) && AfterOpening(log, service, daysLeft, expires)
    ensures var l := log + [RecordOf(b, i)];
            var end := Closes(expires, daysLeft);
            var more := SentLate(l, service, daysLeft, end) - SentLate(log, service, daysLeft, end);
            && AfterOpening(l, service, daysLeft, expires)
            && 0 <= more <= (if i == service then 1 else 0)
            && (more == 1 ==> b.now < end <= until)
  {
    var r := RecordOf(b, i);
    hide Records, FixedExpiry, Opens, Closes, DaysUntil;
    assert (log + [r])[..|log|] == log;
    if Counts(r, service, daysLeft) { RecordedInWindow(log, b, service, daysLeft, expires); }
  }

  /** A batch that records a reminder began in the reminder's window. */
  lemma RecordedInWindow(log: seq<Record>, b: Batch, service: nat, daysLeft: int, expires: nat)
    requires FixedExpiry([b], service, expires) && daysLeft in {7, 3, 1}
    requires service < |b.services| && Records(log, b, service) && RecordOf(b, service).daysLeft == daysLeft
    ensures InWindow(expires, daysLeft, b.now)
  {
    hide ToDouble, Hours;
    assert b == [b][0];
    DaysUntilExact(expires, b.now);
    WindowOf(expires, daysLeft, b.now);
  }

  /** Over any schedule only the last batch of the window can write late. */
  lemma {:induction false} OneLate(log: seq<Record>, batches: seq<Batch>, service: nat, daysLeft: int,
                                   expires: nat, from: nat)
    requires Schedule(batches, from) && FixedExpiry(batches, service, expires) && daysLeft in {7, 3, 1}
    requires AfterOpening(log, service, daysLeft, expires)
    requires var end := Closes(expires, daysLeft);
             SentLate(log, service, daysLeft, end) <= if from >= end then 1 else 0
    ensures AfterOpening(Run(log, batches), service, daysLeft, expires)
    ensures SentLate(Run(log, batches), service, daysLeft, Closes(expires, daysLeft)) <= 1
    decreases batches
  {
    if batches != [] {
      var b := batches[0];
      var until: nat :| ClockRuns(b, from, until) && Schedule(batches[1..], until);
      assert FixedExpiry([b], service, expires);
      HandledLate(log, b, service, daysLeft, expires, from, until, |b.services|);
      OneLate(After(log, b), batches[1..], service, daysLeft, expires, until);
    }
  }

  /** The first calendar date of a window; a window that does not open at midnight also
      covers part of the next one. */
  function FirstDate(expires: nat, daysLeft: int): int { Opens(expires, daysLeft) / DAY }

  predicate OpensAtMidnight(expires: nat) { expires % DAY == 0 }

  lemma DatesOfWindow(expires: nat, daysLeft: int, at: nat)
    requires InWindow(expires, daysLeft, at)
    ensures var date := FirstDate(expires, daysLeft);
            at / DAY == date || (at / DAY == date + 1 && !OpensAtMidnight(expires))
  {
    Midnights(expires, daysLeft);
    BetweenMidnights(at, FirstDate(expires, daysLeft));
  }

  /** Where a window lies among the midnights. */
  lemma Midnights(expires: nat, daysLeft: int)
    ensures var date := FirstDate(expires, daysLeft);
            && date * DAY <= Opens(expires, daysLeft) < (date + 1) * DAY <= Closes(expires, daysLeft) < (date + 2) * DAY
            && (OpensAtMidnight(expires) <==> Opens(expires, daysLeft) == date * DAY)
  {
    var time := expires % DAY;
    assert Opens(expires, daysLeft) == (expires / DAY - daysLeft) * DAY + time;
  }

  lemma BetweenMidnights(at: nat, date: int)
    requires date * DAY <= at < (date + 2) * DAY
    ensures at / DAY == if at < (date + 1) * DAY then date else date + 1
  {
  }

  /** Records of a reminder are those on the two dates of its window and the late ones. */
  lemma {:induction false} SentByDate(log: seq<Record>, service: nat, daysLeft: int, expires: nat)
    requires AfterOpening(log, service, daysLeft, expires)
    ensures var date := FirstDate(expires, daysLeft);
            Sent(log, service, daysLeft)
            <= SentOn(log, service, daysLeft, date)
            + (if OpensAtMidnight(expires) then 0 else SentOn(log, service, daysLeft, date + 1))
            + SentLate(log, service, daysLeft, Closes(expires, daysLeft))
  {
    if log != [] {
      var front, last := log[..|log| - 1], log[|log| - 1];
      assert forall i | 0 <= i < |front| :: front[i] == log[i];
      SentByDate(front, service, daysLeft, expires);
      if Counts(last, service, daysLeft) && last.at < Closes(expires, daysLeft) {
        DatesOfWindow(expires, daysLeft, last.at);
      }
    }
  }

  /** For one expiry, over any schedule of batches, whatever they take, fail or retry:
      each reminder goes out at most three times, and at most twice if its window opens
      at midnight. */
  lemma ThreeAtMost(batches: seq<Batch>, service: nat, daysLeft: int, expires: nat)
    requires Schedule(batches, 0) && FixedExpiry(batches, service, expires) && daysLeft in {7, 3, 1}
    ensures Sent(Run([], batches), service, daysLeft) <= if OpensAtMidnight(expires) then 2 else 3
  {
    var log := Run([], batches);
    AtMostOncePerDate([], batches, 0);
    OneLate([], batches, service, daysLeft, expires, 0);
    SentByDate(log, service, daysLeft, expires);
    OneOnEachDate(log, service, daysLeft, FirstDate(expires, daysLeft));
    OneOnEachDate(log, service, daysLeft, FirstDate(expires, daysLeft) + 1);
  }

  /** All three reminders together go out at most nine times. */
  lemma NinePerExpiry(batches: seq<Batch>, service: nat, expires: nat)
    requires Schedule(batches, 0) && FixedExpiry(batches, service, expires)
    ensures var log := Run([], batches);
            Sent(log, service, 7) + Sent(log, service, 3) + Sent(log, service, 1)
              <= if OpensAtMidnight(expires) then 6 else 9
  {
    ThreeAtMost(batches, service, 7, expires);
    ThreeAtMost(batches, service, 3, expires);
    ThreeAtMost(batches, service, 1, expires);
  }

  // ----- When it is two -----

  /** The records of a reminder were written on the given date at the latest. */
  ghost predicate WrittenUpTo(log: seq<Record>, service: nat, daysLeft: int, limit: int) {
    forall i | 0 <= i < |log| && Counts(log[i], service, daysLeft) :: log[i].at / DAY <= limit
  }

  lemma {:induction false} SentUpTo(log: seq<Record>, service: nat, daysLeft: int, expires: nat)
    requires AfterOpening(log, service, daysLeft, expires)
    requires WrittenUpTo(log, service, daysLeft, FirstDate(expires, daysLeft) + 1)
    ensures var date := FirstDate(expires, daysLeft);
            Sent(log, service, daysLeft)
              <= SentOn(log, service, daysLeft, date) + SentOn(log, service, daysLeft, date + 1)
  {
    if log != [] {
      var front, last := log[..|log| - 1], log[|log| - 1];
      assert forall i | 0 <= i < |front| :: front[i] == log[i];
      SentUpTo(front, service, daysLeft, expires);
      if Counts(last, service, daysLeft) {
        Midnights(expires, daysLeft);
        NotBefore(last.at, FirstDate(expires, daysLeft));
      }
    }
  }

  lemma NotBefore(at: nat, date: int)
    requires date * DAY <= at
    ensures date <= at / DAY
  {
  }

  /** Every schedule keeps to two for this reminder if its records are written up to `limit`. */
  ghost predicate TwoUpTo(expires: nat, daysLeft: int, limit: int) {
    forall batches: seq<Batch>, service: nat |
      Schedule(batches, 0) && FixedExpiry(batches, service, expires)
      && WrittenUpTo(Run([], batches), service, daysLeft, limit) ::
      Sent(Run([], batches), service, daysLeft) <= 2
  }

  /** A batch over one service that starts at `now`, gets to the service at `at`, and
      succeeds in everything. */
  function OneService(now: nat, at: nat, expires: nat): Batch {
    Batch(now, [Service(true, Some(expires))], _ => Attempt(at, true, true, at, true))
  }

  lemma OneServiceAdds(log: seq<Record>, now: nat, at: nat, expires: nat, daysLeft: int)
    requires daysLeft in {7, 3, 1} && InWindow(expires, daysLeft, now)
    requires !AlreadySent(log, 0, daysLeft, at / DAY)
    ensures After(log, OneService(now, at, expires)) == log + [Record(0, daysLeft, at, true)]
  {
    var b := OneService(now, at, expires);
    WindowOf(expires, daysLeft, now);
    WindowDays(expires - now);
    DaysUntilExact(expires, now);
    assert Handled(log, b, 0) == log;
    assert Records(log, b, 0);
    assert Handled(log, b, 1) == log + [RecordOf(b, 0)];
  }

  /** One batch when the window opens, one at the midnight in it, and one that starts
      just before the window closes and reaches the service at the midnight after. */
  function ThreeDates(expires: nat, daysLeft: int): seq<Batch>
    requires expires >= daysLeft * DAY && daysLeft in {7, 3, 1}
  {
    Midnights(expires, daysLeft);
    var midnight: nat := (FirstDate(expires, daysLeft) + 1) * DAY;
    [OneService(Opens(expires, daysLeft), Opens(expires, daysLeft), expires),
     OneService(midnight, midnight, expires),
     OneService(Closes(expires, daysLeft) - 1, midnight + DAY, expires)]
  }

  /** Batches in the window whose records fall on three dates. */
  lemma ThreeAdd(expires: nat, daysLeft: int, first: nat, second: nat, third: nat, late: nat)
    requires daysLeft in {7, 3, 1}
    requires InWindow(expires, daysLeft, first) && InWindow(expires, daysLeft, second)
    requires InWindow(expires, daysLeft, third)
    requires first / DAY != second / DAY && first / DAY != late / DAY && second / DAY != late / DAY
    ensures Run([], [OneService(first, first, expires), OneService(second, second, expires),
                     OneService(third, late, expires)])
         == [Record(0, daysLeft, first, true), Record(0, daysLeft, second, true), Record(0, daysLeft, late, true)]
  {
    hide InWindow, Run, After, OneService;
    var r, q, p := Record(0, daysLeft, first, true), Record(0, daysLeft, second, true), Record(0, daysLeft, late, true);
    OneServiceAdds([], first, first, expires, daysLeft);
    OneServiceAdds([r], second, second, expires, daysLeft);
    OneServiceAdds([r, q], third, late, expires, daysLeft);
    assert [] + [r] == [r] && [r] + [q] == [r, q] && [r, q] + [p] == [r, q, p];
    RunThree([], OneService(first, first, expires), OneService(second, second, expires),
             OneService(third, late, expires));
  }

  lemma ThreeDatesRun(expires: nat, daysLeft: int)
    requires expires >= daysLeft * DAY && daysLeft in {7, 3, 1} && !OpensAtMidnight(expires)
    ensures var midnight := (FirstDate(expires, daysLeft) + 1) * DAY;
            Run([], ThreeDates(expires, daysLeft))
            == [Record(0, daysLeft, Opens(expires, daysLeft), true), Record(0, daysLeft, midnight, true),
                Record(0, daysLeft, midnight + DAY, true)]
  {
    hide Run;
    Midnights(expires, daysLeft);
    var date := FirstDate(expires, daysLeft);
    var opens: nat := Opens(expires, daysLeft);
    BetweenMidnights(opens, date);
    BetweenMidnights((date + 1) * DAY, date);
    BetweenMidnights((date + 2) * DAY, date + 1);
    ThreeAdd(expires, daysLeft, opens, (date + 1) * DAY, Closes(expires, daysLeft) - 1, (date + 2) * DAY);
  }

  lemma RunThree(log: seq<Record>, b: Batch, c: Batch, d: Batch)
    ensures Run(log, [b, c, d]) == After(After(After(log, b), c), d)
  {
    assert [b, c, d][1..] == [c, d] && [c, d][1..] == [d] && [d][1..] == [];
    assert Run(After(After(log, b), c), [d]) == Run(After(After(After(log, b), c), d), []);
  }

  lemma ThreeDatesSchedule(expires: nat, daysLeft: int)
    requires expires >= daysLeft * DAY && daysLeft in {7, 3, 1} && !OpensAtMidnight(expires)
    ensures Schedule(ThreeDates(expires, daysLeft), 0) && FixedExpiry(ThreeDates(expires, daysLeft), 0, expires)
  {
    Midnights(expires, daysLeft);
    var batches := ThreeDates(expires, daysLeft);
    var opens, midnight, end := batches[0].now, batches[1].now, batches[1].now + DAY;
    assert batches[1..][1..] == batches[2..] && batches[2..][1..] == [];
    assert ClockRuns(batches[2], midnight, end) && Schedule([], end);
    assert Schedule(batches[2..], midnight);
    assert ClockRuns(batches[1], opens, midnight);
    assert Schedule(batches[1..], opens);
    assert ClockRuns(batches[0], 0, opens);
  }

  lemma SentThree(r: Record, q: Record, p: Record, service: nat, daysLeft: int)
    requires Counts(r, service, daysLeft) && Counts(q, service, daysLeft) && Counts(p, service, daysLeft)
    ensures Sent([r, q, p], service, daysLeft) == 3
  {
    assert [r, q, p][..2] == [r, q] && [r, q][..1] == [r] && [r][..0] == [];
    assert Sent([r], service, daysLeft) == 1;
    assert Sent([r, q], service, daysLeft) == 2;
  }

  /** At most two is kept by every schedule exactly if the window opens at midnight, or
      no record may be written later than the window's second date. */
  lemma TwoExactly(expires: nat, daysLeft: int, limit: int)
    requires daysLeft in {7, 3, 1} && expires >= daysLeft * DAY
    ensures TwoUpTo(expires, daysLeft, limit)
       <==> OpensAtMidnight(expires) || limit <= FirstDate(expires, daysLeft) + 1
  {
    var date := FirstDate(expires, daysLeft);
    if OpensAtMidnight(expires) || limit <= date + 1 {
      forall batches: seq<Batch>, service: nat |
        Schedule(batches, 0) && FixedExpiry(batches, service, expires)
        && WrittenUpTo(Run([], batches), service, daysLeft, limit)
        ensures Sent(Run([], batches), service, daysLeft) <= 2
      {
        ThreeAtMost(batches, service, daysLeft, expires);
        if limit <= date + 1 { TwoByDate(batches, service, daysLeft, expires); }
      }
    } else {
      ThreeDatesRun(expires, daysLeft);
      ThreeDatesSchedule(expires, daysLeft);
      Midnights(expires, daysLeft);
      BetweenMidnights((date + 1) * DAY, date);
      BetweenMidnights((date + 2) * DAY, date + 1);
      var log := Run([], ThreeDates(expires, daysLeft));
      SentThree(log[0], log[1], log[2], 0, daysLeft);
      assert WrittenUpTo(log, 0, daysLeft, limit);
    }
  }

  lemma TwoByDate(batches: seq<Batch>, service: nat, daysLeft: int, expires: nat)
    requires Schedule(batches, 0) && FixedExpiry(batches, service, expires) && daysLeft in {7, 3, 1}
    requires WrittenUpTo(Run([], batches), service, daysLeft, FirstDate(expires, daysLeft) + 1)
    ensures Sent(Run([], batches), service, daysLeft) <= 2
  {
    var log := Run([], batches);
    AtMostOncePerDate([], batches, 0);
    OneLate([], batches, service, daysLeft, expires, 0);
    SentUpTo(log, service, daysLeft, expires);
    OneOnEachDate(log, service, daysLeft, FirstDate(expires, daysLeft));
    OneOnEachDate(log, service, daysLeft, FirstDate(expires, daysLeft) + 1);
  }

  /** Hence six for an expiry if each reminder's records stay on its window's dates. */
  lemma SixPerExpiry(batches: seq<Batch>, service: nat, expires: nat)
    requires Schedule(batches, 0) && FixedExpiry(batches, service, expires)
    requires OpensAtMidnight(expires)
             || forall k | k in {7, 3, 1} :: WrittenUpTo(Run([], batches), service, k, FirstDate(expires, k) + 1)
    ensures var log := Run([], batches);
            && (forall k | k in {7, 3, 1} :: Sent(log, service, k) <= 2)
            && Sent(log, service, 7) + Sent(log, service, 3) + Sent(log, service, 1) <= 6
  {
    forall k | k in {7, 3, 1} ensures Sent(Run([], batches), service, k) <= 2 {
      ThreeAtMost(batches, service, k, expires);
      if !OpensAtMidnight(expires) { TwoByDate(batches, service, k, expires); }
    }
  }

  // ----- Exactly 7, 3 and 1 on the daily schedule -----

  /** The reminders of one service that a log shows as sent, oldest first. */
  function SentDays(log: seq<Record>, service: nat): seq<int> {
    if log == [] then []
    else
      var last := log[|log| - 1];
      SentDays(log[..|log| - 1], service) + if last.sent && last.service == service then [last.daysLeft] else []
  }

  /** The reminder days among d, d-1, ... over n days, in that order. */
  function Countdown(d: int, n: nat): seq<int>
    decreases n
  {
    if n == 0 then [] else (if IsReminderDay(d) then [d] else []) + Countdown(d - 1, n - 1)
  }

  /** In every batch the service is active with the given expiry, and its operations succeed. */
  ghost predicate StaysActive(batches: seq<Batch>, service: nat, expires: nat) {
    forall i | 0 <= i < |batches| ::
      && service < |batches[i].services|
      && batches[i].services[service] == Service(true, Some(expires))
      && batches[i].attempts(service).checkOk && batches[i].attempts(service).sendOk
      && batches[i].attempts(service).writeOk
  }

  predicate EveryDay(batches: seq<Batch>, start: nat) {
    forall i | 0 <= i < |batches| :: batches[i].now == start + i * DAY
  }

  /** No reminder of the service so far has a count of days below d. */
  ghost predicate OnlyAbove(log: seq<Record>, service: nat, d: int) {
    forall i | 0 <= i < |log| && log[i].service == service :: log[i].daysLeft > d
  }

  lemma {:induction false} HandledOthers(log: seq<Record>, b: Batch, service: nat, lo: nat, hi: nat)
    requires lo <= hi <= |b.services| && !(lo <= service < hi)
    ensures var before, after := Handled(log, b, lo), Handled(log, b, hi);
            && SentDays(after, service) == SentDays(before, service)
            && (forall d | OnlyAbove(before, service, d) :: OnlyAbove(after, service, d))
    decreases hi
  {
    if lo < hi {
      HandledOthers(log, b, service, lo, hi - 1);
      var l := Handled(log, b, hi - 1);
      if Records(l, b, hi - 1) {
        var r := RecordOf(b, hi - 1);
        assert (l + [r])[..|l|] == l;
      }
    }
  }

  /** One daily batch: the service is reminded if its day has come, and not otherwise. */
  lemma OneBatch(log: seq<Record>, b: Batch, service: nat, expires: nat)
    requires StaysActive([b], service, expires)
    requires OnlyAbove(log, service, CeilDays(expires - b.now))
    ensures var d := CeilDays(expires - b.now);
            var after := After(log, b);
            && SentDays(after, service) == SentDays(log, service) + (if IsReminderDay(d) then [d] else [])
            && OnlyAbove(after, service, d - 1)
  {
    hide ToDouble, Hours, DaysUntil;
    assert b == [b][0];
    var d := CeilDays(expires - b.now);
    HandledOthers(log, b, service, 0, service);
    HandledOthers(log, b, service, service + 1, |b.services|);
    var before := Handled(log, b, service);
    WindowDays(expires - b.now);
    if Selected(b.services[service], b.now) { DaysUntilExact(expires, b.now); }
    assert Records(before, b, service) <==> IsReminderDay(d);
    if Records(before, b, service) {
      var r := RecordOf(b, service);
      assert (before + [r])[..|before|] == before;
    }
  }

  /** Reminder days lie inside the window of the query. */
  lemma WindowDays(d: int)
    ensures IsReminderDay(CeilDays(d)) ==> 0 < d <= 8 * DAY
  {
  }

  lemma Tomorrow(batches: seq<Batch>, service: nat, expires: nat, start: nat)
    requires batches != [] && StaysActive(batches, service, expires) && EveryDay(batches, start)
    ensures StaysActive([batches[0]], service, expires) && batches[0].now == start
    ensures StaysActive(batches[1..], service, expires) && EveryDay(batches[1..], start + DAY)
  {
    assert batches[0].now == start + 0 * DAY;
    forall i | 0 <= i < |batches[1..]| ensures batches[1..][i].now == start + DAY + i * DAY {
      assert batches[1..][i] == batches[i + 1];
    }
  }

  lemma {:induction false} DailyRun(log: seq<Record>, batches: seq<Batch>, service: nat, expires: nat, start: nat)
    requires StaysActive(batches, service, expires) && EveryDay(batches, start)
    requires OnlyAbove(log, service, CeilDays(expires - start))
    ensures SentDays(Run(log, batches), service)
         == SentDays(log, service) + Countdown(CeilDays(expires - start), |batches|)
    decreases batches
  {
    hide After, StaysActive, EveryDay, OnlyAbove, SentDays, CeilDays;
    if batches != [] {
      Tomorrow(batches, service, expires, start);
      OneBatch(log, batches[0], service, expires);
      OneDayLess(expires - start);
      DailyRun(After(log, batches[0]), batches[1..], service, expires, start + DAY);
    }
  }

  lemma OneDayLess(d: int)
    ensures CeilDays(d - DAY) == CeilDays(d) - 1
  {
  }

  lemma {:induction false} CountdownFromAbove(d: int, n: nat)
    requires n >= d
    ensures d > 7 ==> Countdown(d, n) == [7, 3, 1]
    ensures 3 < d <= 7 ==> Countdown(d, n) == if d == 7 then [7, 3, 1] else [3, 1]
    ensures 1 < d <= 3 ==> Countdown(d, n) == if d == 3 then [3, 1] else [1]
    ensures d <= 1 ==> Countdown(d, n) == if d == 1 then [1] else []
    decreases n
  {
    if n > 0 { CountdownFromAbove(d - 1, n - 1); }
  }

  /** A service that stays active, seen by a daily batch more than seven days before
      it expires, is reminded exactly at 7, 3 and 1 days, once each and in that
      order, however long the batches go on. */
  lemma {:induction false} SevenThreeOne(log: seq<Record>, batches: seq<Batch>, service: nat, expires: nat, start: nat)
    requires StaysActive(batches, service, expires) && EveryDay(batches, start)
    requires expires - start > 7 * DAY && |batches| * DAY >= expires - start
    requires forall i | 0 <= i < |log| :: log[i].service != service
    ensures SentDays(Run(log, batches), service) == [7, 3, 1]
  {
    var d := CeilDays(expires - start);
    assert d > 7 && |batches| >= d;
    DailyRun(log, batches, service, expires, start);
    CountdownFromAbove(d, |batches|);
    NoneYet(log, service);
  }

  lemma {:induction false} NoneYet(log: seq<Record>, service: nat)
    requires forall i | 0 <= i < |log| :: log[i].service != service
    ensures SentDays(log, service) == []
  {
    if log != [] { NoneYet(log[..|log| - 1], service); }
  }
}
