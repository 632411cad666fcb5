/** The retry throttle of a vendor payment that keeps failing; a month and a week are fixed spans of any unit. */
module Throttle {
  import opened Common
  import opened PaymentIds
  import opened Text

  /** The payment's task log. */
  datatype Log = Log(created: int, updated: int)

  datatype Decision = ATTEMPT | SKIP | RETIRE

  type Span = n: int | n > 0 witness 1

  /** What a check at time now decides. */
  function Decide(log: Option<Log>, now: int, month: Span, week: Span): Decision {
    if log == None then ATTEMPT
    else
      var age, idle := now - log.value.created, now - log.value.updated;
      if age > 2 * month then RETIRE
      else if (month < age < 2 * month && idle < month) || (age < month && idle < week) then SKIP
      else ATTEMPT
  }

  /** How a check ends: with its answer and the row it retired, if any, or with an exception. */
  datatype Outcome = Answered(skip: bool, retired: Option<nat>) | Raised

  /**
   When a payment may be tried: without a log; in the first month when idle for a week; between one and two months when
   idle for a month; and at the exact ages of one and two months.
   */
  predicate MayTry(log: Option<Log>, now: int, month: Span, week: Span) {
    log == None
    || var created, updated := log.value.created, log.value.updated;
       && now <= created + 2 * month
       && (now < created + month ==> updated + week <= now)
       && (created + month < now < created + 2 * month ==> updated + month <= now)
  }

  /** validate_for_skipping_payment; ids are the rows of the document's table. */
  method ValidateForSkippingPayment(log: Option<Log>, uniqueId: string, ids: set<nat>, now: int,
                                    month: Span, week: Span)
    returns (r: Outcome)
    ensures Decide(log, now, month, week) == ATTEMPT ==> r == Answered(false, None)
    ensures Decide(log, now, month, week) == SKIP ==> r == Answered(true, None)
    ensures Decide(log, now, month, week) == RETIRE ==>
              var picked := PickedId(uniqueId);
              r == if picked.Some? && picked.value in ids then Answered(true, picked) else Raised
    ensures r == Answered(false, None) <==> MayTry(log, now, month, week)
    ensures r == Answered(true, None) <==> !MayTry(log, now, month, week) && now <= log.value.created + 2 * month
  {
    if log.Some? {
      if now - 2 * month > log.value.created {
        var pieces := Split(uniqueId, '-');
        if |pieces| < 3 {
          return Raised;
        }
        var id := ParseInt(pieces[2]);
        if id == None || id.value !in ids {
          return Raised;
        }
        return Answered(true, id);
      } else if now - month > log.value.created && now - 2 * month < log.value.created {
        if log.value.updated > now - month {
          return Answered(true, None);
        }
      } else if now - month < log.value.created {
        if log.value.updated > now - week {
          return Answered(true, None);
        }
      }
    }
    return Answered(false, None);
  }

  /** A payment that never succeeds: its log, whether its document is retired, and when it was attempted. */
  datatype Payment = Payment(log: Option<Log>, retired: bool, attempts: seq<int>)

  const NEW := Payment(None, false, [])

  /**
   A retired document is not checked again; an attempt creates the log or touches it. A late check retires the row
   that the id picks, which is this document or another one, or raises.
   */
  function Check(p: Payment, now: int, month: Span, week: Span, d: Document): Payment {
    if p.retired then p
    else
      match Decide(p.log, now, month, week)
      case SKIP => p
      case RETIRE => if PickedId(UniqueId(d)) == Some(d.id) then p.(retired := true) else p
      case ATTEMPT =>
        p.(log := Some(Log(if p.log.Some? then p.log.value.created else now, now)), attempts := p.attempts + [now])
  }

  function Checks(times: seq<int>, month: Span, week: Span, d: Document): Payment {
    if times == [] then NEW else Check(Checks(times[..|times| - 1], month, week, d), times[|times| - 1], month, week, d)
  }

  predicate Increasing(times: seq<int>) {
    forall i, j :: 0 <= i < j < |times| ==> times[i] < times[j]
  }

  /** The number of weeks begun in a month. */
  function Weeks(month: Span, week: Span): int {
    (month + week - 1) / week
  }

  // ---------------------------------------------------------------- the bound

  /** How many attempts there can be by the age of the last one. */
  ghost predicate Throttled(p: Payment, month: Span, week: Span) {
    if p.attempts == [] then p.log == None && !p.retired
    else
      && p.log.Some? && p.log.value.updated == p.attempts[|p.attempts| - 1]
      && var age, n, k := p.log.value.updated - p.log.value.created, |p.attempts|, Weeks(month, week);
      && 0 <= age <= 2 * month
      && (age < month ==> (n - 1) * week <= age)
      && (age < 2 * month ==> n <= k + 1)
      && n <= k + 2
  }

  lemma {:induction false} TimesKeepsOrder(a: int, b: int, d: Span)
    ensures a <= b ==> a * d <= b * d
    ensures a < b ==> a * d + d <= b * d
    decreases b - a
  {
    if a + 1 < b {
      TimesKeepsOrder(a, b - 1, d);
      assert b * d == (b - 1) * d + d;
    } else if a + 1 == b {
      assert b * d == a * d + d;
    }
  }

  lemma FitsInMonth(n: int, month: Span, week: Span)
    requires (n - 1) * week < month
    ensures n <= Weeks(month, week)
  {
    var k := Weeks(month, week);
    assert month <= k * week;
    TimesKeepsOrder(k, n - 1, week);
  }

  lemma CheckKeepsThrottled(p: Payment, now: int, month: Span, week: Span, d: Document)
    requires Throttled(p, month, week) && (p.log.Some? ==> p.log.value.updated < now)
    ensures Throttled(Check(p, now, month, week, d), month, week)
    ensures var q := Check(p, now, month, week, d); q.log.Some? ==> q.log.value.updated <= now
  {
    if !p.retired && Decide(p.log, now, month, week) == ATTEMPT {
      if p.log == None {
        FitsInMonth(1, month, week);
      } else {
        var age, n := now - p.log.value.created, |p.attempts|;
        if p.log.value.updated - p.log.value.created < month {
          FitsInMonth(n, month, week);
        }
        if age < month {
          assert n * week == (n - 1) * week + week;
          FitsInMonth(n + 1, month, week);
        }
      }
    }
  }

  lemma {:induction false} ChecksAreThrottled(times: seq<int>, month: Span, week: Span, d: Document)
    requires Increasing(times)
    ensures var p := Checks(times, month, week, d);
            && Throttled(p, month, week)
            && (p.log.Some? ==> times != [] && p.log.value.updated <= times[|times| - 1])
  {
    if times == [] {
    } else {
      ChecksAreThrottled(times[..|times| - 1], month, week, d);
      CheckKeepsThrottled(Checks(times[..|times| - 1], month, week, d), times[|times| - 1], month, week, d);
    }
  }

  /**
   However long it is checked, a payment that keeps failing is attempted at most ceil(month / week) + 2 times:
   weekly in the first month, then at the exact ages of one and two months, where neither branch skips, or
   once in between.
   */
  lemma AttemptsAreBounded(times: seq<int>, month: Span, week: Span, d: Document)
    requires Increasing(times)
    ensures |Checks(times, month, week, d).attempts| <= Weeks(month, week) + 2
  {
    ChecksAreThrottled(times, month, week, d);
    assert Weeks(month, week) >= 0;
  }

  lemma {:induction false} CreatedAtFirstCheck(times: seq<int>, month: Span, week: Span, d: Document)
    requires times != []
    ensures var p := Checks(times, month, week, d); p.log.Some? && p.log.value.created == times[0]
  {
    if |times| == 1 {
      assert times[..0] == [];
    } else {
      CreatedAtFirstCheck(times[..|times| - 1], month, week, d);
    }
  }

  lemma {:induction false} RetiredByItself(times: seq<int>, month: Span, week: Span, d: Document)
    ensures Checks(times, month, week, d).retired ==> NamesItself(d)
  {
    if times == [] {
    } else {
      RetiredByItself(times[..|times| - 1], month, week, d);
      PicksItselfExactly(d);
    }
  }

  /**
   From a check on that is later than two months after the first, the payment is never attempted again; its checks
   retire the document exactly when its id leads back to it, and otherwise every one of them goes for the same wrong
   row or raises.
   */
  lemma {:induction false} LateCheckRetires(times: seq<int>, more: seq<int>, month: Span, week: Span, d: Document)
    requires |times| > 1 && times[|times| - 1] > times[0] + 2 * month && Increasing(times + more)
    ensures Checks(times + more, month, week, d).retired <==> NamesItself(d)
    ensures Checks(times + more, month, week, d).attempts == Checks(times[..|times| - 1], month, week, d).attempts
  {
    var all := times + more;
    PicksItselfExactly(d);
    if more == [] {
      assert all == times;
    } else {
      assert all[..|all| - 1] == times + more[..|more| - 1];
      LateCheckRetires(times, more[..|more| - 1], month, week, d);
      assert all[|times| - 1] == times[|times| - 1] <= all[|all| - 1];
    }
    assert all[0] == times[0] && all[..|all| - 1][0] == times[0];
    CreatedAtFirstCheck(all[..|all| - 1], month, week, d);
    RetiredByItself(all[..|all| - 1], month, week, d);
  }

  // ---------------------------------------------------------------- when a check attempts

  lemma {:induction false} AttemptsStartAtFirst(times: seq<int>, month: Span, week: Span, d: Document)
    requires times != []
    ensures var p := Checks(times, month, week, d); p.attempts != [] && p.attempts[0] == times[0]
  {
    if |times| == 1 {
      assert times[..0] == [];
    } else {
      AttemptsStartAtFirst(times[..|times| - 1], month, week, d);
    }
  }

  lemma {:induction false} RetiredIsLate(times: seq<int>, month: Span, week: Span, d: Document)
    requires Increasing(times) && Checks(times, month, week, d).retired
    ensures times[|times| - 1] > times[0] + 2 * month
  {
    var front := times[..|times| - 1];
    if front == [] {
    } else {
      CreatedAtFirstCheck(front, month, week, d);
      if Checks(front, month, week, d).retired {
        RetiredIsLate(front, month, week, d);
      }
    }
  }

  /**
   After any checks the next one attempts the payment exactly when none was made before, or: it is at most two months
   after the first attempt; within the first month the last attempt is a week ago or more; and between one and two
   months it is a month ago or more. So a payment idle for a month is tried once more.
   */
  lemma NextCheckAttemptsExactly(times: seq<int>, now: int, month: Span, week: Span, d: Document)
    requires Increasing(times + [now])
    ensures var before, after := Checks(times, month, week, d).attempts, Checks(times + [now], month, week, d).attempts;
            && (times == [] ==> after == [now])
            && (times != [] ==>
                  && before != []
                  && var first, last := before[0], before[|before| - 1];
                     after == if && now <= first + 2 * month
                                 && (now < first + month ==> last + week <= now)
                                 && (first + month < now < first + 2 * month ==> last + month <= now)
                              then before + [now] else before)
  {
    ChecksSnoc(times, now, month, week, d);
    if times != [] {
      var p := Checks(times, month, week, d);
      forall i, j | 0 <= i < j < |times| ensures times[i] < times[j] {
        assert (times + [now])[i] < (times + [now])[j];
      }
      assert (times + [now])[|times| - 1] < (times + [now])[|times|];
      ChecksAreThrottled(times, month, week, d);
      CreatedAtFirstCheck(times, month, week, d);
      AttemptsStartAtFirst(times, month, week, d);
      if p.retired {
        RetiredIsLate(times, month, week, d);
      }
    }
  }

  // ---------------------------------------------------------------- the bound is reached

  function Weekly(k: nat, week: Span): seq<int> {
    seq(k, i => i * week)
  }

  lemma {:induction false} WeeklyAttempts(k: nat, month: Span, week: Span, d: Document)
    requires 0 < k <= Weeks(month, week)
    ensures Checks(Weekly(k, week), month, week, d) == Payment(Some(Log(0, (k - 1) * week)), false, Weekly(k, week))
  {
    var times := Weekly(k, week);
    if k == 1 {
      assert times == [0] && times[..0] == [];
    } else {
      WeeklyAttempts(k - 1, month, week, d);
      assert times[..k - 1] == Weekly(k - 1, week);
      assert (k - 1) * week == (k - 2) * week + week;
      BegunWeek(k, month, week);
      assert Weekly(k - 1, week) + [(k - 1) * week] == times;
    }
  }

  /** The k-th begun week starts before the month is over. */
  lemma BegunWeek(k: nat, month: Span, week: Span)
    requires 0 < k <= Weeks(month, week)
    ensures (k - 1) * week < month
  {
    var w := Weeks(month, week);
    assert w * week <= month + week - 1;
    TimesKeepsOrder(k - 1, w, week);
  }

  lemma WeeklyIsIncreasing(k: nat, week: Span)
    ensures Increasing(Weekly(k, week))
  {
    forall i, j | 0 <= i < j < k ensures Weekly(k, week)[i] < Weekly(k, week)[j] {
      TimesKeepsOrder(i, j, week);
    }
  }

  lemma ScheduleIsIncreasing(month: Span, week: Span)
    ensures Increasing(Weekly(Weeks(month, week), week) + [month] + [2 * month])
  {
    var k := Weeks(month, week);
    WeeklyIsIncreasing(k, week);
    forall i | 0 <= i < k ensures Weekly(k, week)[i] < month {
      BegunWeek(i + 1, month, week);
    }
  }

  /** Checked weekly in the first month and at the exact ages of one and two months, it is attempted that often. */
  lemma BoundIsReached(month: Span, week: Span, d: Document)
    ensures var times := Weekly(Weeks(month, week), week) + [month] + [2 * month];
            Increasing(times) && |Checks(times, month, week, d).attempts| == Weeks(month, week) + 2
  {
    var k := Weeks(month, week);
    ScheduleIsIncreasing(month, week);
    FitsInMonth(1, month, week);
    WeeklyAttempts(k, month, week, d);
    ChecksSnoc(Weekly(k, week), month, month, week, d);
    ChecksSnoc(Weekly(k, week) + [month], 2 * month, month, week, d);
  }

  lemma ChecksSnoc(times: seq<int>, now: int, month: Span, week: Span, d: Document)
    ensures Checks(times + [now], month, week, d) == Check(Checks(times, month, week, d), now, month, week, d)
  {
    assert (times + [now])[..|times|] == times;
  }
}
