/** Marking reports paid in Fyle once all their reimbursable expenses are paid on NetSuite. */
module MarkPaid {
  import opened Common

  /** The columns of an expense that reimbursement reads and writes. */
  datatype ExpenseRow = ExpenseRow(report: string, personal: bool, paidOnNetsuite: bool, paidOnFyle: bool)

  type Expenses = map<nat, ExpenseRow>

  /** One complaint about a report; final when its message says that the report can never be marked. */
  datatype Item = Item(key: string, final: bool)

  /** Accepted, an error with a response body, or one without. */
  datatype Response = Accepted | Rejected(items: seq<Item>) | Lost

  /** The platform's answer to the n-th call with these report ids. */
  type Platform = (nat, seq<string>) -> Response

  /** marked: reports set paid in the own table; left and payloads: what is still to be marked at the end. */
  datatype Outcome =
    | Finished(marked: set<string>, payloads: seq<string>, left: set<string>, calls: nat, accepted: bool)
    | Crashed(marked: set<string>, calls: nat)

  function FinalKeys(items: seq<Item>): set<string> {
    if items == [] then {}
    else FinalKeys(items[..|items| - 1]) + if items[|items| - 1].final then {items[|items| - 1].key} else {}
  }

  /**
   mark_paid_on_fyle. marked and call accumulate over the recursion. Removing a key that is not in the set of
   reports raises, as does an error without a response.
   */
  function Mark(marked: set<string>, payloads: seq<string>, left: set<string>, retries: nat, platform: Platform,
                call: nat): Outcome
    decreases retries
  {
    match platform(call, payloads)
    case Accepted => Finished(marked + left, payloads, left, call + 1, true)
    case Lost => Crashed(marked, call + 1)
    case Rejected(items) =>
      var gone := FinalKeys(items);
      if !(gone <= left) then Crashed(marked + gone, call + 1)
      else if retries > 0 && Without(payloads, gone) != [] then
        Mark(marked + gone, Without(payloads, gone), left - gone, retries - 1, platform, call + 1)
      else Finished(marked + gone, Without(payloads, gone), left - gone, call + 1, false)
  }

  lemma {:induction false} CallsBounded(marked: set<string>, payloads: seq<string>, left: set<string>, retries: nat,
                                        platform: Platform, call: nat)
    ensures call < Mark(marked, payloads, left, retries, platform, call).calls <= call + retries + 1
    decreases retries
  {
    var r := platform(call, payloads);
    if r.Rejected? {
      var gone := FinalKeys(r.items);
      if gone <= left && retries > 0 && Without(payloads, gone) != [] {
        CallsBounded(marked + gone, Without(payloads, gone), left - gone, retries - 1, platform, call + 1);
      }
    }
  }

  /**
   On exit the payload still names exactly the reports in the set. Unless the platform accepted the last call,
   which marks them all, the reports handed in are divided into those marked and those left, and some are left
   only when every retry was used.
   */
  lemma {:induction false} MarkExit(marked: set<string>, payloads: seq<string>, left: set<string>, retries: nat,
                                    platform: Platform, call: nat)
    requires Elems(payloads) == left && marked !! left
    ensures var o := Mark(marked, payloads, left, retries, platform, call);
            o.Finished? ==>
              && Elems(o.payloads) == o.left
              && if o.accepted then o.marked == marked + left
                 else o.marked + o.left == marked + left && o.marked !! o.left
                      && (o.left != {} ==> o.calls == call + retries + 1)
    decreases retries
  {
    var r := platform(call, payloads);
    if r.Rejected? {
      var gone := FinalKeys(r.items);
      if gone <= left {
        assert Elems(Without(payloads, gone)) == left - gone;
        if retries > 0 && Without(payloads, gone) != [] {
          MarkExit(marked + gone, Without(payloads, gone), left - gone, retries - 1, platform, call + 1);
        } else if retries > 0 {
          assert left - gone == {};
        }
      }
    }
  }

  /** The platform always answers with a body, and complains only about reports the call names. */
  ghost predicate Faithful(platform: Platform) {
    forall n, ids :: platform(n, ids) != Lost &&
      (platform(n, ids).Rejected? ==> FinalKeys(platform(n, ids).items) <= Elems(ids))
  }

  /** What a call sends: its report ids, and the set of reports still to be marked. */
  datatype Request = Request(payloads: seq<string>, left: set<string>)

  /** The k-th call of a run, if the run makes it. */
  function CallOf(payloads: seq<string>, left: set<string>, platform: Platform, call: nat, k: nat): Option<Request>
    decreases k
  {
    if k == 0 then Some(Request(payloads, left))
    else
      match platform(call, payloads)
      case Rejected(items) =>
        var gone := FinalKeys(items);
        if gone <= left && Without(payloads, gone) != [] then
          CallOf(Without(payloads, gone), left - gone, platform, call + 1, k - 1)
        else None
      case _ => None
  }

  /** The k-th call is answered without a body, or with a final complaint about a report that is not in the set. */
  predicate IsUnanswerable(payloads: seq<string>, left: set<string>, platform: Platform, call: nat, k: nat) {
    var request := CallOf(payloads, left, platform, call, k);
    request.Some? &&
    match platform(call + k, request.value.payloads)
    case Accepted => false
    case Lost => true
    case Rejected(items) => !(FinalKeys(items) <= request.value.left)
  }

  /** One of the calls of a run with these retries. */
  ghost predicate SomeCallFails(payloads: seq<string>, left: set<string>, retries: nat, platform: Platform, call: nat) {
    exists k: nat :: k <= retries && IsUnanswerable(payloads, left, platform, call, k)
  }

  /** The first call is answered so that the run goes on while retries are left. */
  predicate GoesOn(payloads: seq<string>, left: set<string>, platform: Platform, call: nat) {
    var r := platform(call, payloads);
    r.Rejected? && FinalKeys(r.items) <= left && Without(payloads, FinalKeys(r.items)) != []
  }

  lemma LaterCall(payloads: seq<string>, left: set<string>, platform: Platform, call: nat, k: nat)
    requires GoesOn(payloads, left, platform, call)
    ensures var gone := FinalKeys(platform(call, payloads).items);
            IsUnanswerable(payloads, left, platform, call, k + 1) <==>
              IsUnanswerable(Without(payloads, gone), left - gone, platform, call + 1, k)
  {
    assert call + (k + 1) == (call + 1) + k;
  }

  lemma FailsLater(payloads: seq<string>, left: set<string>, retries: nat, platform: Platform, call: nat)
    requires GoesOn(payloads, left, platform, call)
    ensures var gone := FinalKeys(platform(call, payloads).items);
            SomeCallFails(payloads, left, retries, platform, call) <==>
              retries > 0 && SomeCallFails(Without(payloads, gone), left - gone, retries - 1, platform, call + 1)
  {
    var gone := FinalKeys(platform(call, payloads).items);
    var next := Without(payloads, gone);
    if SomeCallFails(payloads, left, retries, platform, call) {
      var k: nat :| k <= retries && IsUnanswerable(payloads, left, platform, call, k);
      assert !IsUnanswerable(payloads, left, platform, call, 0);
      LaterCall(payloads, left, platform, call, k - 1);
      assert IsUnanswerable(next, left - gone, platform, call + 1, k - 1);
    }
    if retries > 0 && SomeCallFails(next, left - gone, retries - 1, platform, call + 1) {
      var k: nat :| k <= retries - 1 && IsUnanswerable(next, left - gone, platform, call + 1, k);
      LaterCall(payloads, left, platform, call, k);
      assert IsUnanswerable(payloads, left, platform, call, k + 1);
    }
  }

  lemma FailsNowOrNever(payloads: seq<string>, left: set<string>, retries: nat, platform: Platform, call: nat)
    requires !GoesOn(payloads, left, platform, call)
    ensures SomeCallFails(payloads, left, retries, platform, call) <==>
              IsUnanswerable(payloads, left, platform, call, 0)
  {
    forall k: nat | IsUnanswerable(payloads, left, platform, call, k) ensures k == 0 {
    }
  }

  /** A run ends with an exception exactly when one of the calls it makes cannot be answered. */
  lemma {:induction false} CrashesExactly(marked: set<string>, payloads: seq<string>, left: set<string>, retries: nat,
                                          platform: Platform, call: nat)
    ensures Mark(marked, payloads, left, retries, platform, call).Crashed? <==>
              SomeCallFails(payloads, left, retries, platform, call)
    decreases retries
  {
    if GoesOn(payloads, left, platform, call) {
      FailsLater(payloads, left, retries, platform, call);
      if retries > 0 {
        var gone := FinalKeys(platform(call, payloads).items);
        CrashesExactly(marked + gone, Without(payloads, gone), left - gone, retries - 1, platform, call + 1);
      }
    } else {
      FailsNowOrNever(payloads, left, retries, platform, call);
    }
  }

  /** A platform that answers with a body and complains only about reports the call names never causes one. */
  lemma FaithfulNeverCrashes(marked: set<string>, payloads: seq<string>, left: set<string>, retries: nat,
                             platform: Platform, call: nat)
    requires Faithful(platform) && Elems(payloads) == left
    ensures Mark(marked, payloads, left, retries, platform, call).Finished?
  {
    CrashesExactly(marked, payloads, left, retries, platform, call);
    forall k: nat ensures !IsUnanswerable(payloads, left, platform, call, k) {
      CallNamesTheSet(payloads, left, platform, call, k);
    }
  }

  /** Every call of a run names exactly the reports in the set. */
  lemma {:induction false} CallNamesTheSet(payloads: seq<string>, left: set<string>, platform: Platform, call: nat,
                                           k: nat)
    requires Elems(payloads) == left
    ensures var request := CallOf(payloads, left, platform, call, k);
            request.Some? ==> Elems(request.value.payloads) == request.value.left
    decreases k
  {
    var r := platform(call, payloads);
    if k > 0 && r.Rejected? && FinalKeys(r.items) <= left {
      var gone := FinalKeys(r.items);
      assert Elems(Without(payloads, gone)) == left - gone;
      CallNamesTheSet(Without(payloads, gone), left - gone, platform, call + 1, k - 1);
    }
  }

  // ---------------------------------------------------------------- which calls are made and what they mark

  /** One of the complaints is final and about this report. */
  predicate IsFinal(items: seq<Item>, report: string) {
    exists i :: 0 <= i < |items| && items[i].final && items[i].key == report
  }

  lemma {:induction false} FinalKeysExactly(items: seq<Item>, report: string)
    ensures report in FinalKeys(items) <==> IsFinal(items, report)
  {
    if items == [] {
    } else {
      var n := |items| - 1;
      FinalKeysExactly(items[..n], report);
      if i :| 0 <= i < |items| && items[i].final && items[i].key == report {
        assert i < n ==> items[..n][i] == items[i];
      }
      if i :| 0 <= i < n && items[..n][i].final && items[..n][i].key == report {
        assert items[i] == items[..n][i];
      }
    }
  }

  /** A run makes its calls one by one: those with a next request, as far as the retries go. */
  lemma {:induction false} CallsExactly(marked: set<string>, payloads: seq<string>, left: set<string>, retries: nat,
                                        platform: Platform, call: nat, k: nat)
    ensures call + k < Mark(marked, payloads, left, retries, platform, call).calls <==>
              k <= retries && CallOf(payloads, left, platform, call, k).Some?
    decreases retries
  {
    if k == 0 {
      CallsBounded(marked, payloads, left, retries, platform, call);
    } else if GoesOn(payloads, left, platform, call) && retries > 0 {
      var gone := FinalKeys(platform(call, payloads).items);
      assert call + k == (call + 1) + (k - 1);
      CallsExactly(marked + gone, Without(payloads, gone), left - gone, retries - 1, platform, call + 1, k - 1);
    }
  }

  /** The call after this one. */
  lemma {:induction false} NextCall(payloads: seq<string>, left: set<string>, platform: Platform, call: nat, k: nat)
    ensures CallOf(payloads, left, platform, call, k + 1) ==
              var request := CallOf(payloads, left, platform, call, k);
              if request.Some? && GoesOn(request.value.payloads, request.value.left, platform, call + k) then
                var gone := FinalKeys(platform(call + k, request.value.payloads).items);
                Some(Request(Without(request.value.payloads, gone), request.value.left - gone))
              else None
    decreases k
  {
    if !GoesOn(payloads, left, platform, call) {
      assert CallOf(payloads, left, platform, call, k + 1) == None;
    } else if k > 0 {
      var gone := FinalKeys(platform(call, payloads).items);
      var next, rest := Without(payloads, gone), left - gone;
      assert CallOf(payloads, left, platform, call, k) == CallOf(next, rest, platform, call + 1, k - 1);
      assert CallOf(payloads, left, platform, call, k + 1) == CallOf(next, rest, platform, call + 1, k);
      assert call + k == (call + 1) + (k - 1);
      NextCall(next, rest, platform, call + 1, k - 1);
    }
  }

  /**
   There is a next call exactly when this one is rejected with final complaints about reports of the set only, and some
   report of the call has none; it sends the reports without a final complaint.
   */
  lemma NextCallExactly(payloads: seq<string>, left: set<string>, platform: Platform, call: nat, k: nat)
    requires CallOf(payloads, left, platform, call, k).Some?
    ensures var request, next := CallOf(payloads, left, platform, call, k).value,
                                 CallOf(payloads, left, platform, call, k + 1);
            var r := platform(call + k, request.payloads);
            && (next.Some? <==>
                  && r.Rejected?
                  && (forall i :: 0 <= i < |r.items| && r.items[i].final ==> r.items[i].key in request.left)
                  && exists report :: report in request.payloads && !IsFinal(r.items, report))
            && (next.Some? ==>
                  forall report ::
                    && (report in next.value.payloads <==> report in request.payloads && !IsFinal(r.items, report))
                    && (report in next.value.left <==> report in request.left && !IsFinal(r.items, report)))
  {
    NextCall(payloads, left, platform, call, k);
    var request := CallOf(payloads, left, platform, call, k).value;
    var r := platform(call + k, request.payloads);
    if r.Rejected? {
      forall report ensures report in FinalKeys(r.items) <==> IsFinal(r.items, report) {
        FinalKeysExactly(r.items, report);
      }
      forall i | 0 <= i < |r.items| && r.items[i].final ensures r.items[i].key in FinalKeys(r.items) {
        assert IsFinal(r.items, r.items[i].key);
      }
      var rest := Without(request.payloads, FinalKeys(r.items));
      assert rest != [] <==> exists report :: report in rest by {
        if rest != [] {
          assert rest[0] in rest;
        }
      }
    }
  }

  /** The k-th call is made and marks the report: it is accepted with the report in the set, or complains finally. */
  ghost predicate MarksAt(payloads: seq<string>, left: set<string>, platform: Platform, call: nat, k: nat,
                          report: string) {
    var request := CallOf(payloads, left, platform, call, k);
    request.Some? &&
    match platform(call + k, request.value.payloads)
    case Accepted => report in request.value.left
    case Lost => false
    case Rejected(items) => IsFinal(items, report)
  }

  ghost predicate SomeCallMarks(payloads: seq<string>, left: set<string>, retries: nat, platform: Platform, call: nat,
                                report: string) {
    exists k: nat :: k <= retries && MarksAt(payloads, left, platform, call, k, report)
  }

  lemma MarksLater(payloads: seq<string>, left: set<string>, platform: Platform, call: nat, k: nat, report: string)
    requires GoesOn(payloads, left, platform, call)
    ensures var gone := FinalKeys(platform(call, payloads).items);
            MarksAt(payloads, left, platform, call, k + 1, report) <==>
              MarksAt(Without(payloads, gone), left - gone, platform, call + 1, k, report)
  {
    assert call + (k + 1) == (call + 1) + k;
  }

  lemma MarksNowOrLater(payloads: seq<string>, left: set<string>, retries: nat, platform: Platform, call: nat,
                        report: string)
    requires retries > 0 && GoesOn(payloads, left, platform, call)
    ensures var gone := FinalKeys(platform(call, payloads).items);
            SomeCallMarks(payloads, left, retries, platform, call, report) <==>
              || MarksAt(payloads, left, platform, call, 0, report)
              || SomeCallMarks(Without(payloads, gone), left - gone, retries - 1, platform, call + 1, report)
  {
    var gone := FinalKeys(platform(call, payloads).items);
    var next := Without(payloads, gone);
    if SomeCallMarks(payloads, left, retries, platform, call, report) {
      var k: nat :| k <= retries && MarksAt(payloads, left, platform, call, k, report);
      if k > 0 {
        MarksLater(payloads, left, platform, call, k - 1, report);
        assert MarksAt(next, left - gone, platform, call + 1, k - 1, report);
      }
    }
    if SomeCallMarks(next, left - gone, retries - 1, platform, call + 1, report) {
      var k: nat :| k <= retries - 1 && MarksAt(next, left - gone, platform, call + 1, k, report);
      MarksLater(payloads, left, platform, call, k, report);
      assert MarksAt(payloads, left, platform, call, k + 1, report);
    }
  }

  lemma MarksNowOnly(payloads: seq<string>, left: set<string>, retries: nat, platform: Platform, call: nat,
                     report: string)
    requires retries == 0 || !GoesOn(payloads, left, platform, call)
    ensures SomeCallMarks(payloads, left, retries, platform, call, report) <==>
              MarksAt(payloads, left, platform, call, 0, report)
  {
    forall k: nat | k <= retries && MarksAt(payloads, left, platform, call, k, report) ensures k == 0 {
    }
  }

  /** A run marks a report exactly when one of its calls is accepted for it or complains finally about it. */
  lemma {:induction false} MarkedExactly(marked: set<string>, payloads: seq<string>, left: set<string>, retries: nat,
                                         platform: Platform, call: nat, report: string)
    ensures report in Mark(marked, payloads, left, retries, platform, call).marked <==>
              report in marked || SomeCallMarks(payloads, left, retries, platform, call, report)
    decreases retries
  {
    var r := platform(call, payloads);
    if r.Rejected? {
      FinalKeysExactly(r.items, report);
    }
    if retries > 0 && GoesOn(payloads, left, platform, call) {
      var gone := FinalKeys(r.items);
      MarksNowOrLater(payloads, left, retries, platform, call, report);
      MarkedExactly(marked + gone, Without(payloads, gone), left - gone, retries - 1, platform, call + 1, report);
    } else {
      MarksNowOnly(payloads, left, retries, platform, call, report);
    }
  }

  // ---------------------------------------------------------------- which reports are submitted

  predicate AwaitsFyle(expenses: Expenses, report: string) {
    exists id :: id in expenses && expenses[id].report == report && expenses[id].personal && !expenses[id].paidOnFyle
  }

  predicate PaidInFull(expenses: Expenses, report: string) {
    forall id :: id in expenses && expenses[id].report == report && expenses[id].personal ==>
        expenses[id].paidOnNetsuite
  }

  /** What a run is to submit. */
  predicate Due(expenses: Expenses, report: string) {
    AwaitsFyle(expenses, report) && PaidInFull(expenses, report)
  }

  function PersonalOf(expenses: Expenses, report: string): set<nat> {
    set id | id in expenses && expenses[id].report == report && expenses[id].personal
  }

  function PaidOf(expenses: Expenses, report: string): set<nat> {
    set id | id in PersonalOf(expenses, report) && expenses[id].paidOnNetsuite
  }

  /** Comparing the two counts decides whether all are paid. */
  lemma CountsDecide(expenses: Expenses, report: string)
    ensures |PersonalOf(expenses, report)| == |PaidOf(expenses, report)| <==> PaidInFull(expenses, report)
  {
    var all, paid := PersonalOf(expenses, report), PaidOf(expenses, report);
    assert all == paid + (all - paid);
    if PaidInFull(expenses, report) {
      assert all == paid;
    } else {
      var id :| id in expenses && expenses[id].report == report && expenses[id].personal
                && !expenses[id].paidOnNetsuite;
      assert id in all - paid;
    }
  }

  function PayReports(expenses: Expenses, reports: set<string>): Expenses {
    map id | id in expenses ::
      if expenses[id].report in reports then expenses[id].(paidOnFyle := true) else expenses[id]
  }

  lemma PayTwice(expenses: Expenses, a: set<string>, b: set<string>)
    ensures PayReports(PayReports(expenses, a), b) == PayReports(expenses, a + b)
  {
  }

  lemma PayNone(expenses: Expenses)
    ensures PayReports(expenses, {}) == expenses
  {
  }

  const RETRIES: nat := 10

  /**
   A run that ends divides the reports that were due into those marked and those left; unless the last call was
   accepted these are disjoint, and some are left only after every retry.
   */
  ghost predicate Settles(before: Expenses, o: Outcome) {
    o.calls <= RETRIES + 1 &&
    (o.Finished? ==>
       && (forall r :: r in o.marked + o.left <==> Due(before, r))
       && (o.accepted ==> forall r :: Due(before, r) ==> r in o.marked)
       && (!o.accepted ==> o.marked !! o.left && (o.left != {} ==> o.calls == RETRIES + 1)))
  }

  lemma MarkingSettles(expenses: Expenses, payloads: seq<string>, toMark: set<string>, platform: Platform)
    requires Elems(payloads) == toMark && forall r :: r in toMark <==> Due(expenses, r)
    ensures Settles(expenses, Mark({}, payloads, toMark, RETRIES, platform, 0))
  {
    CallsBounded({}, payloads, toMark, RETRIES, platform, 0);
    MarkExit({}, payloads, toMark, RETRIES, platform, 0);
    var o := Mark({}, payloads, toMark, RETRIES, platform, 0);
    assert {} + toMark == toMark;
    if o.Finished? && o.accepted {
      AcceptedLeavesPart({}, payloads, toMark, RETRIES, platform, 0);
      assert o.marked + o.left == toMark;
    }
  }

  /** The set never gains a report. */
  lemma {:induction false} AcceptedLeavesPart(marked: set<string>, payloads: seq<string>, left: set<string>,
                                              retries: nat, platform: Platform, call: nat)
    ensures var o := Mark(marked, payloads, left, retries, platform, call); o.Finished? ==> o.left <= left
    decreases retries
  {
    var r := platform(call, payloads);
    if r.Rejected? {
      var gone := FinalKeys(r.items);
      if gone <= left && retries > 0 && Without(payloads, gone) != [] {
        AcceptedLeavesPart(marked + gone, Without(payloads, gone), left - gone, retries - 1, platform, call + 1);
      }
    }
  }

  /** The expenses of the marked reports are paid in Fyle, and nothing else changed. */
  ghost predicate Pays(before: Expenses, marked: set<string>, after: Expenses) {
    && after.Keys == before.Keys
    && forall id :: id in before ==>
         after[id] == before[id].(paidOnFyle := before[id].paidOnFyle || before[id].report in marked)
  }

  predicate IsHeldUp(before: Expenses, report: string) {
    exists id :: id in before && before[id].report == report && before[id].personal && !before[id].paidOnNetsuite
  }

  /** An expense comes out paid in Fyle only when no personal one of its report is unpaid on NetSuite. */
  ghost predicate PaysInFullOnly(before: Expenses, after: Expenses) {
    forall id :: id in before && id in after && after[id].paidOnFyle && !before[id].paidOnFyle ==>
      !IsHeldUp(before, before[id].report)
  }

  /** Every personal expense not paid in Fyle yet has one in its report that is not paid on NetSuite. */
  ghost predicate NothingDue(before: Expenses) {
    forall id :: id in before && before[id].personal && !before[id].paidOnFyle ==> IsHeldUp(before, before[id].report)
  }

  lemma SettlingPays(before: Expenses, o: Outcome, toMark: set<string>)
    requires o.marked <= toMark && forall r :: r in toMark <==> Due(before, r)
    ensures PaysInFullOnly(before, PayReports(before, o.marked))
  {
    forall r | r in o.marked ensures Due(before, r) {
      assert r in toMark;
    }
  }

  lemma DueOrNothing(before: Expenses, toMark: set<string>)
    requires forall r :: r in toMark <==> Due(before, r)
    ensures toMark == {} <==> NothingDue(before)
  {
    if toMark != {} {
      var r :| r in toMark;
      var id :| id in before && before[id].report == r && before[id].personal && !before[id].paidOnFyle;
      assert !IsHeldUp(before, r);
    }
    if !NothingDue(before) {
      var id :| id in before && before[id].personal && !before[id].paidOnFyle && !IsHeldUp(before, before[id].report);
      assert Due(before, before[id].report);
    }
  }

  // ---------------------------------------------------------------- in place

  class Reimbursements {
    var expenses: Expenses

    /** The reports to submit, of those the query lists. */
    method CollectReports(listing: seq<string>) returns (payloads: seq<string>, toMark: set<string>)
      requires NoDup(listing) && forall r :: r in listing ==> AwaitsFyle(expenses, r)
      ensures NoDup(payloads) && Elems(payloads) == toMark
      ensures forall r :: r in toMark <==> r in listing && PaidInFull(expenses, r)
    {
      payloads, toMark := [], {};
      for i := 0 to |listing|
        invariant NoDup(payloads) && Elems(payloads) == toMark
        invariant forall r :: r in toMark <==> r in listing[..i] && PaidInFull(expenses, r)
      {
        var report := listing[i];
        var all, paid := PersonalOf(expenses, report), PaidOf(expenses, report);
        CountsDecide(expenses, report);
        assert AwaitsFyle(expenses, report);
        var id :| id in expenses && expenses[id].report == report && expenses[id].personal && !expenses[id].paidOnFyle;
        assert id in all;
        var allPaid := false;
        if |all| > 0 {
          allPaid := |all| == |paid|;
        }
        assert report !in listing[..i];
        if allPaid {
          payloads := payloads + [report];
          toMark := toMark + {report};
        }
      }
    }

    /** The complaints that are final: their reports are marked in the own table. */
    method MarkFinal(items: seq<Item>) returns (gone: set<string>)
      modifies this
      ensures gone == FinalKeys(items) && expenses == PayReports(old(expenses), gone)
    {
      gone := {};
      PayNone(expenses);
      for i := 0 to |items|
        invariant gone == FinalKeys(items[..i]) && expenses == PayReports(old(expenses), gone)
      {
        assert items[..i + 1][..i] == items[..i];
        if items[i].final {
          PayTwice(old(expenses), gone, {items[i].key});
          expenses := PayReports(expenses, {items[i].key});
          gone := gone + {items[i].key};
        }
      }
      assert items[..|items|] == items;
    }

    /** Python's set.remove in turn for every final key; ok is false when one of them is missing. */
    method RemoveKeys(payloads: seq<string>, left: set<string>, gone: set<string>)
      returns (ok: bool, payloads': seq<string>, left': set<string>)
      ensures ok == (gone <= left)
      ensures ok ==> payloads' == Without(payloads, gone) && left' == left - gone
    {
      payloads', left' := payloads, left;
      WithoutNothing(payloads, {});
      var todo: set<string>, done: set<string> := gone, {};
      while todo != {}
        invariant done + todo == gone && done !! todo && done <= left
        invariant payloads' == Without(payloads, done) && left' == left - done
        decreases todo
      {
        var key :| key in todo;
        WithoutTwice(payloads, done, {key});
        payloads' := Without(payloads', {key});
        if key !in left' {
          return false, payloads', left';
        }
        left' := left' - {key};
        done, todo := done + {key}, todo - {key};
      }
      return true, payloads', left';
    }

    method MarkPaidOnFyle(payloads: seq<string>, left: set<string>, retries: nat, platform: Platform, call: nat)
      returns (o: Outcome)
      modifies this
      ensures o == Mark({}, payloads, left, retries, platform, call)
      ensures expenses == PayReports(old(expenses), o.marked)
      decreases retries
    {
      var r := platform(call, payloads);
      if r.Accepted? {
        assert {} + left == left;
        expenses := PayReports(expenses, left);
        return Finished(left, payloads, left, call + 1, true);
      }
      if r.Lost? {
        PayNone(expenses);
        return Crashed({}, call + 1);
      }
      var gone := MarkFinal(r.items);
      var ok, payloads', left' := RemoveKeys(payloads, left, gone);
      assert {} + gone == gone;
      if !ok {
        return Crashed(gone, call + 1);
      }
      if retries > 0 && payloads' != [] {
        o := MarkPaidOnFyle(payloads', left', retries - 1, platform, call + 1);
        MarkedAccumulates(gone, payloads', left', retries - 1, platform, call + 1);
        PayTwice(old(expenses), gone, o.marked);
        o := o.(marked := gone + o.marked);
      } else {
        o := Finished(gone, payloads', left', call + 1, false);
      }
    }

    /** run_process_reimbursements: listing is the query's answer, the reports with an expense not paid on Fyle yet. */
    method RunProcessReimbursements(listing: seq<string>, platform: Platform) returns (o: Option<Outcome>)
      requires NoDup(listing) && forall r :: r in listing <==> AwaitsFyle(expenses, r)
      modifies this
      ensures o == None ==> expenses == old(expenses) && forall r :: !Due(old(expenses), r)
      ensures o.Some? ==> Settles(old(expenses), o.value) && Pays(old(expenses), o.value.marked, expenses)
      ensures o == None <==> NothingDue(old(expenses))
      ensures o.Some? && o.value.Finished? ==> PaysInFullOnly(old(expenses), expenses)
    {
      var payloads, toMark := CollectReports(listing);
      assert forall r :: r in toMark <==> Due(expenses, r);
      DueOrNothing(expenses, toMark);
      if payloads == [] {
        assert toMark == {};
        return None;
      }
      assert payloads[0] in toMark;
      var result := MarkPaidOnFyle(payloads, toMark, RETRIES, platform, 0);
      MarkingSettles(old(expenses), payloads, toMark, platform);
      if result.Finished? {
        SettlingPays(old(expenses), result, toMark);
      }
      return Some(result);
    }
  }

  /** What was marked before is kept, and changes nothing else. */
  lemma {:induction false} MarkedAccumulates(before: set<string>, payloads: seq<string>, left: set<string>,
                                             retries: nat, platform: Platform, call: nat)
    ensures var o := Mark({}, payloads, left, retries, platform, call);
            Mark(before, payloads, left, retries, platform, call) == o.(marked := before + o.marked)
    decreases retries
  {
    var r := platform(call, payloads);
    if r.Rejected? {
      var gone := FinalKeys(r.items);
      if gone <= left && retries > 0 && Without(payloads, gone) != [] {
        MarkedAccumulates(before + gone, Without(payloads, gone), left - gone, retries - 1, platform, call + 1);
        MarkedAccumulates({} + gone, Without(payloads, gone), left - gone, retries - 1, platform, call + 1);
        var o := Mark({}, Without(payloads, gone), left - gone, retries - 1, platform, call + 1);
        assert before + gone + o.marked == before + (({} + gone) + o.marked);
      } else {
        assert before + gone == before + ({} + gone);
      }
    } else {
      assert {} + left == left && before + {} == before;
    }
  }
}
