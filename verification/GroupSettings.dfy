/** The form of the grouping settings and the two field lists it rewrites. */
module GroupSettings {
  import opened Common
  import opened Expenses
  import opened Grouping
  import opened GroupCreation

  const GROUPABLE: seq<string> := ["settlement_id", "claim_number", "report_id", "category", "vendor", "expense_id"]

  const EXPORT_DATES: seq<string> :=
    ["current_date", "approved_at", "spent_at", "verified_at", "last_spent_at", "posted_at"]

  const DEFAULT_FIELDS: seq<string> := ["employee_email", "report_id", "claim_number", "fund_source"]

  /** The submitted field lists and export dates of reimbursable and of card expenses. */
  datatype Form = Form(reimbursable: seq<string>, card: seq<string>, reimbursableDate: string, cardDate: string)

  /** The stored field lists. */
  datatype Fields = Fields(reimbursable: seq<string>, card: seq<string>)

  // ---------------------------------------------------------------- what the form asks for

  /** The chosen export date, as a field; the current date is no field. */
  function DateField(date: string): set<string> {
    if date == "current_date" then {} else {date}
  }

  /** One list on its own: ungroupable stored fields and the form's, with the chosen export date only. */
  function Wanted(before: set<string>, form: set<string>, date: string): set<string> {
    before - Elems(GROUPABLE) + form - Elems(EXPORT_DATES) + DateField(date)
  }

  /** Reimbursable claims pull the report into both lists, unless the card list is empty. */
  function ReportPulled(reimbursable: set<string>, card: set<string>): set<string> {
    if "claim_number" in reimbursable && card != {} then {"report_id"} else {}
  }

  function NewReimbursable(before: Fields, form: Form): set<string> {
    var r := Wanted(Elems(before.reimbursable), Elems(form.reimbursable), form.reimbursableDate);
    r + ReportPulled(r, Wanted(Elems(before.card), Elems(form.card), form.cardDate))
  }

  function NewCard(before: Fields, form: Form): set<string> {
    var c := Wanted(Elems(before.card), Elems(form.card), form.cardDate);
    c + ReportPulled(Wanted(Elems(before.reimbursable), Elems(form.reimbursable), form.reimbursableDate), c)
  }

  /** after holds the fields the form asks for, in any order. */
  ghost predicate Applied(before: Fields, form: Form, after: Fields) {
    Elems(after.reimbursable) == NewReimbursable(before, form) && Elems(after.card) == NewCard(before, form)
  }

  // ---------------------------------------------------------------- the update in place

  lemma OneMoreRemoved(stored: seq<string>, i: nat, gone: set<string>)
    requires i < |stored|
    ensures var current := Without(stored[..i], gone) + stored[i..];
            var next := Without(stored[..i + 1], gone) + stored[i + 1..];
            if stored[i] in gone then stored[i] in current && RemoveFirst(current, stored[i]) == next
            else current == next
  {
    var done, rest := Without(stored[..i], gone), stored[i + 1..];
    assert stored[..i + 1] == stored[..i] + [stored[i]];
    WithoutConcat(stored[..i], [stored[i]], gone);
    assert done + stored[i..] == done + [stored[i]] + rest;
    if stored[i] in gone {
      RemoveFirstAt(done, stored[i], rest);
    }
  }

  /** Removing every groupable field, one occurrence at a time, from the list being copied. */
  method RemoveGroupable(stored: seq<string>) returns (current: seq<string>)
    ensures current == Without(stored, Elems(GROUPABLE))
  {
    current := stored;
    for i := 0 to |stored|
      invariant current == Without(stored[..i], Elems(GROUPABLE)) + stored[i..]
    {
      OneMoreRemoved(stored, i, Elems(GROUPABLE));
      if stored[i] in GROUPABLE {
        current := RemoveFirst(current, stored[i]);
      }
    }
    assert stored[..|stored|] == stored;
  }

  /** The claim number follows the report. */
  method PairClaimNumber(fields: seq<string>) returns (current: seq<string>)
    ensures "report_id" in fields ==> current == fields + ["claim_number"]
    ensures "report_id" !in fields ==>
              current == if "claim_number" in fields then RemoveFirst(fields, "claim_number") else fields
  {
    current := fields;
    if "report_id" !in current {
      if "claim_number" in current {
        current := RemoveFirst(current, "claim_number");
      }
    } else {
      current := current + ["claim_number"];
    }
  }

  method RemoveExportDates(fields: seq<string>) returns (current: seq<string>)
    requires NoDup(fields)
    ensures Elems(current) == Elems(fields) - Elems(EXPORT_DATES)
  {
    current := fields;
    for i := 0 to |EXPORT_DATES|
      invariant NoDup(current)
      invariant forall f :: f in current <==> f in fields && f !in EXPORT_DATES[..i]
    {
      if EXPORT_DATES[i] in current {
        RemoveFirstOfDistinct(current, EXPORT_DATES[i]);
        WithoutKeepsNoDup(current, {EXPORT_DATES[i]});
        current := RemoveFirst(current, EXPORT_DATES[i]);
      }
    }
    assert EXPORT_DATES[..|EXPORT_DATES|] == EXPORT_DATES;
  }

  /** The steps for one of the two lists up to its export date. */
  method Rewrite(stored: seq<string>, form: seq<string>, date: string) returns (grouped: seq<string>)
    ensures Elems(grouped) == Wanted(Elems(stored), Elems(form), date)
  {
    var current := RemoveGroupable(stored);
    PairingIsIdle(stored);
    current := PairClaimNumber(current);
    assert Elems(current) == Elems(stored) - Elems(GROUPABLE);
    grouped := [];
    grouped := grouped + current;
    grouped := grouped + form;
    assert Elems(grouped) == Elems(stored) - Elems(GROUPABLE) + Elems(form);
    grouped := DistinctInSomeOrder(grouped);
    grouped := RemoveExportDates(grouped);
    ghost var undated := Elems(grouped);
    if date != "current_date" {
      grouped := grouped + [date];
    }
    assert Elems(grouped) == undated + DateField(date);
  }

  class ExpenseGroupSettings {
    var reimbursable: seq<string>
    var card: seq<string>

    function Now(): Fields
      reads this
    {
      Fields(reimbursable, card)
    }

    /** A new workspace. */
    constructor ()
      ensures Now() == Fields(DEFAULT_FIELDS, DEFAULT_FIELDS)
    {
      reimbursable, card := DEFAULT_FIELDS, DEFAULT_FIELDS;
    }

    /** update_expense_group_settings. */
    method UpdateExpenseGroupSettings(form: Form)
      modifies this
      ensures Applied(old(Now()), form, Now())
    {
      var newReimbursable := Rewrite(reimbursable, form.reimbursable, form.reimbursableDate);
      var newCard := Rewrite(card, form.card, form.cardDate);
      assert newCard != [] ==> newCard[0] in Elems(newCard);
      if "claim_number" in newReimbursable && newCard != [] {
        newReimbursable := newReimbursable + ["report_id"];
        newCard := newCard + ["report_id"];
      }
      reimbursable, card := newReimbursable, newCard;
    }
  }

  // ---------------------------------------------------------------- what a form keeps and does

  /** The only export date left in a list is the chosen one. */
  lemma OneExportDate(before: Fields, form: Form, after: Fields, date: string)
    requires Applied(before, form, after) && date in EXPORT_DATES
    ensures date in after.reimbursable <==> date == form.reimbursableDate && date != "current_date"
    ensures date in after.card <==> date == form.cardDate && date != "current_date"
  {
    assert date in Elems(EXPORT_DATES);
    assert date in after.reimbursable <==> date in Elems(after.reimbursable);
    assert date in after.card <==> date in Elems(after.card);
  }

  /** Fields outside the two managed families survive every form. */
  lemma OtherFieldsSurvive(before: Fields, form: Form, after: Fields, field: string)
    requires Applied(before, form, after) && field !in GROUPABLE && field !in EXPORT_DATES
    ensures field in before.reimbursable ==> field in after.reimbursable
    ensures field in before.card ==> field in after.card
  {
    assert field in after.reimbursable <==> field in Elems(after.reimbursable);
    assert field in after.card <==> field in Elems(after.card);
  }

  lemma WantedTwice(before: set<string>, form: set<string>, date: string, pulled: set<string>)
    requires pulled <= {"report_id"}
    ensures Wanted(Wanted(before, form, date) + pulled, form, date) == Wanted(before, form, date)
  {
    assert "report_id" in Elems(GROUPABLE) by {
      assert GROUPABLE[2] == "report_id";
    }
  }

  /** Applying the same form twice gives the same fields as once. */
  lemma FormIsIdempotent(before: Fields, form: Form, once: Fields, twice: Fields)
    requires Applied(before, form, once) && Applied(once, form, twice)
    ensures Elems(twice.reimbursable) == Elems(once.reimbursable) && Elems(twice.card) == Elems(once.card)
  {
    var r := Wanted(Elems(before.reimbursable), Elems(form.reimbursable), form.reimbursableDate);
    var c := Wanted(Elems(before.card), Elems(form.card), form.cardDate);
    WantedTwice(Elems(before.reimbursable), Elems(form.reimbursable), form.reimbursableDate, ReportPulled(r, c));
    WantedTwice(Elems(before.card), Elems(form.card), form.cardDate, ReportPulled(r, c));
  }

  predicate IsGroupable(field: string) {
    || field == "settlement_id" || field == "claim_number" || field == "report_id" || field == "category"
    || field == "vendor" || field == "expense_id"
  }

  predicate IsExportDate(field: string) {
    || field == "current_date" || field == "approved_at" || field == "spent_at" || field == "verified_at"
    || field == "last_spent_at" || field == "posted_at"
  }

  lemma NamesAreListed(field: string)
    ensures field in GROUPABLE <==> IsGroupable(field)
    ensures field in EXPORT_DATES <==> IsExportDate(field)
  {
    var g, d := GROUPABLE, EXPORT_DATES;
    assert g[0] == "settlement_id" && g[1] == "claim_number" && g[2] == "report_id" && g[3] == "category";
    assert g[4] == "vendor" && g[5] == "expense_id";
    assert d[0] == "current_date" && d[1] == "approved_at" && d[2] == "spent_at" && d[3] == "verified_at";
    assert d[4] == "last_spent_at" && d[5] == "posted_at";
  }

  /** The field is in a list on its own: chosen as the date, submitted, or stored before and none of the groupable. */
  predicate IsAskedFor(before: seq<string>, form: seq<string>, date: string, field: string) {
    if IsExportDate(field) then field == date && field != "current_date"
    else field == date || field in form || (field in before && !IsGroupable(field))
  }

  lemma WantedExactly(before: seq<string>, form: seq<string>, date: string, field: string)
    ensures field in Wanted(Elems(before), Elems(form), date) <==> IsAskedFor(before, form, date, field)
  {
    NamesAreListed(field);
    assert field in Elems(GROUPABLE) <==> field in GROUPABLE;
    assert field in Elems(EXPORT_DATES) <==> field in EXPORT_DATES;
  }

  /** Some field is left in the card list. */
  ghost predicate AsksForCard(before: Fields, form: Form) {
    exists field :: IsAskedFor(before.card, form.card, form.cardDate, field)
  }

  /**
   Which fields the form stores: in each list exactly those asked for, and the report in both when the reimbursable
   list has the claim number and the card list is not empty.
   */
  lemma FormStoresExactly(before: Fields, form: Form, after: Fields, field: string)
    requires Applied(before, form, after)
    ensures var pulled := field == "report_id" && AsksForCard(before, form)
                          && IsAskedFor(before.reimbursable, form.reimbursable, form.reimbursableDate, "claim_number");
            && (field in after.reimbursable <==>
                  IsAskedFor(before.reimbursable, form.reimbursable, form.reimbursableDate, field) || pulled)
            && (field in after.card <==> IsAskedFor(before.card, form.card, form.cardDate, field) || pulled)
  {
    var c := Wanted(Elems(before.card), Elems(form.card), form.cardDate);
    WantedExactly(before.reimbursable, form.reimbursable, form.reimbursableDate, field);
    WantedExactly(before.reimbursable, form.reimbursable, form.reimbursableDate, "claim_number");
    WantedExactly(before.card, form.card, form.cardDate, field);
    assert AsksForCard(before, form) <==> c != {} by {
      if f :| f in c {
        WantedExactly(before.card, form.card, form.cardDate, f);
      }
      if f :| IsAskedFor(before.card, form.card, form.cardDate, f) {
        WantedExactly(before.card, form.card, form.cardDate, f);
      }
    }
    assert field in after.reimbursable <==> field in Elems(after.reimbursable);
    assert field in after.card <==> field in Elems(after.card);
  }

  lemma ClaimIsGroupable()
    ensures "claim_number" in Elems(GROUPABLE) && "report_id" in Elems(GROUPABLE)
    ensures "claim_number" !in EXPORT_DATES && "report_id" !in EXPORT_DATES
  {
    assert GROUPABLE[1] == "claim_number" && GROUPABLE[2] == "report_id";
  }

  // ---------------------------------------------------------------- every settings history can store its groups

  /** A history of stored lists: the defaults, then one form after the other. */
  ghost predicate History(states: seq<Fields>, forms: seq<Form>) {
    && |states| == |forms| + 1
    && states[0] == Fields(DEFAULT_FIELDS, DEFAULT_FIELDS)
    && forall i :: 0 <= i < |forms| ==> Applied(states[i], forms[i], states[i + 1])
  }

  lemma FundSourceIsUnmanaged()
    ensures "fund_source" in DEFAULT_FIELDS && "fund_source" !in GROUPABLE && "fund_source" !in EXPORT_DATES
  {
    assert DEFAULT_FIELDS[3] == "fund_source";
  }

  lemma {:induction false} FundSourceStays(states: seq<Fields>, forms: seq<Form>, i: nat)
    requires History(states, forms) && i < |states|
    ensures "fund_source" in states[i].reimbursable && "fund_source" in states[i].card
  {
    FundSourceIsUnmanaged();
    if i == 0 {
    } else {
      FundSourceStays(states, forms, i - 1);
      assert Applied(states[i - 1], forms[i - 1], states[i - 1 + 1]);
      OtherFieldsSurvive(states[i - 1], forms[i - 1], states[i], "fund_source");
    }
  }

  /**
   Over any history the card list groups by report exactly when the form says so or when it asks for reimbursable
   claims, also for a card form that asks for another grouping. An export date could name either field as well.
   */
  lemma CardReportExactly(states: seq<Fields>, forms: seq<Form>, i: nat)
    requires History(states, forms) && i < |forms|
    ensures "report_id" in states[i + 1].card <==>
              || "report_id" in forms[i].card || forms[i].cardDate == "report_id"
              || "claim_number" in forms[i].reimbursable || forms[i].reimbursableDate == "claim_number"
  {
    var before, form, after := states[i], forms[i], states[i + 1];
    var r := Wanted(Elems(before.reimbursable), Elems(form.reimbursable), form.reimbursableDate);
    var c := Wanted(Elems(before.card), Elems(form.card), form.cardDate);
    ClaimIsGroupable();
    FundSourceStays(states, forms, i);
    assert "fund_source" in c by {
      assert "fund_source" in Elems(before.card);
    }
    assert "report_id" in after.card <==> "report_id" in Elems(after.card);
    assert "claim_number" in r <==> "claim_number" in form.reimbursable || form.reimbursableDate == "claim_number";
    assert "report_id" in c <==> "report_id" in form.card || form.cardDate == "report_id";
  }

  /**
   Over any history, what the last form stores: a submitted field that is no export date is in its list, and so is the
   chosen date unless it is the current one; any other field is in it exactly when it was before and is none of the six
   groupable ones nor an export date, but for the report that claims pull in.
   */
  lemma HistoryStoresExactly(states: seq<Fields>, forms: seq<Form>, i: nat, field: string)
    requires History(states, forms) && i < |forms|
    ensures var before, form, after := states[i], forms[i], states[i + 1];
            var pulled := field == "report_id"
                          && ("claim_number" in form.reimbursable || form.reimbursableDate == "claim_number");
            && (field in after.reimbursable <==>
                  IsAskedFor(before.reimbursable, form.reimbursable, form.reimbursableDate, field) || pulled)
            && (field in after.card <==> IsAskedFor(before.card, form.card, form.cardDate, field) || pulled)
            && (!IsExportDate(field) && field in form.reimbursable ==> field in after.reimbursable)
            && (!IsExportDate(field) && field in form.card ==> field in after.card)
  {
    FormStoresExactly(states[i], forms[i], states[i + 1], field);
    FundSourceStays(states, forms, i);
    assert IsAskedFor(states[i].card, forms[i].card, forms[i].cardDate, "fund_source");
  }

  /**
   The stored lists never hold report_id or claim_number when the form decides whether to pair them, so that the
   branch adding claim_number next to report_id is not taken and the other one removes nothing.
   */
  lemma PairingIsIdle(stored: seq<string>)
    ensures var current := Without(stored, Elems(GROUPABLE));
            "report_id" !in current && "claim_number" !in current
  {
    ClaimIsGroupable();
  }

  /** Whatever forms were submitted, creating groups never misses the fund source of a description. */
  lemma HistoryNeverFailsCreation(states: seq<Fields>, forms: seq<Form>, i: nat, table: Table, st: Settings,
                                  ids: seq<nat>)
    requires History(states, forms) && i < |states|
    requires st.reimbursableFields == states[i].reimbursable && st.cccFields == states[i].card
    ensures CreateGroups(table, st, ids).Success?
  {
    FundSourceStays(states, forms, i);
  }
}
