/** The ledger as the program runs it: tables updated row by row, each operation proved against its specification. */
module LedgerStore {
  import opened Common
  import opened TaskLogs
  import opened Expenses
  import opened Grouping
  import opened GroupCreation
  import opened GroupFilter
  import opened Tables
  import opened Ledger
  import opened Regrouping
  import opened FundSourceChange

  // ---------------------------------------------------------------- one row at a time

  lemma MarkOneMore(table: Table, done: set<nat>, id: nat, rule: Rule)
    requires id in table && id !in done
    ensures MarkSkipped(table, done + {id}, rule)
         == (if CanSkip(table[id], rule) then MarkSkipped(table, done, rule)[id := SkippedRow(table[id])]
             else MarkSkipped(table, done, rule))
  {
  }

  lemma MarkEnds(table: Table, ids: set<nat>, rule: Rule)
    ensures MarkSkipped(table, {}, rule) == table
    ensures MarkSkipped(table, ids * table.Keys, rule) == MarkSkipped(table, ids, rule)
  {
  }

  lemma {:induction false} WithoutIsEmpty<T(!new)>(s: seq<T>, gone: set<T>)
    ensures Without(s, gone) == [] <==> forall x :: x in s ==> x in gone
  {
    if s == [] {
    } else {
      assert s[0] in s;
      WithoutIsEmpty(s[1..], gone);
      assert forall x :: x in s <==> x == s[0] || x in s[1..];
    }
  }

  /** Deleting groups one after the other deletes them all, whatever the order. */
  lemma DeleteGroupsTwice(s: State, a: set<nat>, b: set<nat>)
    ensures DeleteGroups(DeleteGroups(s, a), b) == DeleteGroups(s, a + b)
  {
    var once, twice := ForgetGroups(s.errors, a + b), ForgetGroups(ForgetGroups(s.errors, a), b);
    forall k | k in s.errors
      ensures k in once <==> k in twice
      ensures k in once ==> once[k] == twice[k]
    {
      ForgetTwice(s.errors[k], a, b);
    }
    assert once == twice;
    assert s.groups - a - b == s.groups - (a + b);
    assert s.logs - a - b == s.logs - (a + b);
  }

  lemma ForgetTwice(e: ErrorRow, a: set<nat>, b: set<nat>)
    ensures Emptied(e, a + b) <==> Emptied(e, a) || Emptied(e.(mapping := Without(e.mapping, a)), b)
    ensures Without(Without(e.mapping, a), b) == Without(e.mapping, a + b)
  {
    WithoutTwice(e.mapping, a, b);
    WithoutIsEmpty(e.mapping, a);
    WithoutIsEmpty(Without(e.mapping, a), b);
  }

  lemma DeleteNothing(s: State)
    ensures DeleteGroups(s, {}) == s
  {
    forall k | k in s.errors
      ensures !Emptied(s.errors[k], {}) && Without(s.errors[k].mapping, {}) == s.errors[k].mapping
    {
      WithoutNothing(s.errors[k].mapping, {});
      if s.errors[k].mapping != [] {
        assert s.errors[k].mapping[0] in s.errors[k].mapping;
      }
    }
    assert ForgetGroups(s.errors, {}) == s.errors;
  }

  // ---------------------------------------------------------------- the store

  /** No log, or one of a failed export. */
  predicate Idle(logs: map<nat, LogStatus>, g: nat) {
    g in logs ==> logs[g] == Failed || logs[g] == Fatal
  }

  /** What skipping by a rule does to a row. */
  predicate SkippedByRule(before: Expense, after: Expense, listed: bool, rule: Rule) {
    if listed && rule(before.details) && !before.isSkipped
       && !(before.summary.Some? && before.summary.value.state == DELETED)
    then after == Expense(before.details, true, Some(Summary(SKIPPED, false)), before.previousExportState)
    else after == before
  }

  lemma MarkedByRule(table: Table, ids: set<nat>, rule: Rule, id: nat)
    requires id in table
    ensures SkippedByRule(table[id], MarkSkipped(table, ids, rule)[id], id in ids, rule)
  {
  }

  class Store {
    var expenses: Table
    var groups: map<nat, Group>
    var logs: map<nat, LogStatus>
    var errors: map<nat, ErrorRow>
    var nextGroup: nat

    constructor ()
      ensures Now() == State(map[], map[], map[], map[], 0)
    {
      expenses, groups, logs, errors, nextGroup := map[], map[], map[], map[], 0;
    }

    ghost function Now(): State
      reads this
    {
      State(expenses, groups, logs, errors, nextGroup)
    }

    /**
     mark_expenses_as_skipped: the listed rows that the rule matches, that are not skipped yet and that the platform has
     not lost are skipped; every other row is as before.
     */
    method MarkExpensesAsSkipped(ids: set<nat>, rule: Rule)
      modifies `expenses
      ensures Now() == Skip(old(Now()), ids, rule)
      ensures expenses.Keys == old(expenses.Keys)
      ensures forall id :: id in expenses ==> SkippedByRule(old(expenses)[id], expenses[id], id in ids, rule)
    {
      ghost var before := expenses;
      MarkEachAsSkipped(ids, rule);
      forall id | id in expenses ensures SkippedByRule(before[id], expenses[id], id in ids, rule) {
        MarkedByRule(before, ids, rule, id);
      }
    }

    /** One row of the bulk update after the other. */
    method MarkEachAsSkipped(ids: set<nat>, rule: Rule)
      modifies `expenses
      ensures Now() == Skip(old(Now()), ids, rule)
    {
      ghost var before, done: set<nat> := expenses, {};
      var todo := ids * expenses.Keys;
      MarkEnds(before, ids, rule);
      while todo != {}
        invariant done + todo == ids * before.Keys && done !! todo
        invariant expenses == MarkSkipped(before, done, rule)
        decreases |todo|
      {
        var id :| id in todo;
        MarkOneMore(before, done, id, rule);
        if CanSkip(expenses[id], rule) {
          expenses := expenses[id := SkippedRow(expenses[id])];
        }
        done, todo := done + {id}, todo - {id};
      }
    }

    /** Expense.create_expense_objects. */
    method CreateExpenseObjects(payload: seq<(nat, Details)>) returns (objects: seq<nat>)
      modifies `expenses
      ensures Batch(Now(), objects) == CreateObjects(old(Now()), payload)
    {
      objects := [];
      for i := 0 to |payload|
        invariant Batch(Now(), objects) == CreateObjects(old(Now()), payload[..i])
        invariant groups == old(groups)
      {
        assert payload[..i + 1][..i] == payload[..i];
        var (id, d) := payload[i];
        expenses := Upsert(expenses, id, d);
        if !expenses[id].isSkipped && !(exists g :: g in groups && id in groups[g].members) {
          objects := objects + [id];
        }
      }
      assert payload[..|payload|] == payload;
    }

    /** ExpenseGroup.objects.create and expenses.add, for each group. */
    method SaveGroups(created: seq<NewGroup>)
      modifies `groups, `nextGroup
      ensures Now() == AddGroups(old(Now()), created)
    {
      for i := 0 to |created|
        invariant Now() == AddGroups(old(Now()), created[..i])
      {
        AddOneMore(old(Now()), created, i);
        groups := groups[nextGroup := Group(created[i].fundSource, Elems(created[i].ids), false)];
        nextGroup := nextGroup + 1;
      }
      assert created[..|created|] == created;
    }

    /** delete_expense_group_and_related_data: the group's errors, then each list that mentions it. */
    method DeleteExpenseGroup(g: nat)
      requires forall k :: k in errors ==> NoDup(errors[k].mapping)
      modifies `groups, `logs, `errors
      ensures Now() == DeleteGroups(old(Now()), {g})
      ensures forall k :: k in errors ==> NoDup(errors[k].mapping)
    {
      ghost var before := errors;
      logs := logs - {g};
      errors := Others(errors, g);
      ghost var own := errors;
      var todo := set k | k in errors && g in errors[k].mapping;
      assert AfterRemoval(own, todo, g) == own;
      while todo != {}
        invariant todo <= own.Keys && forall k :: k in todo ==> g in own[k].mapping
        invariant errors == AfterRemoval(own, todo, g)
        modifies `errors
        decreases |todo|
      {
        var k :| k in todo;
        RemoveOneMore(own, todo, g, k);
        var mapping := RemoveFirst(errors[k].mapping, g);
        if mapping != [] {
          errors := errors[k := errors[k].(mapping := mapping)];
        } else {
          errors := errors - {k};
        }
        todo := todo - {k};
      }
      assert todo == {};
      RemovalForgets(before, g);
      groups := groups - {g};
    }

    /** Deletes each of these groups that no export is queued or running for. */
    method DeleteIdleGroups(candidates: set<nat>)
      requires forall k :: k in errors ==> NoDup(errors[k].mapping)
      modifies `groups, `logs, `errors
      ensures Now() == DeleteGroups(old(Now()), set g | g in candidates && !ActiveLog(old(Now()), g))
      ensures forall k :: k in errors ==> NoDup(errors[k].mapping)
    {
      ghost var s := Now();
      DeleteNothing(s);
      var todo := candidates;
      ghost var gone: set<nat> := {};
      while todo != {}
        invariant todo <= candidates && gone == (set g | g in candidates && g !in todo && !ActiveLog(s, g))
        invariant Now() == DeleteGroups(s, gone)
        invariant forall k :: k in errors ==> NoDup(errors[k].mapping)
        decreases |todo|
      {
        var g :| g in todo;
        if !(g in logs && (logs[g] == Enqueued || logs[g] == InProgress)) {
          DeleteGroupsTwice(s, gone, {g});
          DeleteExpenseGroup(g);
          gone := gone + {g};
        }
        todo := todo - {g};
      }
      assert gone == (set g | g in candidates && !ActiveLog(s, g));
    }

    /** handle_expense_report_change, ADDED_TO_REPORT. */
    method DeleteExpenseGroupsForReport(reportId: string)
      requires forall k :: k in errors ==> NoDup(errors[k].mapping)
      modifies `groups, `logs, `errors
      ensures Now() == AddToReport(old(Now()), reportId)
    {
      ghost var s := Now();
      var candidates := set g | g in groups && !groups[g].exported
        && exists e :: e in groups[g].members && e in expenses && expenses[e].details.reportId == reportId;
      DeleteIdleGroups(candidates);
      assert (set g | g in candidates && !ActiveLog(s, g))
          == (set g | g in s.groups && !s.groups[g].exported && OfReport(s, g, reportId) && !ActiveLog(s, g));
    }

    /** handle_expense_report_change, EJECTED_FROM_REPORT: at most one unexported group holds the expense. */
    method EjectExpense(id: nat)
      requires Inv(Now())
      modifies `groups, `logs, `errors
      ensures Now() == Eject(old(Now()), id)
    {
      ghost var s := Now();
      if exists g :: g in groups && groups[g].exported && id in groups[g].members {
        return;
      }
      var holding := set g | g in groups && !groups[g].exported && id in groups[g].members;
      EjectCases(s, id, holding);
      if holding != {} {
        var g :| g in holding;
        OneHolder(s, id, holding, g);
        if !(g in logs && (logs[g] == Enqueued || logs[g] == InProgress)) {
          if groups[g].members == {id} {
            DeleteExpenseGroup(g);
          } else {
            groups := groups[g := groups[g].(members := groups[g].members - {id})];
          }
        }
      }
    }

    /** create_expense_groups_by_report_id_fund_source, up to storing the groups; Failure is the lookup error. */
    method BuildGroups(st: Settings, ids: seq<nat>) returns (r: Result<Created>)
      requires forall id :: id in ids ==> id in expenses
      ensures r == CreateGroups(expenses, st, ids)
    {
      var personal := Collect(expenses, FundedBy(PERSONAL), ids);
      PickExists(expenses, FundedBy(PERSONAL), ids);
      var groups1, skipped1 := FilterExpenseGroups(expenses, GroupBy(expenses, st.reimbursableFields, personal),
                                                     personal,
                                                   st.reimbursableFields, st.reimbursable, None);
      var cards := Collect(expenses, FundedBy(CCC), ids);
      PickExists(expenses, FundedBy(CCC), ids);
      var groups2, skipped2 := CardGroups(expenses, st, cards), [];
      if st.ccc == Some(BILL) {
        groups2, skipped2 := FilterExpenseGroups(expenses, groups2, cards, st.cccFields, None, st.ccc);
      }
      assert PersonalPart(expenses, st, ids) == Filtered(groups1, skipped1);
      assert CardPart(expenses, st, ids) == Filtered(groups2, skipped2);
      if (groups1 != [] && "fund_source" !in st.reimbursableFields)
          || (groups2 != [] && "fund_source" !in st.cccFields) {
        r := Failure;
      } else {
        r := Success(Created(Label(PERSONAL, groups1) + Label(CCC, groups2), skipped1 + skipped2));
      }
    }

    /** Screens, groups and stores a batch; on failure the tables are left for the caller to roll back. */
    method GroupBatch(ids: seq<nat>, st: Settings, filter: Option<Rule>) returns (ok: bool)
      requires Ready(Batch(Now(), ids))
      modifies `expenses, `groups, `nextGroup
      ensures var r := GroupAndSkip(Batch(old(Now()), ids), st, filter);
              ok == r.Success? && (ok ==> Now() == r.value)
    {
      ghost var b := Batch(Now(), ids);
      var batch := ids;
      if filter.Some? {
        MarkExpensesAsSkipped(Elems(ids), filter.value);
        var live := Collect(expenses, Live, ids);
        batch := FirstSeen(live);
      }
      assert Batch(Now(), batch) == Screen(b, filter);
      ScreenReady(b, filter);
      var created := BuildGroups(st, batch);
      ok := created.Success?;
      if ok {
        SaveGroups(created.value.groups);
        MarkExpensesAsSkipped(Elems(created.value.skipped), Everything);
      }
    }

    /** One of the early exits of the import: part of the batch is skipped and leaves it. */
    method SkipPart(ids: seq<nat>, applies: bool, c: Cond) returns (rest: seq<nat>)
      modifies `expenses
      ensures Batch(Now(), rest) == Drop(Batch(old(Now()), ids), applies, c)
    {
      rest := ids;
      if applies {
        var hit := Collect(expenses, c, ids);
        rest := Without(ids, Elems(hit));
        MarkExpensesAsSkipped(Elems(hit), Everything);
      }
    }

    /** The import up to grouping: upserts, then the three early exits. */
    method TakeIn(payload: seq<(nat, Details)>, st: Settings, dropRefunds: bool) returns (objects: seq<nat>)
      modifies `expenses
      ensures Batch(Now(), objects) == Incoming(old(Now()), payload, st, dropRefunds)
    {
      objects := CreateExpenseObjects(payload);
      objects := SkipPart(objects, dropRefunds, Negative);
      objects := SkipPart(objects, st.reimbursable.None?, FundedBy(PERSONAL));
      objects := SkipPart(objects, st.ccc.None?, FundedBy(CCC));
    }

    /** group_expenses_and_save in its transaction. */
    method GroupExpensesAndSave(payload: seq<(nat, Details)>, st: Settings, dropRefunds: bool, filter: Option<Rule>)
      requires Inv(Now())
      modifies this
      ensures Now() == Import(old(Now()), payload, st, dropRefunds, filter)
    {
      var before := State(expenses, groups, logs, errors, nextGroup);
      IncomingReady(before, payload, st, dropRefunds);
      var objects := TakeIn(payload, st, dropRefunds);
      var ok := GroupBatch(objects, st, filter);
      if !ok {
        RollBack(before);
      }
    }

    /** The loop of re_run_skip_export_rule: each touched group loses its log, its error and its skipped members. */
    method TakeFromEach(touched: set<nat>, hit: set<nat>)
      requires touched <= groups.Keys
      modifies `groups, `logs, `errors
      ensures Now() == TakenFrom(old(Now()), touched, hit)
    {
      ghost var s := Now();
      var todo := touched;
      ghost var done: set<nat> := {};
      TakenFromNone(s, hit);
      while todo != {}
        invariant todo <= touched && done == touched - todo
        invariant Now() == TakenFrom(s, done, hit)
        decreases |todo|
      {
        var g :| g in todo;
        TakeFromOneMore(s, done, g, hit);
        logs := logs - {g};
        errors := Others(errors, g);
        var members := groups[g].members - hit;
        if members == {} {
          groups := groups - {g};
        } else {
          groups := groups[g := groups[g].(members := members)];
        }
        todo, done := todo - {g}, done + {g};
      }
      assert done == touched;
    }

    /** re_run_skip_export_rule. */
    method ReRunSkipExportRule(rule: Rule)
      requires Inv(Now())
      modifies this
      ensures Now() == ReRunSkipRule(old(Now()), rule)
    {
      ghost var s := Now();
      var hit := set id | id in expenses && rule(expenses[id].details) && !expenses[id].isSkipped
          && !SummaryComplete(expenses[id]);
      MarkExpensesAsSkipped(hit, rule);
      TakenFromHolders(s, Now(), rule);
      var touched := set g | g in groups && !groups[g].exported && groups[g].members * hit != {};
      assert touched == Holders(s, hit);
      TakeFromEach(touched, hit);
    }

    /** process_expense_group_for_fund_source_update, for each matched group; true if none was blocked. */
    method DeleteUnblockedGroups(matched: set<nat>) returns (allProcessed: bool)
      requires forall k :: k in errors ==> NoDup(errors[k].mapping)
      modifies `groups, `logs, `errors
      ensures Now() == DeleteGroups(old(Now()), set g | g in matched && !Blocked(old(Now()), g))
      ensures allProcessed <==> forall g :: g in matched ==> Idle(old(logs), g)
      ensures forall g :: g in old(groups) ==> (g in groups <==> !(g in matched && Idle(old(logs), g)))
    {
      ghost var s := Now();
      allProcessed := DeleteEachUnblocked(matched);
      forall g ensures Blocked(s, g) <==> !Idle(s.logs, g) {
      }
    }

    method DeleteEachUnblocked(matched: set<nat>) returns (allProcessed: bool)
      requires forall k :: k in errors ==> NoDup(errors[k].mapping)
      modifies `groups, `logs, `errors
      ensures Now() == DeleteGroups(old(Now()), set g | g in matched && !Blocked(old(Now()), g))
      ensures allProcessed <==> forall g :: g in matched ==> !Blocked(old(Now()), g)
    {
      ghost var s := Now();
      DeleteNothing(s);
      var todo := matched;
      ghost var gone: set<nat> := {};
      allProcessed := true;
      while todo != {}
        invariant todo <= matched && gone == (set g | g in matched && g !in todo && !Blocked(s, g))
        invariant Now() == DeleteGroups(s, gone)
        invariant forall k :: k in errors ==> NoDup(errors[k].mapping)
        invariant allProcessed <==> forall g :: g in matched && g !in todo ==> !Blocked(s, g)
        decreases |todo|
      {
        var g :| g in todo;
        if g in logs && (logs[g] == Enqueued || logs[g] == InProgress || logs[g] == Complete) {
          assert Blocked(s, g);
          allProcessed := false;
        } else {
          assert !Blocked(s, g);
          DeleteGroupsTwice(s, gone, {g});
          DeleteExpenseGroup(g);
          gone := gone + {g};
        }
        todo := todo - {g};
      }
      assert gone == (set g | g in matched && !Blocked(s, g));
    }

    /** One source of recreate_expense_groups that is no longer configured: its expenses are deleted. */
    method DeletePart(ids: seq<nat>, applies: bool, f: FundSource) returns (rest: seq<nat>)
      modifies `expenses
      ensures Batch(Now(), rest) == DeleteUnconfigured(Batch(old(Now()), ids), applies, f)
    {
      rest := ids;
      if applies {
        var hit := Collect(expenses, FundedBy(f), ids);
        rest := Without(ids, Elems(hit));
        expenses := expenses - Elems(hit);
      }
    }

    /** recreate_expense_groups. */
    method RecreateExpenseGroups(order: seq<nat>, st: Settings, filter: Option<Rule>) returns (ok: bool)
      requires Ready(Batch(Now(), order))
      modifies `expenses, `groups, `nextGroup
      ensures var r := Recreate(old(Now()), order, st, filter);
              ok == r.Success? && (ok ==> Now() == r.value)
    {
      ConfiguredReady(Batch(Now(), order), st);
      var ids := DeletePart(order, st.reimbursable.None?, PERSONAL);
      ids := DeletePart(ids, st.ccc.None?, CCC);
      ok := GroupBatch(ids, st, filter);
    }

    /** handle_fund_source_changes_for_expense_ids in its transaction; order is the query's answer. */
    method HandleFundSourceChanges(c: Change, st: Settings, filter: Option<Rule>, order: seq<nat>) returns (ok: bool)
      requires Inv(Now()) && ListsAffected(Now(), st, c, order)
      modifies this
      ensures var r := Handle(old(Now()), c, st, filter, order);
              ok == r.Success? && Now() == if ok then r.value else old(Now())
    {
      var before := State(expenses, groups, logs, errors, nextGroup);
      ok := true;
      var matched := Matched(before, st, c);
      if matched != {} {
        UnblockedAre(before, st, c);
        var allProcessed := DeleteUnblockedGroups(matched);
        assert Now() == DeleteGroups(before, matched - BlockedGroups(before, st, c));
        if allProcessed {
          AffectedReady(before, c, st, order);
          ok := RecreateExpenseGroups(order, st, filter);
          if !ok {
            RollBack(before);
          }
        }
      }
    }

    /** The end of a failed transaction. */
    method RollBack(before: State)
      modifies this
      ensures Now() == before
    {
      expenses, groups, logs, errors, nextGroup :=
          before.expenses, before.groups, before.logs, before.errors, before.nextGroup;
    }
  }

  lemma UnblockedAre(s: State, st: Settings, c: Change)
    ensures var matched, blocked := Matched(s, st, c), BlockedGroups(s, st, c);
            && matched - blocked == (set g | g in matched && !Blocked(s, g))
            && (blocked == {} <==> forall g :: g in matched ==> !Blocked(s, g))
            && (blocked == {} ==> matched - blocked == matched)
  {
    var matched, blocked := Matched(s, st, c), BlockedGroups(s, st, c);
    if forall g :: g in matched ==> !Blocked(s, g) {
      assert blocked == {};
    }
    forall g | g in matched && Blocked(s, g) ensures blocked != {} {
      assert g in blocked;
    }
  }

  // ---------------------------------------------------------------- the rerun loop

  /** Groups in done have lost these members, their log and their error. */
  function TakenFrom(s: State, done: set<nat>, ids: set<nat>): State {
    Unlog(s, done).(groups :=
      map g | g in s.groups && (g !in done || s.groups[g].members - ids != {}) ::
        if g in done then s.groups[g].(members := s.groups[g].members - ids) else s.groups[g])
  }

  lemma TakenFromNone(s: State, ids: set<nat>)
    ensures TakenFrom(s, {}, ids) == s
  {
    assert TakenFrom(s, {}, ids).groups == s.groups;
    assert TakenFrom(s, {}, ids).errors == s.errors;
    assert TakenFrom(s, {}, ids).logs == s.logs;
  }

  lemma TakeFromOneMore(s: State, done: set<nat>, g: nat, ids: set<nat>)
    requires g in s.groups && g !in done
    ensures var t, t' := TakenFrom(s, done, ids), TakenFrom(s, done + {g}, ids);
            && g in t.groups && t.groups[g] == s.groups[g]
            && t'.logs == t.logs - {g} && t'.errors == Others(t.errors, g)
            && t'.groups == (var members := s.groups[g].members - ids;
                             if members == {} then t.groups - {g} else t.groups[g := s.groups[g].(members := members)])
            && t'.expenses == t.expenses && t'.nextGroup == t.nextGroup
  {
    var t, t' := TakenFrom(s, done, ids), TakenFrom(s, done + {g}, ids);
    assert t'.logs == t.logs - {g};
    assert t'.errors == Others(t.errors, g);
  }

  lemma TakenFromHolders(s: State, s1: State, rule: Rule)
    requires Inv(s) && s1 == Skip(s, RuleHits(s, rule), rule)
    ensures TakenFrom(s1, Holders(s, RuleHits(s, rule)), RuleHits(s, rule)) == ReRunSkipRule(s, rule)
  {
    var hit := RuleHits(s, rule);
    forall g | g in s.groups
      ensures g in Holders(s, hit) ==> !s.groups[g].exported
      ensures g !in Holders(s, hit) ==> Leave(s.groups[g], hit) == s.groups[g]
    {
      if g !in Holders(s, hit) && !s.groups[g].exported {
        assert s.groups[g].members * hit == {};
        assert forall e :: e in s.groups[g].members && e in hit ==> e in s.groups[g].members * hit;
      }
    }
    assert TakenFrom(s1, Holders(s, hit), hit).groups == ReRunSkipRule(s, rule).groups;
  }

  // ---------------------------------------------------------------- ejection, case by case

  lemma OneHolder(s: State, id: nat, holding: set<nat>, g: nat)
    requires Inv(s) && g in holding
    requires holding == set h | h in s.groups && !s.groups[h].exported && id in s.groups[h].members
    ensures holding == {g}
  {
  }

  ghost predicate EjectsFrom(s: State, id: nat, g: nat)
    requires g in s.groups
  {
    Eject(s, id) == if ActiveLog(s, g) then s
                    else if s.groups[g].members == {id} then DeleteGroups(s, {g})
                    else s.(groups := s.groups[g := s.groups[g].(members := s.groups[g].members - {id})])
  }

  lemma EjectCases(s: State, id: nat, holding: set<nat>)
    requires !(exists g :: g in s.groups && s.groups[g].exported && id in s.groups[g].members)
    requires holding == set g | g in s.groups && !s.groups[g].exported && id in s.groups[g].members
    ensures holding == {} ==> Eject(s, id) == s
    ensures forall g :: g in s.groups && holding == {g} ==> EjectsFrom(s, id, g)
  {
    forall g | g in s.groups ensures id in s.groups[g].members <==> s.groups[g].members * {id} != {} {
      assert id in s.groups[g].members ==> id in s.groups[g].members * {id};
    }
    assert holding == Holders(s, {id});
    if holding == {} {
      EjectFromNone(s, id);
    }
    forall g | g in s.groups && holding == {g} ensures EjectsFrom(s, id, g) {
      EjectFromOne(s, id, g);
    }
  }

  lemma EjectFromNone(s: State, id: nat)
    requires Holders(s, {id}) == {} && !(exists g :: g in s.groups && s.groups[g].exported && id in s.groups[g].members)
    ensures Eject(s, id) == s
  {
    DeleteNothing(s);
    assert Leavable(s, id) == {} && Vacated(s, id) == {};
    assert LeaveGroups(s, {}, id).groups == s.groups;
  }

  lemma EjectFromOne(s: State, id: nat, g: nat)
    requires g in s.groups && Holders(s, {id}) == {g}
    requires !(exists h :: h in s.groups && s.groups[h].exported && id in s.groups[h].members)
    ensures EjectsFrom(s, id, g)
  {
    DeleteNothing(s);
    assert g in Holders(s, {id});
    var emptied := Vacated(s, id);
    if ActiveLog(s, g) {
      assert Leavable(s, id) == {} && emptied == {};
      assert LeaveGroups(s, {}, id).groups == s.groups;
    } else {
      assert Leavable(s, id) == {g};
      if s.groups[g].members == {id} {
        assert emptied == {g};
        assert LeaveGroups(DeleteGroups(s, {g}), {g}, id).groups == DeleteGroups(s, {g}).groups;
      } else {
        assert emptied == {};
        assert LeaveGroups(s, {g}, id).groups == s.groups[g := s.groups[g].(members := s.groups[g].members - {id})];
      }
    }
  }

  /** The error rows once every mention of g is removed outside todo. */
  function AfterRemoval(own: map<nat, ErrorRow>, todo: set<nat>, g: nat): map<nat, ErrorRow> {
    map k | k in own && (k in todo || g !in own[k].mapping || RemoveFirst(own[k].mapping, g) != []) ::
      if k in todo || g !in own[k].mapping then own[k] else own[k].(mapping := RemoveFirst(own[k].mapping, g))
  }

  lemma RemoveOneMore(own: map<nat, ErrorRow>, todo: set<nat>, g: nat, k: nat)
    requires k in todo && k in own && g in own[k].mapping
    ensures var errors := AfterRemoval(own, todo, g);
            && k in errors && errors[k] == own[k]
            && AfterRemoval(own, todo - {k}, g) ==
                 (var mapping := RemoveFirst(own[k].mapping, g);
                  if mapping != [] then errors[k := own[k].(mapping := mapping)] else errors - {k})
  {
  }

  /** The error rows that do not belong to group g. */
  function Others(errors: map<nat, ErrorRow>, g: nat): map<nat, ErrorRow> {
    map k | k in errors && errors[k].group != Some(g) :: errors[k]
  }

  lemma RemovalForgetsRow(before: map<nat, ErrorRow>, g: nat, k: nat)
    requires k in before && NoDup(before[k].mapping)
    ensures k in AfterRemoval(Others(before, g), {}, g) <==> k in ForgetGroups(before, {g})
    ensures k in ForgetGroups(before, {g}) ==>
              && AfterRemoval(Others(before, g), {}, g)[k] == ForgetGroups(before, {g})[k]
              && NoDup(ForgetGroups(before, {g})[k].mapping)
  {
    ForgetOne(before[k], g);
  }

  lemma RemovalForgets(before: map<nat, ErrorRow>, g: nat)
    requires forall k :: k in before ==> NoDup(before[k].mapping)
    ensures AfterRemoval(Others(before, g), {}, g) == ForgetGroups(before, {g})
    ensures forall k :: k in ForgetGroups(before, {g}) ==> NoDup(ForgetGroups(before, {g})[k].mapping)
  {
    forall k | k in before
      ensures k in AfterRemoval(Others(before, g), {}, g) <==> k in ForgetGroups(before, {g})
      ensures k in ForgetGroups(before, {g}) ==>
                && AfterRemoval(Others(before, g), {}, g)[k] == ForgetGroups(before, {g})[k]
                && NoDup(ForgetGroups(before, {g})[k].mapping)
    {
      RemovalForgetsRow(before, g, k);
    }
  }

  lemma AddOneMore(s: State, created: seq<NewGroup>, i: nat)
    requires i < |created|
    ensures var a := AddGroups(s, created[..i]);
            AddGroups(s, created[..i + 1]) ==
              a.(groups := a.groups[a.nextGroup := Group(created[i].fundSource, Elems(created[i].ids), false)],
                 nextGroup := a.nextGroup + 1)
  {
    var a, b := AddGroups(s, created[..i]), AddGroups(s, created[..i + 1]);
    forall g | s.nextGroup <= g < s.nextGroup + i
      ensures GroupRow(created[..i], s.nextGroup, g) == GroupRow(created[..i + 1], s.nextGroup, g)
    {
    }
    assert b.groups == a.groups[a.nextGroup := Group(created[i].fundSource, Elems(created[i].ids), false)];
  }

  /** What removing one mention does to an error row whose list has no duplicates. */
  lemma ForgetOne(e: ErrorRow, g: nat)
    requires NoDup(e.mapping)
    ensures NoDup(Without(e.mapping, {g}))
    ensures g in e.mapping ==> RemoveFirst(e.mapping, g) == Without(e.mapping, {g})
    ensures g !in e.mapping ==> Without(e.mapping, {g}) == e.mapping
    ensures Emptied(e, {g}) <==> e.group == Some(g) || (g in e.mapping && Without(e.mapping, {g}) == [])
  {
    WithoutKeepsNoDup(e.mapping, {g});
    WithoutIsEmpty(e.mapping, {g});
    if g in e.mapping {
      RemoveFirstOfDistinct(e.mapping, g);
    } else {
      WithoutNothing(e.mapping, {g});
      if e.mapping != [] {
        assert e.mapping[0] in e.mapping;
      }
    }
  }
}
