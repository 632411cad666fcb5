/** Which steps of the ledger keep every unexported group on one fund source, and when the others do. */
module FundSources {
  import opened Common
  import opened TaskLogs
  import opened Expenses
  import opened GroupCreation
  import opened Tables
  import opened Ledger
  import opened Regrouping
  import opened FundSourceChange
  import opened LedgerRuns

  // ---------------------------------------------------------------- a fund source change

  /** The rows whose fund source differs. */
  function Moved(before: Table, after: Table): set<nat> {
    set id | id in before && id in after && before[id].details.fundSource != after[id].details.fundSource
  }

  /** The change handle_expense_fund_source_change works out for a report: old sources are read before the update. */
  function ReportChange(s: State, payload: seq<(nat, Details)>, reportId: string): Change {
    var moved := Moved(s.expenses, CreateObjects(s, payload).state.expenses);
    Change(reportId, moved, map[
      PERSONAL := (set id | id in moved && s.expenses[id].details.fundSource == PERSONAL),
      CCC := (set id | id in moved && s.expenses[id].details.fundSource == CCC)])
  }

  /** The change update_non_exported_expenses names for one expense that moved. */
  function SingleChange(s: State, id: nat): Change
    requires id in s.expenses
  {
    Change(s.expenses[id].details.reportId, {id}, map[s.expenses[id].details.fundSource := {id}])
  }

  /** c names what the payload moves, and the report the moved rows are in afterwards. */
  ghost predicate Names(s: State, payload: seq<(nat, Details)>, c: Change) {
    var s1 := CreateObjects(s, payload).state;
    c.changed == Moved(s.expenses, s1.expenses) && WellFormed(s1, c)
  }

  /** A stored row keeps its columns unless the payload brings others. */
  lemma {:induction false} PayloadRows(s: State, payload: seq<(nat, Details)>, id: nat)
    requires id in s.expenses
    ensures var after := CreateObjects(s, payload).state.expenses;
            && id in after
            && (after[id].details == s.expenses[id].details
                || exists i :: 0 <= i < |payload| && payload[i] == (id, after[id].details))
  {
    if payload == [] {
    } else {
      var front, last := payload[..|payload| - 1], payload[|payload| - 1];
      PayloadRows(s, front, id);
      var before := CreateObjects(s, front).state.expenses;
      if last.0 == id {
        assert payload[|payload| - 1] == (id, last.1);
      } else if i :| 0 <= i < |front| && front[i] == (id, before[id].details) {
        assert payload[i] == front[i];
      }
    }
  }

  /** A report's expenses, read back with the report they are in, are named by the change worked out for it. */
  lemma ReportChangeNames(s: State, payload: seq<(nat, Details)>, reportId: string)
    requires forall i :: 0 <= i < |payload| ==> payload[i].1.reportId == reportId
    ensures var c, s1 := ReportChange(s, payload, reportId), CreateObjects(s, payload).state;
            Names(s, payload, c) && Faithful(s1, c)
  {
    var c, s1 := ReportChange(s, payload, reportId), CreateObjects(s, payload).state;
    forall id | id in c.changed
      ensures id in s1.expenses && s1.expenses[id].details.reportId == reportId
      ensures exists f :: f in c.affected && id in c.affected[f]
    {
      PayloadRows(s, payload, id);
      assert id in c.affected[s.expenses[id].details.fundSource];
    }
  }

  /** So is one expense that moves without leaving its report. */
  lemma SingleChangeNames(s: State, id: nat, d: Details)
    requires id in s.expenses && d.reportId == s.expenses[id].details.reportId
    requires d.fundSource != s.expenses[id].details.fundSource
    ensures Names(s, [(id, d)], SingleChange(s, id)) && Faithful(CreateObjects(s, [(id, d)]).state, SingleChange(s, id))
  {
    var payload, s1, c := [(id, d)], CreateObjects(s, [(id, d)]).state, SingleChange(s, id);
    assert payload[..0] == [] && CreateObjects(s, payload[..0]) == Batch(s, []);
    assert s1.expenses == Upsert(s.expenses, id, d);
    assert id in c.affected[s.expenses[id].details.fundSource];
    assert Moved(s.expenses, s1.expenses) == {id};
  }

  /** Some group is to be created of a source whose grouping fields lack fund_source. */
  predicate LacksSource(table: Table, st: Settings, ids: seq<nat>) {
    || ("fund_source" !in st.reimbursableFields && PersonalPart(table, st, ids).kept != [])
    || ("fund_source" !in st.cccFields && CardPart(table, st, ids).kept != [])
  }

  /** No matched group is blocked, so that all are rebuilt, and the rebuild would create such a group. */
  predicate RollsBack(s: State, st: Settings, c: Change, filter: Option<Rule>, order: seq<nat>) {
    var b := Screen(Configured(Batch(DeleteGroups(s, Matched(s, st, c)), order), st), filter);
    Matched(s, st, c) != {} && BlockedGroups(s, st, c) == {} && LacksSource(b.state.expenses, st, b.ids)
  }

  lemma NothingBlocked(s: State, st: Settings, c: Change)
    ensures BlockedGroups(s, st, c) == {} ==> Matched(s, st, c) - BlockedGroups(s, st, c) == Matched(s, st, c)
  {
  }

  /** The handler fails in this case only; settings that group both sources by fund_source rule it out. */
  lemma HandleFailsExactly(s: State, c: Change, st: Settings, filter: Option<Rule>, order: seq<nat>)
    ensures Handle(s, c, st, filter, order).Failure? <==> RollsBack(s, st, c, filter, order)
    ensures "fund_source" in st.reimbursableFields && "fund_source" in st.cccFields ==>
              !RollsBack(s, st, c, filter, order)
  {
    NothingBlocked(s, st, c);
  }

  /** The groups that keep a changed expense: a blocked one, or any when the rebuild is rolled back. */
  predicate KeepsChanged(s: State, st: Settings, c: Change, filter: Option<Rule>, order: seq<nat>, g: nat) {
    && g in s.groups && !s.groups[g].exported && s.groups[g].members * c.changed != {}
    && (g in BlockedGroups(s, st, c) || RollsBack(s, st, c, filter, order))
  }

  lemma RewrittenRowsDiffer(s: State, payload: seq<(nat, Details)>, c: Change)
    requires Inv(s) && AllOneSource(s) && Names(s, payload, c)
    ensures OnlyChangedDiffer(CreateObjects(s, payload).state, c)
  {
    CreateObjectsReady(s, payload);
    var s1 := CreateObjects(s, payload).state;
    forall g, id | g in s1.groups && !s1.groups[g].exported && id in s1.groups[g].members && id in s1.expenses
      ensures s1.expenses[id].details.fundSource != s1.groups[g].fundSource <==> id in c.changed
    {
      assert s.groups[g].members <= s.expenses.Keys && OneSource(s, g);
    }
  }

  /**
   From groups of one fund source each, the whole step of a fund source change - rows rewritten, groups rebuilt -
   leads to groups of one fund source each exactly when no group keeps a changed expense.
   */
  lemma ChangeRestoresOneSource(s: State, payload: seq<(nat, Details)>, c: Change, st: Settings, filter: Option<Rule>,
                                order: seq<nat>)
    requires Inv(s) && AllOneSource(s) && Names(s, payload, c)
    requires ListsAffected(CreateObjects(s, payload).state, st, c, order)
    ensures AllOneSource(ChangeFundSource(s, payload, c, st, filter, order)) <==>
              forall g :: g in s.groups ==> !KeepsChanged(CreateObjects(s, payload).state, st, c, filter, order, g)
  {
    CreateObjectsReady(s, payload);
    RewrittenRowsDiffer(s, payload, c);
    var s1 := CreateObjects(s, payload).state;
    HandleFailsExactly(s1, c, st, filter, order);
    if Handle(s1, c, st, filter, order).Success? {
      HomogeneityRestored(s1, c, st, filter, order);
      BlockedKeepChanged(s1, c, st, filter, order);
    } else {
      UnhandledSources(s1, c, st, filter, order);
    }
  }

  /**
   With fund_source among the grouping fields of both sources, as every settings row has it, only a blocked group
   that holds a changed expense stays mixed.
   */
  lemma OnlyBlockedStayMixed(s: State, payload: seq<(nat, Details)>, c: Change, st: Settings, filter: Option<Rule>,
                             order: seq<nat>)
    requires Inv(s) && AllOneSource(s) && Names(s, payload, c)
    requires ListsAffected(CreateObjects(s, payload).state, st, c, order)
    requires "fund_source" in st.reimbursableFields && "fund_source" in st.cccFields
    ensures var s1 := CreateObjects(s, payload).state;
            AllOneSource(ChangeFundSource(s, payload, c, st, filter, order)) <==>
              forall g :: g in BlockedGroups(s1, st, c) ==> s1.groups[g].members !! c.changed
  {
    var s1 := CreateObjects(s, payload).state;
    ChangeRestoresOneSource(s, payload, c, st, filter, order);
    HandleFailsExactly(s1, c, st, filter, order);
    BlockedKeepChanged(s1, c, st, filter, order);
    CreateObjectsReady(s, payload);
    assert s1.groups.Keys == s.groups.Keys;
  }

  lemma DisjointOrMeet(a: set<nat>, b: set<nat>)
    ensures a !! b <==> a * b == {}
  {
    if a * b == {} {
      forall id | id in a ensures id !in b {
        assert id in b ==> id in a * b;
      }
    }
  }

  lemma BlockedKeepChanged(s: State, c: Change, st: Settings, filter: Option<Rule>, order: seq<nat>)
    requires Handle(s, c, st, filter, order).Success?
    ensures (forall g :: g in BlockedGroups(s, st, c) ==> s.groups[g].members !! c.changed) <==>
              (forall g :: g in s.groups ==> !KeepsChanged(s, st, c, filter, order, g))
  {
    HandleFailsExactly(s, c, st, filter, order);
    forall g | g in s.groups
      ensures KeepsChanged(s, st, c, filter, order, g) <==>
                g in BlockedGroups(s, st, c) && !(s.groups[g].members !! c.changed)
    {
      DisjointOrMeet(s.groups[g].members, c.changed);
    }
    forall g | g in BlockedGroups(s, st, c) ensures g in s.groups {
    }
  }

  lemma OneSourceExactly(s: State, c: Change, g: nat)
    requires Inv(s) && OnlyChangedDiffer(s, c) && g in s.groups && !s.groups[g].exported
    ensures OneSource(s, g) <==> s.groups[g].members * c.changed == {}
  {
    assert s.groups[g].members <= s.expenses.Keys;
    if OneSource(s, g) {
      assert forall id :: id in s.groups[g].members ==> id !in c.changed;
    }
    if s.groups[g].members * c.changed == {} {
      assert forall id :: id in s.groups[g].members ==> id !in s.groups[g].members * c.changed;
    }
  }

  lemma UnhandledSources(s: State, c: Change, st: Settings, filter: Option<Rule>, order: seq<nat>)
    requires Inv(s) && OnlyChangedDiffer(s, c) && Handle(s, c, st, filter, order).Failure?
    ensures AllOneSource(s) <==> forall g :: g in s.groups ==> !KeepsChanged(s, st, c, filter, order, g)
  {
    HandleFailsExactly(s, c, st, filter, order);
    forall g | g in s.groups && !s.groups[g].exported
      ensures KeepsChanged(s, st, c, filter, order, g) <==> !OneSource(s, g)
    {
      OneSourceExactly(s, c, g);
    }
  }

  // ---------------------------------------------------------------- an import

  lemma IncomingOnlySkips(s: State, payload: seq<(nat, Details)>, st: Settings, dropRefunds: bool)
    requires Inv(s)
    ensures OnlySkips(CreateObjects(s, payload).state, Incoming(s, payload, st, dropRefunds).state)
  {
    CreateObjectsReady(s, payload);
    var b0 := CreateObjects(s, payload);
    var b1 := Drop(b0, dropRefunds, Negative);
    var b2 := Drop(b1, st.reimbursable.None?, FundedBy(PERSONAL));
    DropReady(b0, dropRefunds, Negative);
    DropReady(b1, st.reimbursable.None?, FundedBy(PERSONAL));
    DropReady(b2, st.ccc.None?, FundedBy(CCC));
  }

  /** An unexported group that holds a row the payload moves to the other source. */
  predicate HoldsMoved(s: State, payload: seq<(nat, Details)>, g: nat) {
    && g in s.groups && !s.groups[g].exported
    && exists id :: id in s.groups[g].members && id in Moved(s.expenses, CreateObjects(s, payload).state.expenses)
  }

  lemma OldGroupAfterImport(s: State, payload: seq<(nat, Details)>, st: Settings, dropRefunds: bool,
                            rule: Option<Rule>, g: nat)
    requires Inv(s) && AllOneSource(s) && GroupAndSkip(Incoming(s, payload, st, dropRefunds), st, rule).Success?
    requires g in s.groups && !s.groups[g].exported
    ensures var s' := Import(s, payload, st, dropRefunds, rule);
            && g in s'.groups && s'.groups[g] == s.groups[g]
            && (OneSource(s', g) <==> !HoldsMoved(s, payload, g))
  {
    var s1, b := CreateObjects(s, payload).state, Incoming(s, payload, st, dropRefunds);
    var s' := Import(s, payload, st, dropRefunds, rule);
    CreateObjectsReady(s, payload);
    IncomingReady(s, payload, st, dropRefunds);
    IncomingOnlySkips(s, payload, st, dropRefunds);
    GroupAndSkipSettles(b, st, rule);
    forall id | id in s.groups[g].members
      ensures && id in s.expenses && id in s1.expenses && id in s'.expenses
              && s'.expenses[id].details == s1.expenses[id].details
              && s.expenses[id].details.fundSource == s.groups[g].fundSource
    {
      assert s.groups[g].members <= s.expenses.Keys && OneSource(s, g);
      PayloadRows(s, payload, id);
    }
  }

  /** An import keeps groups on one source exactly when it moves no row of an unexported group. */
  lemma ImportKeepsOneSourceExactly(s: State, payload: seq<(nat, Details)>, st: Settings, dropRefunds: bool,
                                    rule: Option<Rule>)
    requires Inv(s) && AllOneSource(s) && GroupAndSkip(Incoming(s, payload, st, dropRefunds), st, rule).Success?
    ensures AllOneSource(Import(s, payload, st, dropRefunds, rule)) <==>
              forall g :: g in s.groups ==> !HoldsMoved(s, payload, g)
  {
    var s', b := Import(s, payload, st, dropRefunds, rule), Incoming(s, payload, st, dropRefunds);
    IncomingReady(s, payload, st, dropRefunds);
    GroupAndSkipSettles(b, st, rule);
    forall g | g in s.groups && !s.groups[g].exported
      ensures g in s'.groups && !s'.groups[g].exported && (OneSource(s', g) <==> !HoldsMoved(s, payload, g))
    {
      OldGroupAfterImport(s, payload, st, dropRefunds, rule, g);
    }
    forall g | g in s'.groups && !s'.groups[g].exported && g !in s.groups ensures OneSource(s', g) {
      GroupAndSkipAdds(b, st, rule, g);
    }
    assert forall g :: g in s.groups && s.groups[g].exported ==> s'.groups[g].exported;
  }

  // ---------------------------------------------------------------- every other step

  /** Unexported groups only lose members, and rows keep their imported columns. */
  ghost predicate OnlyShrinks(s: State, s': State) {
    && (forall g :: g in s'.groups && !s'.groups[g].exported ==>
          && g in s.groups && !s.groups[g].exported && s'.groups[g].fundSource == s.groups[g].fundSource
          && s'.groups[g].members <= s.groups[g].members)
    && (forall id :: id in s'.expenses ==> id in s.expenses && s'.expenses[id].details == s.expenses[id].details)
  }

  lemma ShrinkingKeepsOneSource(s: State, s': State)
    requires AllOneSource(s) && OnlyShrinks(s, s')
    ensures AllOneSource(s')
  {
    forall g | g in s'.groups && !s'.groups[g].exported ensures OneSource(s', g) {
      assert OneSource(s, g);
    }
  }

  lemma DeletingOnlyShrinks(s: State, op: Op)
    requires op.OpReRun? || op.OpEject? || op.OpAddToReport?
    ensures OnlyShrinks(s, Apply(s, op))
  {
  }

  lemma BookkeepingOnlyShrinks(s: State, op: Op)
    requires !FormsGroups(op)
    ensures OnlyShrinks(s, Apply(s, op))
  {
  }

  /** All steps but imports and fund source changes keep every unexported group on one source. */
  lemma OtherStepsKeepOneSource(s: State, op: Op)
    requires AllOneSource(s) && !op.OpImport? && !op.OpFundChange?
    ensures AllOneSource(Apply(s, op))
  {
    if FormsGroups(op) {
      DeletingOnlyShrinks(s, op);
    } else {
      BookkeepingOnlyShrinks(s, op);
    }
    ShrinkingKeepsOneSource(s, Apply(s, op));
  }
}
