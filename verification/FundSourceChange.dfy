/** Moving expenses between fund sources: which groups are rebuilt, and when an expense gets lost on the way. */
module FundSourceChange {
  import opened Common
  import opened TaskLogs
  import opened Expenses
  import Grouping
  import opened GroupCreation
  import opened Tables
  import opened Ledger
  import opened Regrouping

  /** changed: the expenses that moved; affected: the same ids under the fund source each one left. */
  datatype Change = Change(reportId: string, changed: set<nat>, affected: map<FundSource, set<nat>>)

  // ---------------------------------------------------------------- specification

  predicate PersonalByReport(st: Settings) { "report_id" in st.reimbursableFields }

  predicate CardsByReport(st: Settings) { "report_id" in st.cccFields }

  function OtherSource(f: FundSource): FundSource {
    match f case PERSONAL => CCC case CCC => PERSONAL
  }

  /** The clause a mixed setting adds for the expenses that left f. */
  predicate MixedClause(st: Settings, c: Change, f: FundSource, fund: FundSource, id: nat, e: Expense) {
    || (e.details.reportId == c.reportId && fund == (if PersonalByReport(st) then f else OtherSource(f)))
    || (f in c.affected && id in c.affected[f])
  }

  /** Whether a group of this fund source and its member id, with row e, satisfy the constructed filter. */
  predicate RowMatches(st: Settings, c: Change, fund: FundSource, id: nat, e: Expense) {
    if PersonalByReport(st) && CardsByReport(st) then e.details.reportId == c.reportId
    else if !PersonalByReport(st) && !CardsByReport(st) then id in c.changed
    else
      || (PERSONAL in c.affected && MixedClause(st, c, PERSONAL, fund, id, e))
      || (CCC in c.affected && MixedClause(st, c, CCC, fund, id, e))
  }

  /** The members of group g whose rows the filter returns. */
  function MatchingMembers(s: State, st: Settings, c: Change, g: nat): set<nat>
    requires g in s.groups
  {
    set id | id in s.groups[g].members && id in s.expenses
        && RowMatches(st, c, s.groups[g].fundSource, id, s.expenses[id])
  }

  /** The unexported groups the filter finds. */
  function Matched(s: State, st: Settings, c: Change): set<nat> {
    set g | g in s.groups && !s.groups[g].exported && MatchingMembers(s, st, c, g) != {}
  }

  /** The expenses read back for regrouping: the query reads them through the join the filter restricts. */
  function AffectedExpenses(s: State, st: Settings, c: Change): set<nat> {
    set g, id | g in Matched(s, st, c) && id in MatchingMembers(s, st, c, g) :: id
  }

  /** A group an export has claimed, queued or finished stays. */
  predicate Blocked(s: State, g: nat) {
    g in s.logs && (s.logs[g] == Enqueued || s.logs[g] == InProgress || s.logs[g] == Complete)
  }

  function BlockedGroups(s: State, st: Settings, c: Change): set<nat> {
    set g | g in Matched(s, st, c) && Blocked(s, g)
  }

  /** Expenses of a fund source that is no longer configured are deleted outright. */
  function DeleteUnconfigured(b: Batch, applies: bool, f: FundSource): Batch {
    var hit := Elems(Pick(b.state.expenses, FundedBy(f), b.ids));
    if applies then Batch(DeleteExpenses(b.state, hit), Without(b.ids, hit)) else b
  }

  function Configured(b: Batch, st: Settings): Batch {
    DeleteUnconfigured(DeleteUnconfigured(b, st.reimbursable.None?, PERSONAL), st.ccc.None?, CCC)
  }

  /** recreate_expense_groups. */
  function Recreate(s: State, ids: seq<nat>, st: Settings, rule: Option<Rule>): Result<State> {
    GroupAndSkip(Configured(Batch(s, ids), st), st, rule)
  }

  /** handle_fund_source_changes_for_expense_ids; order lists the affected expenses as the query returns them. */
  function Handle(s: State, c: Change, st: Settings, rule: Option<Rule>, order: seq<nat>): Result<State> {
    var matched, blocked := Matched(s, st, c), BlockedGroups(s, st, c);
    var s' := DeleteGroups(s, matched - blocked);
    if matched == {} then Success(s)
    else if blocked == {} then Recreate(s', order, st, rule)
    else Success(s')
  }

  // ---------------------------------------------------------------- the filter

  /** What both callers establish: the changed expenses belong to the report, and affected lists each of them. */
  ghost predicate WellFormed(s: State, c: Change) {
    forall id :: id in c.changed ==>
      && id in s.expenses && s.expenses[id].details.reportId == c.reportId
      && exists f :: f in c.affected && id in c.affected[f]
  }

  /** In all four combinations of report and expense grouping, no unexported group with a changed expense escapes. */
  lemma FilterFindsChangedExpenses(s: State, st: Settings, c: Change, g: nat, id: nat)
    requires WellFormed(s, c) && g in s.groups && !s.groups[g].exported
    requires id in s.groups[g].members && id in c.changed
    ensures g in Matched(s, st, c) && id in MatchingMembers(s, st, c, g)
  {
    var f :| f in c.affected && id in c.affected[f];
    assert f == PERSONAL || f == CCC;
    assert id in MatchingMembers(s, st, c, g);
  }

  // ---------------------------------------------------------------- invariant

  lemma DeleteUnconfiguredReady(b: Batch, applies: bool, f: FundSource)
    requires Ready(b)
    ensures var b' := DeleteUnconfigured(b, applies, f);
            && Ready(b') && b'.state.groups == b.state.groups && b'.state.expenses.Keys <= b.state.expenses.Keys
            && (forall id :: id in b'.state.expenses ==> b'.state.expenses[id] == b.state.expenses[id])
            && (forall id :: id in b.ids ==> id in b'.ids || id !in b'.state.expenses)
            && (forall id :: id in b.state.expenses && id !in b'.state.expenses ==> id in b.ids)
  {
    var hit := Elems(Pick(b.state.expenses, FundedBy(f), b.ids));
    if applies {
      assert hit <= Elems(b.ids);
      DeleteExpensesKeepsInv(b.state, hit);
    }
  }

  lemma ConfiguredReady(b: Batch, st: Settings)
    requires Ready(b)
    ensures var b' := Configured(b, st);
            && Ready(b') && b'.state.groups == b.state.groups && b'.state.expenses.Keys <= b.state.expenses.Keys
            && (forall id :: id in b'.state.expenses ==> b'.state.expenses[id] == b.state.expenses[id])
            && (forall id :: id in b.ids ==> id in b'.ids || id !in b'.state.expenses)
            && (forall id :: id in b.state.expenses && id !in b'.state.expenses ==> id in b.ids)
  {
    var b1 := DeleteUnconfigured(b, st.reimbursable.None?, PERSONAL);
    DeleteUnconfiguredReady(b, st.reimbursable.None?, PERSONAL);
    DeleteUnconfiguredReady(b1, st.ccc.None?, CCC);
    assert forall id :: id in b1.ids ==> id in b.ids;
  }

  /** The program is not set up to export expenses of this row's fund source. */
  predicate Unconfigured(st: Settings, e: Expense) {
    match e.details.fundSource case PERSONAL => st.reimbursable.None? case CCC => st.ccc.None?
  }

  lemma DeletedExactly(b: Batch, applies: bool, f: FundSource, id: nat)
    requires id in b.state.expenses
    ensures var b' := DeleteUnconfigured(b, applies, f);
            && (id in b'.state.expenses <==> !(applies && id in b.ids && b.state.expenses[id].details.fundSource == f))
            && (id in b'.state.expenses ==> b'.state.expenses[id] == b.state.expenses[id])
            && (id in b'.state.expenses ==> (id in b.ids <==> id in b'.ids))
  {
    var hit := Elems(Pick(b.state.expenses, FundedBy(f), b.ids));
    assert id in hit <==> id in b.ids && b.state.expenses[id].details.fundSource == f;
  }

  /** Rows of the batch are deleted exactly when their fund source is not configured; no other row is. */
  lemma ConfiguredExactly(b: Batch, st: Settings, id: nat)
    requires id in b.state.expenses
    ensures id in Configured(b, st).state.expenses <==> !(id in b.ids && Unconfigured(st, b.state.expenses[id]))
  {
    DeletedExactly(b, st.reimbursable.None?, PERSONAL, id);
    var b1 := DeleteUnconfigured(b, st.reimbursable.None?, PERSONAL);
    if id in b1.state.expenses {
      DeletedExactly(b1, st.ccc.None?, CCC, id);
    } else {
      assert id !in DeleteUnconfigured(b1, st.ccc.None?, CCC).state.expenses;
    }
  }

  ghost predicate ListsAffected(s: State, st: Settings, c: Change, order: seq<nat>) {
    Elems(order) == AffectedExpenses(s, st, c)
  }

  lemma AffectedReady(s: State, c: Change, st: Settings, order: seq<nat>)
    requires Inv(s) && ListsAffected(s, st, c, order)
    ensures Ready(Batch(DeleteGroups(s, Matched(s, st, c)), order))
  {
    var matched := Matched(s, st, c);
    DeleteGroupsKeepsInv(s, matched);
    forall id | id in order
      ensures exists g :: g in matched && g in s.groups && id in s.groups[g].members && id in s.expenses
    {
      assert id in Elems(order);
      var g :| g in matched && id in MatchingMembers(s, st, c, g);
      assert g in s.groups && id in s.groups[g].members;
    }
    DeletedMembersAreUngrouped(s, matched, Elems(order));
    forall id | id in order ensures id in s.expenses && !s.expenses[id].isSkipped {
      var g :| g in matched && g in s.groups && id in s.groups[g].members && id in s.expenses;
      assert !s.groups[g].exported;
    }
  }

  /** Handling a change keeps the invariant and never touches an exported group. */
  lemma HandleKeepsInv(s: State, c: Change, st: Settings, rule: Option<Rule>, order: seq<nat>)
    requires Inv(s) && ListsAffected(s, st, c, order) && Handle(s, c, st, rule, order).Success?
    ensures Inv(Handle(s, c, st, rule, order).value) && Frozen(s, Handle(s, c, st, rule, order).value)
  {
    var matched, blocked := Matched(s, st, c), BlockedGroups(s, st, c);
    DeleteGroupsKeepsInv(s, matched - blocked);
    if matched != {} && blocked == {} {
      assert matched - blocked == matched;
      AffectedReady(s, c, st, order);
      ConfiguredReady(Batch(DeleteGroups(s, matched), order), st);
      GroupAndSkipSettles(Configured(Batch(DeleteGroups(s, matched), order), st), st, rule);
    }
  }

  // ---------------------------------------------------------------- what a change settles, and what it loses

  /** The batch a change regroups when no matched group is blocked. */
  function RegroupBatch(s: State, c: Change, st: Settings, order: seq<nat>): Batch {
    Configured(Batch(DeleteGroups(s, Matched(s, st, c)), order), st)
  }

  ghost predicate Regroups(s: State, c: Change, st: Settings, rule: Option<Rule>, order: seq<nat>) {
    && Inv(s) && ListsAffected(s, st, c, order) && Handle(s, c, st, rule, order).Success?
    && Matched(s, st, c) != {} && BlockedGroups(s, st, c) == {}
  }

  lemma RegroupBatchReady(s: State, c: Change, st: Settings, rule: Option<Rule>, order: seq<nat>)
    requires Regroups(s, c, st, rule, order)
    ensures var b := RegroupBatch(s, c, st, order);
            && Ready(b) && Handle(s, c, st, rule, order) == GroupAndSkip(b, st, rule)
            && b.state.groups == s.groups - Matched(s, st, c)
            && Elems(b.ids) <= Elems(order)
            && (forall id :: id in b.state.expenses ==> id in s.expenses && b.state.expenses[id] == s.expenses[id])
            && (forall id :: id in order ==> id in b.ids || id !in b.state.expenses)
            && (forall id :: id in s.expenses && id !in order ==> id in b.state.expenses)
  {
    var matched := Matched(s, st, c);
    assert matched - BlockedGroups(s, st, c) == matched;
    AffectedReady(s, c, st, order);
    ConfiguredReady(Batch(DeleteGroups(s, matched), order), st);
    ConfiguredShrinks(Batch(DeleteGroups(s, matched), order), st);
  }

  lemma RegroupingKeepsOtherGroups(s: State, c: Change, st: Settings, rule: Option<Rule>, order: seq<nat>, g: nat)
    requires Regroups(s, c, st, rule, order) && g in s.groups && g !in Matched(s, st, c)
    ensures var s' := Handle(s, c, st, rule, order).value;
            g in s'.groups && s'.groups[g] == s.groups[g]
  {
    RegroupBatchReady(s, c, st, rule, order);
    GroupAndSkipSettles(RegroupBatch(s, c, st, order), st, rule);
  }

  lemma RegroupingAdds(s: State, c: Change, st: Settings, rule: Option<Rule>, order: seq<nat>, g: nat)
    requires Regroups(s, c, st, rule, order)
    requires g in Handle(s, c, st, rule, order).value.groups && (g !in s.groups || g in Matched(s, st, c))
    ensures var s' := Handle(s, c, st, rule, order).value;
            && !s'.groups[g].exported && s'.groups[g].members <= Elems(order)
            && forall id :: id in s'.groups[g].members ==>
                 id in s'.expenses && s'.expenses[id].details.fundSource == s'.groups[g].fundSource
  {
    RegroupBatchReady(s, c, st, rule, order);
    GroupAndSkipAdds(RegroupBatch(s, c, st, order), st, rule, g);
  }

  lemma RegroupingSettles(s: State, c: Change, st: Settings, rule: Option<Rule>, order: seq<nat>, id: nat)
    requires Regroups(s, c, st, rule, order) && id in order
    ensures var s' := Handle(s, c, st, rule, order).value;
            id !in s'.expenses || Settled(s', id)
  {
    RegroupBatchReady(s, c, st, rule, order);
    GroupAndSkipSettles(RegroupBatch(s, c, st, order), st, rule);
  }

  lemma RegroupingDeletesExactly(s: State, c: Change, st: Settings, rule: Option<Rule>, order: seq<nat>, id: nat)
    requires Regroups(s, c, st, rule, order) && id in s.expenses
    ensures id in Handle(s, c, st, rule, order).value.expenses <==> !(id in order && Unconfigured(st, s.expenses[id]))
  {
    RegroupBatchReady(s, c, st, rule, order);
    GroupAndSkipSettles(RegroupBatch(s, c, st, order), st, rule);
    ConfiguredExactly(Batch(DeleteGroups(s, Matched(s, st, c)), order), st, id);
  }

  lemma RegroupingKeepsOtherRows(s: State, c: Change, st: Settings, rule: Option<Rule>, order: seq<nat>, id: nat)
    requires Regroups(s, c, st, rule, order) && id in s.expenses && id !in order
    ensures var s' := Handle(s, c, st, rule, order).value;
            id in s'.expenses && s'.expenses[id] == s.expenses[id]
  {
    RegroupBatchReady(s, c, st, rule, order);
    assert id !in Elems(RegroupBatch(s, c, st, order).ids);
    GroupAndSkipTouchesTheBatch(RegroupBatch(s, c, st, order), st, rule, id);
  }

  lemma ConfiguredShrinks(b: Batch, st: Settings)
    ensures Elems(Configured(b, st).ids) <= Elems(b.ids)
  {
  }

  /**
   With no matched group blocked, an affected expense is deleted exactly when its new source is not configured, and
   settled under that source otherwise. An expense that is not affected is never deleted.
   */
  lemma UnblockedChangeSettles(s: State, c: Change, st: Settings, rule: Option<Rule>, order: seq<nat>, id: nat)
    requires Inv(s) && ListsAffected(s, st, c, order) && Handle(s, c, st, rule, order).Success?
    requires BlockedGroups(s, st, c) == {} && id in s.expenses
    ensures var s' := Handle(s, c, st, rule, order).value; var affected := AffectedExpenses(s, st, c);
            && (id in s'.expenses <==> !(id in affected && Unconfigured(st, s.expenses[id])))
            && (id in affected && id in s'.expenses ==> Settled(s', id))
  {
    assert id in AffectedExpenses(s, st, c) <==> id in order by {
      assert id in order <==> id in Elems(order);
    }
    if Matched(s, st, c) == {} {
      assert AffectedExpenses(s, st, c) == {};
    } else {
      RegroupingDeletesExactly(s, c, st, rule, order, id);
      if id in order {
        RegroupingSettles(s, c, st, rule, order, id);
      }
    }
  }

  /** Members of the groups a change deletes that it will not read back: all of them if any matched group is blocked. */
  function Stranded(s: State, st: Settings, c: Change): set<nat> {
    var matched, blocked := Matched(s, st, c), BlockedGroups(s, st, c);
    if blocked == {} then set g, id | g in matched && id in s.groups[g].members - MatchingMembers(s, st, c, g) :: id
    else set g, id | g in matched - blocked && id in s.groups[g].members :: id
  }

  /** Grouped before, and afterwards a live row with money on it that is in no group. */
  ghost predicate Lost(s: State, s': State, id: nat) {
    Grouped(s, id) && id in s'.expenses && !Grouped(s', id) && !SetAside(s', id) && AmountOf(s'.expenses, id) != 0
  }

  lemma OnlyGroupOf(s: State, g: nat, h: nat, id: nat)
    requires Inv(s) && g in s.groups && h in s.groups && id in s.groups[g].members && id in s.groups[h].members
    ensures g == h
  {
  }

  /** A change loses exactly the live expenses stranded by the groups it deletes without regrouping. */
  lemma ChangeLosesTheStranded(s: State, c: Change, st: Settings, rule: Option<Rule>, order: seq<nat>, id: nat)
    requires Inv(s) && ListsAffected(s, st, c, order) && Handle(s, c, st, rule, order).Success?
    ensures Lost(s, Handle(s, c, st, rule, order).value, id) <==>
              (id in Stranded(s, st, c) && !SetAside(s, id) && AmountOf(s.expenses, id) != 0)
  {
    var s' := Handle(s, c, st, rule, order).value;
    if Matched(s, st, c) != {} {
      if BlockedGroups(s, st, c) == {} {
        RegroupingLosesTheStranded(s, c, st, rule, order, id);
      } else {
        BlockedChangeLosesTheStranded(s, c, st, rule, order, id);
      }
    }
  }

  lemma RegroupingLosesTheStranded(s: State, c: Change, st: Settings, rule: Option<Rule>, order: seq<nat>, id: nat)
    requires Regroups(s, c, st, rule, order)
    ensures Lost(s, Handle(s, c, st, rule, order).value, id) <==>
              (id in Stranded(s, st, c) && !SetAside(s, id) && AmountOf(s.expenses, id) != 0)
  {
    if id in Stranded(s, st, c) {
      StrandedIsDropped(s, c, st, rule, order, id);
    } else if Grouped(s, id) {
      var g :| g in s.groups && id in s.groups[g].members;
      KeptOrSettled(s, c, st, rule, order, g, id);
    }
  }

  lemma StrandedIsDropped(s: State, c: Change, st: Settings, rule: Option<Rule>, order: seq<nat>, id: nat)
    requires Regroups(s, c, st, rule, order) && id in Stranded(s, st, c)
    ensures var s' := Handle(s, c, st, rule, order).value;
            && Grouped(s, id) && !Grouped(s', id) && id in s.expenses
            && id in s'.expenses && s'.expenses[id] == s.expenses[id]
  {
    var s' := Handle(s, c, st, rule, order).value;
    var h :| h in Matched(s, st, c) && id in s.groups[h].members - MatchingMembers(s, st, c, h);
    assert id in s.groups[h].members && id in s.expenses;
    StrandedIsNotRead(s, c, st, order, h, id);
    RegroupingKeepsOtherRows(s, c, st, rule, order, id);
    forall k | k in s'.groups ensures id !in s'.groups[k].members {
      NotInGroup(s, c, st, rule, order, h, k, id);
    }
  }

  lemma StrandedIsNotRead(s: State, c: Change, st: Settings, order: seq<nat>, h: nat, id: nat)
    requires Inv(s) && ListsAffected(s, st, c, order) && h in Matched(s, st, c)
    requires id in s.groups[h].members && id !in MatchingMembers(s, st, c, h)
    ensures id !in order
  {
    if id in order {
      assert id in Elems(order);
      var k :| k in Matched(s, st, c) && id in MatchingMembers(s, st, c, k);
      OnlyGroupOf(s, h, k, id);
    }
  }

  lemma NotInGroup(s: State, c: Change, st: Settings, rule: Option<Rule>, order: seq<nat>, h: nat, k: nat, id: nat)
    requires Regroups(s, c, st, rule, order) && h in Matched(s, st, c) && id in s.groups[h].members && id !in order
    requires k in Handle(s, c, st, rule, order).value.groups
    ensures id !in Handle(s, c, st, rule, order).value.groups[k].members
  {
    if k in s.groups && k !in Matched(s, st, c) {
      RegroupingKeepsOtherGroups(s, c, st, rule, order, k);
    } else {
      RegroupingAdds(s, c, st, rule, order, k);
      assert id !in Elems(order);
    }
  }

  lemma KeptOrSettled(s: State, c: Change, st: Settings, rule: Option<Rule>, order: seq<nat>, g: nat, id: nat)
    requires Regroups(s, c, st, rule, order) && g in s.groups && id in s.groups[g].members && id !in Stranded(s, st, c)
    ensures var s' := Handle(s, c, st, rule, order).value;
            Grouped(s', id) || id !in s'.expenses || Settled(s', id)
  {
    if g in Matched(s, st, c) {
      UnstrandedIsRead(s, c, st, order, g, id);
      RegroupingSettles(s, c, st, rule, order, id);
    } else {
      RegroupingKeepsOtherGroups(s, c, st, rule, order, g);
    }
  }

  lemma UnstrandedIsRead(s: State, c: Change, st: Settings, order: seq<nat>, g: nat, id: nat)
    requires ListsAffected(s, st, c, order) && BlockedGroups(s, st, c) == {}
    requires g in Matched(s, st, c) && id in s.groups[g].members && id !in Stranded(s, st, c)
    ensures id in order
  {
    var unread := s.groups[g].members - MatchingMembers(s, st, c, g);
    assert id !in unread;
    assert id in Elems(order);
  }

  /** Deleting groups takes exactly their members out of groups. */
  lemma DeletingUngroups(s: State, gone: set<nat>, id: nat)
    requires Inv(s)
    ensures Grouped(DeleteGroups(s, gone), id) <==> exists g :: g in s.groups && g !in gone && id in s.groups[g].members
    ensures Grouped(s, id) && !Grouped(DeleteGroups(s, gone), id) <==>
              exists g :: g in s.groups && g in gone && id in s.groups[g].members
  {
    var s' := DeleteGroups(s, gone);
    assert forall g :: g in s'.groups <==> g in s.groups && g !in gone;
    assert forall g :: g in s'.groups ==> s'.groups[g] == s.groups[g];
  }

  lemma BlockedChangeLosesTheStranded(s: State, c: Change, st: Settings, rule: Option<Rule>, order: seq<nat>, id: nat)
    requires Inv(s) && Handle(s, c, st, rule, order).Success?
    requires BlockedGroups(s, st, c) != {}
    ensures Lost(s, Handle(s, c, st, rule, order).value, id) <==>
              (id in Stranded(s, st, c) && !SetAside(s, id) && AmountOf(s.expenses, id) != 0)
  {
    var gone := Matched(s, st, c) - BlockedGroups(s, st, c);
    assert Handle(s, c, st, rule, order).value == DeleteGroups(s, gone);
    DeletingUngroups(s, gone, id);
    assert id in Stranded(s, st, c) <==> exists g :: g in s.groups && g in gone && id in s.groups[g].members;
  }

  // ---------------------------------------------------------------- report-keyed and single-expense groups

  /** Every changed expense is listed under the source it left, and only it. */
  ghost predicate Faithful(s: State, c: Change) {
    && WellFormed(s, c)
    && (forall f, id :: f in c.affected && id in c.affected[f] ==>
          id in c.changed && id in s.expenses && s.expenses[id].details.fundSource == OtherSource(f))
  }

  /** In every unexported group, exactly the changed members disagree with the group's fund source. */
  ghost predicate OnlyChangedDiffer(s: State, c: Change) {
    forall g, id :: g in s.groups && !s.groups[g].exported && id in s.groups[g].members && id in s.expenses ==>
      (s.expenses[id].details.fundSource != s.groups[g].fundSource <==> id in c.changed)
  }

  predicate ByReport(st: Settings, f: FundSource) {
    match f case PERSONAL => PersonalByReport(st) case CCC => CardsByReport(st)
  }

  /** A group of a source grouped by report has one report; of a source grouped by expense, one member. */
  ghost predicate KeyedGroup(s: State, st: Settings, g: nat)
    requires g in s.groups
  {
    forall a, b :: a in s.groups[g].members && b in s.groups[g].members && a in s.expenses && b in s.expenses ==>
      if ByReport(st, s.groups[g].fundSource) then s.expenses[a].details.reportId == s.expenses[b].details.reportId
      else a == b
  }

  /** All rows of such a group match as soon as one does, unless only the card side is read and grouped by report. */
  lemma KeyedGroupMatchesWhole(s: State, st: Settings, c: Change, g: nat, a: nat, b: nat)
    requires Faithful(s, c) && OnlyChangedDiffer(s, c) && g in Matched(s, st, c) && KeyedGroup(s, st, g)
    requires PersonalByReport(st) || !CardsByReport(st) || PERSONAL in c.affected
    requires a in MatchingMembers(s, st, c, g) && b in s.groups[g].members && b in s.expenses
    ensures b in MatchingMembers(s, st, c, g)
  {
  }

  /** The one combination whose filter can find a card group through its changed members alone. */
  predicate CardGroupsReadSingly(st: Settings, c: Change) {
    !PersonalByReport(st) && CardsByReport(st) && PERSONAL !in c.affected
  }

  lemma SinglyReadMembers(s: State, st: Settings, c: Change, g: nat)
    requires Faithful(s, c) && OnlyChangedDiffer(s, c) && CardGroupsReadSingly(st, c)
    requires g in Matched(s, st, c) && s.groups[g].fundSource == CCC
    ensures MatchingMembers(s, st, c, g) == s.groups[g].members * s.expenses.Keys * c.changed
  {
    forall id | id in s.groups[g].members && id in s.expenses
      ensures RowMatches(st, c, CCC, id, s.expenses[id]) <==> id in c.changed
    {
    }
  }

  lemma PersonalGroupsMatchWhole(s: State, st: Settings, c: Change, g: nat)
    requires Inv(s) && Faithful(s, c) && OnlyChangedDiffer(s, c) && CardGroupsReadSingly(st, c)
    requires g in Matched(s, st, c) && s.groups[g].fundSource == PERSONAL && KeyedGroup(s, st, g)
    ensures s.groups[g].members == MatchingMembers(s, st, c, g)
  {
    var a :| a in MatchingMembers(s, st, c, g);
    assert s.groups[g].members <= s.expenses.Keys;
  }

  /**
   Groups keyed by report or holding one expense are rebuilt completely, except in one combination: personal
   expenses grouped singly, cards by report, and a caller that names only the card source. A card group is then
   found by its changed members alone, and is rebuilt completely exactly when it has no others.
   */
  lemma KeyedGroupsStrandExactly(s: State, st: Settings, c: Change)
    requires Inv(s) && Faithful(s, c) && OnlyChangedDiffer(s, c) && BlockedGroups(s, st, c) == {}
    requires forall g :: g in Matched(s, st, c) ==> KeyedGroup(s, st, g)
    ensures Stranded(s, st, c) == {} <==>
              (CardGroupsReadSingly(st, c) ==>
                 forall g :: g in Matched(s, st, c) && s.groups[g].fundSource == CCC ==>
                     s.groups[g].members <= c.changed)
  {
    NothingStrandedExactly(s, st, c);
    forall g | g in Matched(s, st, c)
      ensures s.groups[g].members <= MatchingMembers(s, st, c, g) <==>
                (CardGroupsReadSingly(st, c) && s.groups[g].fundSource == CCC ==> s.groups[g].members <= c.changed)
    {
      assert s.groups[g].members <= s.expenses.Keys;
      if CardGroupsReadSingly(st, c) && s.groups[g].fundSource == CCC {
        SinglyReadMembers(s, st, c, g);
      } else if CardGroupsReadSingly(st, c) {
        PersonalGroupsMatchWhole(s, st, c, g);
      } else {
        var a :| a in MatchingMembers(s, st, c, g);
        forall b | b in s.groups[g].members ensures b in MatchingMembers(s, st, c, g) {
          KeyedGroupMatchesWhole(s, st, c, g, a, b);
        }
      }
    }
  }

  /** Nothing is stranded exactly when every matched group is read back whole. */
  lemma NothingStrandedExactly(s: State, st: Settings, c: Change)
    requires BlockedGroups(s, st, c) == {}
    ensures Stranded(s, st, c) == {} <==>
              forall g :: g in Matched(s, st, c) ==> s.groups[g].members <= MatchingMembers(s, st, c, g)
  {
    if Stranded(s, st, c) == {} {
      forall g, id | g in Matched(s, st, c) && id in s.groups[g].members ensures id in MatchingMembers(s, st, c, g) {
        assert id in s.groups[g].members - MatchingMembers(s, st, c, g) ==> id in Stranded(s, st, c);
      }
    }
  }

  /**
   With both sources grouped by expense a group is found by its changed members alone, also a card group that
   holds the several expenses of one bank transaction: nothing is stranded exactly when a change that touches a
   group changes all of it.
   */
  lemma SingleGroupsStrandExactly(s: State, st: Settings, c: Change)
    requires Inv(s) && BlockedGroups(s, st, c) == {} && !PersonalByReport(st) && !CardsByReport(st)
    ensures Stranded(s, st, c) == {} <==>
              forall g :: g in s.groups && !s.groups[g].exported && s.groups[g].members * c.changed != {} ==>
                s.groups[g].members <= c.changed
  {
    NothingStrandedExactly(s, st, c);
    forall g | g in s.groups && !s.groups[g].exported
      ensures MatchingMembers(s, st, c, g) == s.groups[g].members * c.changed
    {
      assert s.groups[g].members <= s.expenses.Keys;
    }
  }

  // ---------------------------------------------------------------- fund-source homogeneity

  ghost predicate OneSource(s: State, g: nat)
    requires g in s.groups
  {
    forall id :: id in s.groups[g].members && id in s.expenses ==>
        s.expenses[id].details.fundSource == s.groups[g].fundSource
  }

  ghost predicate AllOneSource(s: State) {
    forall g :: g in s.groups && !s.groups[g].exported ==> OneSource(s, g)
  }

  lemma RegroupingKeepsDetails(s: State, c: Change, st: Settings, rule: Option<Rule>, order: seq<nat>, id: nat)
    requires Regroups(s, c, st, rule, order) && id in Handle(s, c, st, rule, order).value.expenses
    ensures id in s.expenses && Handle(s, c, st, rule, order).value.expenses[id].details == s.expenses[id].details
  {
    RegroupBatchReady(s, c, st, rule, order);
    GroupAndSkipSettles(RegroupBatch(s, c, st, order), st, rule);
  }

  lemma UnmatchedHasOneSource(s: State, c: Change, st: Settings, g: nat)
    requires WellFormed(s, c) && OnlyChangedDiffer(s, c) && g in s.groups && !s.groups[g].exported
    requires g !in Matched(s, st, c)
    ensures OneSource(s, g)
  {
    forall id | id in s.groups[g].members && id in s.expenses ensures id !in c.changed {
      if id in c.changed {
        FilterFindsChangedExpenses(s, st, c, g, id);
      }
    }
  }

  /** After a change, groups are of one source again exactly when no blocked group holds a changed expense. */
  lemma HomogeneityRestored(s: State, c: Change, st: Settings, rule: Option<Rule>, order: seq<nat>)
    requires Inv(s) && ListsAffected(s, st, c, order) && Handle(s, c, st, rule, order).Success?
    requires WellFormed(s, c) && OnlyChangedDiffer(s, c)
    ensures AllOneSource(Handle(s, c, st, rule, order).value) <==>
              forall g :: g in BlockedGroups(s, st, c) ==> s.groups[g].members !! c.changed
  {
    var s' := Handle(s, c, st, rule, order).value;
    if Matched(s, st, c) != {} && BlockedGroups(s, st, c) == {} {
      forall g | g in s'.groups && !s'.groups[g].exported ensures OneSource(s', g) {
        RegroupedHasOneSource(s, c, st, rule, order, g);
      }
    } else {
      UnregroupedSources(s, c, st, rule, order);
    }
  }

  lemma RegroupedHasOneSource(s: State, c: Change, st: Settings, rule: Option<Rule>, order: seq<nat>, g: nat)
    requires Regroups(s, c, st, rule, order) && WellFormed(s, c) && OnlyChangedDiffer(s, c)
    requires var s' := Handle(s, c, st, rule, order).value; g in s'.groups && !s'.groups[g].exported
    ensures OneSource(Handle(s, c, st, rule, order).value, g)
  {
    var s' := Handle(s, c, st, rule, order).value;
    if g in s.groups && g !in Matched(s, st, c) {
      RegroupingKeepsOtherGroups(s, c, st, rule, order, g);
      UnmatchedHasOneSource(s, c, st, g);
      forall id | id in s'.groups[g].members && id in s'.expenses
        ensures s'.expenses[id].details.fundSource == s'.groups[g].fundSource
      {
        RegroupingKeepsDetails(s, c, st, rule, order, id);
      }
    } else {
      RegroupingAdds(s, c, st, rule, order, g);
    }
  }

  lemma UnregroupedSources(s: State, c: Change, st: Settings, rule: Option<Rule>, order: seq<nat>)
    requires Inv(s) && Handle(s, c, st, rule, order).Success? && WellFormed(s, c) && OnlyChangedDiffer(s, c)
    requires Matched(s, st, c) == {} || BlockedGroups(s, st, c) != {}
    ensures AllOneSource(Handle(s, c, st, rule, order).value) <==>
              forall g :: g in BlockedGroups(s, st, c) ==> s.groups[g].members !! c.changed
  {
    var s' := Handle(s, c, st, rule, order).value;
    var blocked := BlockedGroups(s, st, c);
    assert s'.expenses == s.expenses;
    forall g | g in s'.groups && !s'.groups[g].exported ensures g in blocked || OneSource(s', g) {
      assert g in s.groups && s'.groups[g] == s.groups[g];
      if g !in Matched(s, st, c) {
        UnmatchedHasOneSource(s, c, st, g);
      }
    }
    forall g | g in blocked ensures g in s'.groups && (OneSource(s', g) <==> s.groups[g].members !! c.changed) {
      assert s.groups[g].members <= s.expenses.Keys;
      if OneSource(s', g) {
        assert forall id :: id in s.groups[g].members ==> id !in c.changed;
      }
    }
  }
}
