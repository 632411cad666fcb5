/**
 What the steps that take groups apart do to each group, log and row, with the statuses and columns written out:
 fund source changes, reruns of the skip rule, ejections, report additions, clean-ups, and the writes of exports.
 */
module LedgerOutcome {
  import opened Common
  import opened TaskLogs
  import opened Expenses
  import opened GroupCreation
  import opened Tables
  import opened Ledger
  import opened Regrouping
  import opened FundSourceChange
  import ImportOutcome
  import opened LedgerRuns

  /** The log of a group, if it has one. */
  function LogOf(s: State, g: nat): Option<LogStatus> {
    if g in s.logs then Some(s.logs[g]) else None
  }

  /** The group is still there with its members, source and log. */
  ghost predicate Untouched(s: State, s': State, g: nat) {
    g in s.groups && g in s'.groups && s'.groups[g] == s.groups[g] && LogOf(s', g) == LogOf(s, g)
  }

  ghost predicate Deleted(s': State, g: nat) {
    g !in s'.groups && LogOf(s', g) == None
  }

  /** An export of the group is queued, under way or done. */
  predicate Busy(s: State, g: nat) {
    var log := LogOf(s, g);
    log == Some(Enqueued) || log == Some(InProgress) || log == Some(Complete)
  }

  // ---------------------------------------------------------------- a fund source change

  /** The filter of the change finds the row as member of a group of this fund source. */
  predicate Finds(st: Settings, c: Change, fund: FundSource, id: nat, d: Details) {
    match ("report_id" in st.reimbursableFields, "report_id" in st.cccFields)
    case (true, true) => d.reportId == c.reportId
    case (false, false) => id in c.changed
    case (true, false) =>
      || (PERSONAL in c.affected && (id in c.affected[PERSONAL] || (d.reportId == c.reportId && fund == PERSONAL)))
      || (CCC in c.affected && (id in c.affected[CCC] || (d.reportId == c.reportId && fund == CCC)))
    case (false, true) =>
      || (PERSONAL in c.affected && (id in c.affected[PERSONAL] || (d.reportId == c.reportId && fund == CCC)))
      || (CCC in c.affected && (id in c.affected[CCC] || (d.reportId == c.reportId && fund == PERSONAL)))
  }

  /** The groups a change is about: unexported, with a member that the filter finds. */
  ghost predicate IsMatched(s: State, st: Settings, c: Change, g: nat) {
    && g in s.groups && !s.groups[g].exported
    && exists id :: id in s.groups[g].members && id in s.expenses
                    && Finds(st, c, s.groups[g].fundSource, id, s.expenses[id].details)
  }

  lemma RowMatchesIsFinds(st: Settings, c: Change, fund: FundSource, id: nat, e: Expense)
    ensures RowMatches(st, c, fund, id, e) <==> Finds(st, c, fund, id, e.details)
  {
  }

  lemma MatchedExactly(s: State, st: Settings, c: Change, g: nat)
    ensures g in Matched(s, st, c) <==> IsMatched(s, st, c, g)
  {
    if g in s.groups {
      forall id | id in s.expenses
        ensures RowMatches(st, c, s.groups[g].fundSource, id, s.expenses[id]) <==>
                Finds(st, c, s.groups[g].fundSource, id, s.expenses[id].details)
      {
        RowMatchesIsFinds(st, c, s.groups[g].fundSource, id, s.expenses[id]);
      }
      if IsMatched(s, st, c, g) {
        var id :| id in s.groups[g].members && id in s.expenses
                  && Finds(st, c, s.groups[g].fundSource, id, s.expenses[id].details);
        assert id in MatchingMembers(s, st, c, g);
      }
      if MatchingMembers(s, st, c, g) != {} {
        var id :| id in MatchingMembers(s, st, c, g);
      }
    }
  }

  lemma BlockedExactly(s: State, st: Settings, c: Change, g: nat)
    ensures g in BlockedGroups(s, st, c) <==> IsMatched(s, st, c, g) && Busy(s, g)
  {
    MatchedExactly(s, st, c, g);
  }

  /** Some matched group has a queued, running or finished export. */
  ghost predicate SomeBusy(s: State, st: Settings, c: Change) {
    exists g :: IsMatched(s, st, c, g) && Busy(s, g)
  }

  lemma BlockedIsSomeBusy(s: State, st: Settings, c: Change)
    ensures BlockedGroups(s, st, c) != {} <==> SomeBusy(s, st, c)
  {
    forall g ensures g in BlockedGroups(s, st, c) <==> IsMatched(s, st, c, g) && Busy(s, g) {
      BlockedExactly(s, st, c, g);
    }
    if BlockedGroups(s, st, c) != {} {
      var g :| g in BlockedGroups(s, st, c);
    }
  }

  lemma KeptThroughGrouping(b: Batch, st: Settings, rule: Option<Rule>, g: nat)
    requires Ready(b) && GroupAndSkip(b, st, rule).Success?
    ensures var s' := GroupAndSkip(b, st, rule).value;
            && s'.logs == b.state.logs
            && (g in b.state.groups ==> g in s'.groups && s'.groups[g] == b.state.groups[g])
            && (g < b.state.nextGroup && g !in b.state.groups ==> g !in s'.groups)
  {
    GroupAndSkipSettles(b, st, rule);
  }

  /**
   What a change does to each group: one that is matched and not busy is deleted with its log; every other one, busy or
   not matched, is still there as it was.
   */
  lemma ChangeDeletesExactly(s: State, c: Change, st: Settings, rule: Option<Rule>, order: seq<nat>, g: nat)
    requires Inv(s) && ListsAffected(s, st, c, order) && Handle(s, c, st, rule, order).Success? && g in s.groups
    ensures var s' := Handle(s, c, st, rule, order).value;
            if IsMatched(s, st, c, g) && !Busy(s, g) then Deleted(s', g) else Untouched(s, s', g)
  {
    MatchedExactly(s, st, c, g);
    BlockedExactly(s, st, c, g);
    if Matched(s, st, c) != {} && BlockedGroups(s, st, c) == {} {
      RegroupBatchReady(s, c, st, rule, order);
      RegroupStart(s, c, st, order);
      KeptThroughGrouping(RegroupBatch(s, c, st, order), st, rule, g);
    }
  }

  lemma RegroupStart(s: State, c: Change, st: Settings, order: seq<nat>)
    ensures var b := RegroupBatch(s, c, st, order);
            b.state.logs == s.logs - Matched(s, st, c) && b.state.nextGroup == s.nextGroup
  {
  }

  /** A busy group among the matched ones stops the rebuild: no group is added and no row changes. */
  lemma BusyChangeAddsNothing(s: State, c: Change, st: Settings, rule: Option<Rule>, order: seq<nat>)
    requires SomeBusy(s, st, c)
    ensures Handle(s, c, st, rule, order).Success?
    ensures var s' := Handle(s, c, st, rule, order).value;
            s'.groups.Keys <= s.groups.Keys && s'.expenses == s.expenses
  {
    BlockedIsSomeBusy(s, st, c);
    var g :| IsMatched(s, st, c, g) && Busy(s, g);
    MatchedExactly(s, st, c, g);
  }

  /** The row is one that the change reads back: found in a matched group. */
  ghost predicate ReadBack(s: State, st: Settings, c: Change, id: nat) {
    exists g :: g in s.groups && !s.groups[g].exported && id in s.groups[g].members && id in s.expenses
                && Finds(st, c, s.groups[g].fundSource, id, s.expenses[id].details)
  }

  lemma AffectedExactly(s: State, st: Settings, c: Change, id: nat)
    ensures id in AffectedExpenses(s, st, c) <==> ReadBack(s, st, c, id)
  {
    forall g, e | id in s.expenses && e == s.expenses[id] && g in s.groups
      ensures RowMatches(st, c, s.groups[g].fundSource, id, e) <==> Finds(st, c, s.groups[g].fundSource, id, e.details)
    {
      RowMatchesIsFinds(st, c, s.groups[g].fundSource, id, e);
    }
    if ReadBack(s, st, c, id) {
      var g :| g in s.groups && !s.groups[g].exported && id in s.groups[g].members && id in s.expenses
               && Finds(st, c, s.groups[g].fundSource, id, s.expenses[id].details);
      assert id in MatchingMembers(s, st, c, g);
      assert g in Matched(s, st, c);
    }
  }

  /** The program exports nothing of this fund source. */
  predicate NotExported(st: Settings, d: Details) {
    (d.fundSource == PERSONAL && st.reimbursable == None) || (d.fundSource == CCC && st.ccc == None)
  }

  lemma RowNotReadBack(s: State, c: Change, st: Settings, rule: Option<Rule>, order: seq<nat>, id: nat)
    requires Inv(s) && ListsAffected(s, st, c, order) && Handle(s, c, st, rule, order).Success?
    requires !SomeBusy(s, st, c) && id in s.expenses && !ReadBack(s, st, c, id)
    ensures var s' := Handle(s, c, st, rule, order).value; id in s'.expenses && s'.expenses[id] == s.expenses[id]
  {
    BlockedIsSomeBusy(s, st, c);
    AffectedExactly(s, st, c, id);
    assert id !in Elems(order);
    if Matched(s, st, c) != {} {
      RegroupingKeepsOtherRows(s, c, st, rule, order, id);
    }
  }

  /** The change rebuilds: something is matched, nothing of it busy, and the row is read back. */
  lemma ReadBackRegroups(s: State, c: Change, st: Settings, rule: Option<Rule>, order: seq<nat>, id: nat)
    requires Inv(s) && ListsAffected(s, st, c, order) && Handle(s, c, st, rule, order).Success?
    requires !SomeBusy(s, st, c) && ReadBack(s, st, c, id)
    ensures Regroups(s, c, st, rule, order) && id in order
  {
    BlockedIsSomeBusy(s, st, c);
    AffectedExactly(s, st, c, id);
    assert id in Elems(order);
  }

  lemma UnconfiguredIsNotExported(st: Settings, e: Expense)
    ensures Unconfigured(st, e) <==> NotExported(st, e.details)
  {
  }

  lemma RowRebuilt(s: State, c: Change, st: Settings, rule: Option<Rule>, order: seq<nat>, id: nat)
    requires Regroups(s, c, st, rule, order) && id in order && id in s.expenses
    requires !NotExported(st, s.expenses[id].details)
    ensures ImportOutcome.Outcome(Handle(s, c, st, rule, order).value, s.expenses[id], id,
                                  ImportOutcome.Filtered(rule, s.expenses[id]),
                                  ImportOutcome.GroupIsKept(RegroupBatch(s, c, st, order), st, rule, id))
  {
    UnconfiguredIsNotExported(st, s.expenses[id]);
    RegroupBatchReady(s, c, st, rule, order);
    InRegroupBatch(s, c, st, order, id);
    ImportOutcome.GroupAndSkipExactly(RegroupBatch(s, c, st, order), st, rule, id);
  }

  /** What becomes of a row in an unblocked change. */
  ghost predicate Rebuilt(s': State, st: Settings, e: Expense, id: nat, readBack: bool, filtered: bool, kept: bool) {
    if !readBack then id in s'.expenses && s'.expenses[id] == e
    else if NotExported(st, e.details) then id !in s'.expenses
    else ImportOutcome.Outcome(s', e, id, filtered, kept)
  }

  /**
   With no busy group a row that is read back is deleted when its source is not exported any more, and otherwise goes
   through the filter and into groups like an imported one; no other row changes.
   */
  lemma ChangeRebuildsExactly(s: State, c: Change, st: Settings, rule: Option<Rule>, order: seq<nat>, id: nat)
    requires Inv(s) && ListsAffected(s, st, c, order) && Handle(s, c, st, rule, order).Success?
    requires !SomeBusy(s, st, c) && id in s.expenses
    ensures Rebuilt(Handle(s, c, st, rule, order).value, st, s.expenses[id], id, ReadBack(s, st, c, id),
                    ImportOutcome.Filtered(rule, s.expenses[id]),
                    ImportOutcome.GroupIsKept(RegroupBatch(s, c, st, order), st, rule, id))
  {
    if !ReadBack(s, st, c, id) {
      RowNotReadBack(s, c, st, rule, order, id);
    } else {
      ReadBackRegroups(s, c, st, rule, order, id);
      if NotExported(st, s.expenses[id].details) {
        UnconfiguredIsNotExported(st, s.expenses[id]);
        RegroupingDeletesExactly(s, c, st, rule, order, id);
      } else {
        RowRebuilt(s, c, st, rule, order, id);
      }
    }
  }

  lemma InRegroupBatch(s: State, c: Change, st: Settings, order: seq<nat>, id: nat)
    requires id in order && id in s.expenses && !Unconfigured(st, s.expenses[id])
    ensures var b := RegroupBatch(s, c, st, order);
            id in b.ids && id in b.state.expenses && b.state.expenses[id] == s.expenses[id]
  {
    var b0 := Batch(DeleteGroups(s, Matched(s, st, c)), order);
    DeletedExactly(b0, st.reimbursable.None?, PERSONAL, id);
    DeletedExactly(DeleteUnconfigured(b0, st.reimbursable.None?, PERSONAL), st.ccc.None?, CCC, id);
  }

  // ---------------------------------------------------------------- rerunning the skip rule

  /** The rerun takes the row: the rule matches it, and it is neither skipped nor complete. */
  predicate Taken(rule: Rule, e: Expense) {
    rule(e.details) && !e.isSkipped && !(e.summary.Some? && e.summary.value.state == COMPLETE)
  }

  /** The members of a group that the rerun leaves in it. */
  function Others(s: State, rule: Rule, g: nat): set<nat>
    requires g in s.groups
  {
    set id | id in s.groups[g].members && !(id in s.expenses && Taken(rule, s.expenses[id]))
  }

  lemma ReRunRowsExactly(s: State, rule: Rule, id: nat)
    requires id in s.expenses
    ensures var s', e := ReRunSkipRule(s, rule), s.expenses[id];
            && id in s'.expenses
            && s'.expenses[id] == if Taken(rule, e) && !ImportOutcome.Lost(e) then ImportOutcome.AsSkipped(e) else e
  {
    assert id in RuleHits(s, rule) <==> Taken(rule, s.expenses[id]);
  }

  /**
   A rerun leaves an exported group alone. Another one loses the rows taken, and is gone when none is left; if it loses
   any its log goes.
   */
  lemma ReRunGroupsExactly(s: State, rule: Rule, g: nat)
    requires Inv(s) && g in s.groups
    ensures var s' := ReRunSkipRule(s, rule);
            if s.groups[g].exported || Others(s, rule, g) == s.groups[g].members then Untouched(s, s', g)
            else
              && LogOf(s', g) == None
              && (g in s'.groups <==> Others(s, rule, g) != {})
              && (g in s'.groups ==> s'.groups[g] == s.groups[g].(members := Others(s, rule, g)))
  {
    var hit := RuleHits(s, rule);
    assert Others(s, rule, g) == s.groups[g].members - hit;
    if s.groups[g].members * hit == {} {
      assert forall id :: id in s.groups[g].members && id in hit ==> id in s.groups[g].members * hit;
      assert s.groups[g].members - hit == s.groups[g].members;
    } else {
      var id :| id in s.groups[g].members * hit;
      assert id !in s.groups[g].members - hit;
    }
    assert s.groups[g].members != {};
  }

  // ---------------------------------------------------------------- ejection and report additions

  /** An export of the group is queued or under way. */
  predicate Active(s: State, g: nat) {
    LogOf(s, g) == Some(Enqueued) || LogOf(s, g) == Some(InProgress)
  }

  /**
   An ejected expense leaves its group unless that is exported or active; the group goes with it when it was the only
   member. Every other group stays.
   */
  lemma EjectExactly(s: State, id: nat, g: nat)
    requires Inv(s) && g in s.groups
    ensures var s' := Eject(s, id);
            if id !in s.groups[g].members || s.groups[g].exported || Active(s, g) then Untouched(s, s', g)
            else if s.groups[g].members == {id} then Deleted(s', g)
            else
              && g in s'.groups && s'.groups[g] == s.groups[g].(members := s.groups[g].members - {id})
              && LogOf(s', g) == LogOf(s, g)
  {
    var alone := s.groups[g].members * {id};
    assert id in s.groups[g].members <==> id in alone;
    if id in s.groups[g].members {
      assert forall h :: h in s.groups && id in s.groups[h].members ==> h == g;
    } else {
      assert alone == {};
    }
  }

  ghost predicate HoldsReport(s: State, g: nat, reportId: string) {
    g in s.groups && exists id ::
      id in s.groups[g].members && id in s.expenses && s.expenses[id].details.reportId == reportId
  }

  /** An addition to a report deletes the idle unexported groups with an expense of the report, and no other. */
  lemma AddToReportExactly(s: State, reportId: string, g: nat)
    requires g in s.groups
    ensures var s' := AddToReport(s, reportId);
            if !s.groups[g].exported && !Active(s, g) && HoldsReport(s, g, reportId) then Deleted(s', g)
            else Untouched(s, s', g)
    ensures AddToReport(s, reportId).groups.Keys <= s.groups.Keys && AddToReport(s, reportId).expenses == s.expenses
  {
  }

  // ---------------------------------------------------------------- a change of the export type

  /** An unexported group of a fund source whose export type changed. */
  predicate Concerned(s: State, sources: set<FundSource>, g: nat) {
    g in s.groups && !s.groups[g].exported && s.groups[g].fundSource in sources
  }

  /**
   If any group is concerned, queued logs go, and failed and fatal logs of the concerned groups, and no other; of the
   errors, those of a concerned group and those whose list it empties, and the lists lose exactly these groups.
   */
  lemma ClearExactly(s: State, sources: set<FundSource>, g: nat)
    ensures var s' := ClearOnTypeChange(s, sources);
            && s'.groups == s.groups && s'.expenses == s.expenses
            && LogOf(s', g) ==
                 if (exists h :: Concerned(s, sources, h))
                    && (LogOf(s, g) == Some(Enqueued)
                        || (Concerned(s, sources, g) && (LogOf(s, g) == Some(Failed) || LogOf(s, g) == Some(Fatal))))
                 then None else LogOf(s, g)
  {
    var hit := UnexportedOf(s, sources);
    assert forall h :: h in hit <==> Concerned(s, sources, h);
    if hit != {} {
      var h :| h in hit;
    }
  }

  lemma ClearErrorsExactly(s: State, sources: set<FundSource>, k: nat)
    requires Inv(s) && k in s.errors
    ensures var s', e := ClearOnTypeChange(s, sources), s.errors[k];
            && (k !in s'.errors <==>
                  || (e.group.Some? && Concerned(s, sources, e.group.value))
                  || (e.mapping != [] && forall g :: g in e.mapping ==> Concerned(s, sources, g)))
            && (k in s'.errors ==>
                  && s'.errors[k].group == e.group
                  && forall g :: g in s'.errors[k].mapping <==> g in e.mapping && !Concerned(s, sources, g))
  {
    var hit, e := UnexportedOf(s, sources), s.errors[k];
    assert forall h :: h in hit <==> Concerned(s, sources, h);
    if hit == {} && e.mapping != [] {
      assert e.mapping[0] in e.mapping;
    }
  }

  // ---------------------------------------------------------------- exports, failures and lost expenses

  /** A commit exports its group and completes the log, whatever that says, and changes nothing else. */
  lemma CommitExactly(s: State, g: nat, h: nat)
    ensures var s' := CommitExport(s, g);
            && LogOf(s', h) == (if h == g && g in s.groups then Some(Complete) else LogOf(s, h))
            && (h in s'.groups <==> h in s.groups)
            && (h in s.groups ==> s'.groups[h] == s.groups[h].(exported := s.groups[h].exported || h == g))
            && s'.expenses == s.expenses && s'.errors == s.errors
  {
  }

  /** Any other write of a log changes this log of a group that exists, and never completes it. */
  lemma LogWriteExactly(s: State, g: nat, status: LogStatus, h: nat)
    ensures var s' := SetLog(s, g, status);
            && LogOf(s', h) ==
                 (if h == g && g in s.groups && status != Complete then Some(status) else LogOf(s, h))
            && s' == s.(logs := s'.logs)
  {
  }

  /** A failed group gets the error of its own that it does not have yet, and no other error changes. */
  lemma FailureExactly(s: State, g: nat, row: nat, k: nat)
    requires row !in s.errors
    ensures var s' := RecordFailure(s, g, row);
            var fails := g in s.groups && forall l :: l in s.errors ==> s.errors[l].group != Some(g);
            && (k in s'.errors <==> k in s.errors || (k == row && fails))
            && (k in s.errors ==> s'.errors[k] == s.errors[k])
            && (fails ==> s'.errors[row] == ErrorRow(Some(g), []))
            && s' == s.(errors := s'.errors)
  {
  }

  /** The expenses the platform no longer knows end DELETED and synced; nothing else about any row changes. */
  lemma LostExactly(s: State, ids: set<nat>, id: nat)
    requires id in s.expenses
    ensures var s', e := MarkLost(s, ids), s.expenses[id];
            && id in s'.expenses
            && s'.expenses[id] == (if id in ids then e.(summary := Some(Summary(DELETED, true))) else e)
            && s' == s.(expenses := s'.expenses)
  {
  }
}
