/** Ledger steps that take groups apart: skip-rule reruns, ejections, report additions, fund-source changes. */
module Regrouping {
  import opened Common
  import opened TaskLogs
  import opened Expenses
  import Grouping
  import opened GroupCreation
  import opened Tables
  import opened Ledger

  predicate ActiveLog(s: State, g: nat) {
    g in s.logs && (s.logs[g] == Enqueued || s.logs[g] == InProgress)
  }

  // ---------------------------------------------------------------- rerunning the skip rule

  predicate SummaryComplete(e: Expense) {
    e.summary.Some? && e.summary.value.state == COMPLETE
  }

  function RuleHits(s: State, rule: Rule): set<nat> {
    set id | id in s.expenses && rule(s.expenses[id].details) && !s.expenses[id].isSkipped
        && !SummaryComplete(s.expenses[id])
  }

  /** The unexported groups that hold one of these expenses. */
  function Holders(s: State, ids: set<nat>): set<nat> {
    set g | g in s.groups && !s.groups[g].exported && s.groups[g].members * ids != {}
  }

  function RemoveMembers(s: State, ids: set<nat>): State {
    s.(groups := map g | g in s.groups && Leave(s.groups[g], ids).members != {} :: Leave(s.groups[g], ids))
  }

  /** re_run_skip_export_rule: the log and the error of every touched group go, even when members remain. */
  function ReRunSkipRule(s: State, rule: Rule): State {
    var hit := RuleHits(s, rule);
    var touched := Holders(s, hit);
    RemoveMembers(Unlog(Skip(s, hit, rule), touched), hit)
  }

  /** The state without the logs and errors of these groups. */
  function Unlog(s: State, gone: set<nat>): State {
    s.(logs := s.logs - gone,
       errors := map k | k in s.errors && !(s.errors[k].group.Some? && s.errors[k].group.value in gone) :: s.errors[k])
  }

  lemma UnlogKeepsInv(s: State, gone: set<nat>)
    requires Inv(s)
    ensures Inv(Unlog(s, gone))
  {
  }

  /** Taking members out of groups that no log and no error names. */
  lemma RemoveMembersKeepsInv(s: State, ids: set<nat>)
    requires Inv(s) && s.logs.Keys !! Holders(s, ids)
    requires forall k :: k in s.errors && s.errors[k].group.Some? ==> s.errors[k].group.value !in Holders(s, ids)
    ensures Inv(RemoveMembers(s, ids)) && Frozen(s, RemoveMembers(s, ids))
    ensures forall g :: g in RemoveMembers(s, ids).groups && !RemoveMembers(s, ids).groups[g].exported ==>
              RemoveMembers(s, ids).groups[g].members !! ids
  {
    forall g | g in s.groups && g !in Holders(s, ids) ensures Leave(s.groups[g], ids) == s.groups[g] {
      if !s.groups[g].exported {
        assert s.groups[g].members * ids == {};
        assert forall e :: e in s.groups[g].members && e in ids ==> e in s.groups[g].members * ids;
      }
    }
    ShrinkKeepsInv(s, RemoveMembers(s, ids).groups);
  }

  lemma ReRunKeepsInv(s: State, rule: Rule)
    requires Inv(s)
    ensures Inv(ReRunSkipRule(s, rule)) && Frozen(s, ReRunSkipRule(s, rule))
  {
    var hit := RuleHits(s, rule);
    var s0 := Unlog(s, Holders(s, hit));
    UnlogKeepsInv(s, Holders(s, hit));
    assert Holders(s0, hit) == Holders(s, hit);
    RemoveMembersKeepsInv(s0, hit);
    SkipKeepsInv(RemoveMembers(s0, hit), hit, rule);
    assert ReRunSkipRule(s, rule) == Skip(RemoveMembers(s0, hit), hit, rule);
  }

  lemma NothingLeftExactly(a: set<nat>, b: set<nat>)
    ensures a - b == {} <==> a <= b
  {
    if a - b == {} {
      forall id | id in a ensures id in b {
        assert id !in b ==> id in a - b;
      }
    }
  }

  /**
   After the rerun a mapping error names a group that no longer exists exactly when it named it before and the
   rerun skipped every member of that unexported group: no mapping error is ever touched.
   */
  lemma ReRunLeavesStaleMentionsExactly(s: State, rule: Rule, g: nat, k: nat)
    requires Inv(s) && g in s.groups && k in s.errors && s.errors[k].group.None?
    ensures var s' := ReRunSkipRule(s, rule);
            (g !in s'.groups && k in s'.errors && g in s'.errors[k].mapping) <==>
              (g in s.errors[k].mapping && !s.groups[g].exported && s.groups[g].members <= RuleHits(s, rule))
  {
    var hit, s' := RuleHits(s, rule), ReRunSkipRule(s, rule);
    assert k in s'.errors && s'.errors[k] == s.errors[k];
    NothingLeftExactly(s.groups[g].members, hit);
    assert g in s'.groups <==> Leave(s.groups[g], hit).members != {} by {
      assert s.groups[g].members != {};
    }
  }

  // ---------------------------------------------------------------- deleting a group

  ghost predicate Mentions(e: ErrorRow, g: nat) {
    e.group == Some(g) || g in e.mapping
  }

  /** Deleting groups leaves nothing that names them, deletes only errors they empty, and touches no other row. */
  lemma DeletionIsExact(s: State, gone: set<nat>)
    ensures var s' := DeleteGroups(s, gone);
            && (forall g :: g in gone ==> g !in s'.groups && g !in s'.logs)
            && (forall g, k :: g in gone && k in s'.errors ==> !Mentions(s'.errors[k], g))
            && (forall k :: k in s.errors ==>
                  (k !in s'.errors <==>
                     || (exists g :: g in gone && s.errors[k].group == Some(g))
                     || ((exists g :: g in s.errors[k].mapping) && forall g :: g in s.errors[k].mapping ==> g in gone)))
            && (forall k :: k in s.errors && (forall g :: g in gone ==> !Mentions(s.errors[k], g)) ==>
                  k in s'.errors && s'.errors[k] == s.errors[k])
            && (forall g :: g in s.groups && g !in gone ==> g in s'.groups && s'.groups[g] == s.groups[g])
            && (forall g :: g in s.logs && g !in gone ==> g in s'.logs && s'.logs[g] == s.logs[g])
            && s'.expenses == s.expenses
  {
    forall k | k in s.errors && (forall g :: g in gone ==> !Mentions(s.errors[k], g))
      ensures !Emptied(s.errors[k], gone) && Without(s.errors[k].mapping, gone) == s.errors[k].mapping
    {
      WithoutNothing(s.errors[k].mapping, gone);
      if s.errors[k].mapping != [] {
        assert s.errors[k].mapping[0] in s.errors[k].mapping;
      }
    }
    forall k | k in s.errors && s.errors[k].mapping != [] ensures exists g :: g in s.errors[k].mapping {
      assert s.errors[k].mapping[0] in s.errors[k].mapping;
    }
  }

  // ---------------------------------------------------------------- ejection and report additions

  /** The groups an ejected expense may still leave. */
  function Leavable(s: State, id: nat): set<nat> {
    set g | g in Holders(s, {id}) && !ActiveLog(s, g)
  }

  /** Of these, the ones it was the only member of. */
  function Vacated(s: State, id: nat): set<nat> {
    set g | g in Leavable(s, id) && s.groups[g].members == {id}
  }

  function LeaveGroups(s: State, from: set<nat>, id: nat): State {
    s.(groups := map g | g in s.groups :: if g in from then Leave(s.groups[g], {id}) else s.groups[g])
  }

  /** handle_expense_report_change for an ejected expense. */
  function Eject(s: State, id: nat): State {
    if exists g :: g in s.groups && s.groups[g].exported && id in s.groups[g].members then s
    else LeaveGroups(DeleteGroups(s, Vacated(s, id)), Leavable(s, id), id)
  }

  lemma LeaveGroupsKeepsInv(s: State, from: set<nat>, id: nat)
    requires Inv(s)
    requires forall g :: g in s.groups && g in from ==> s.groups[g].members != {id}
    ensures Inv(LeaveGroups(s, from, id)) && Frozen(s, LeaveGroups(s, from, id))
  {
    forall g | g in s.groups ensures Leave(s.groups[g], {id}).members != {} || s.groups[g].members == {id} {
      assert s.groups[g].members - {id} == {} ==> s.groups[g].members <= {id};
    }
    ShrinkKeepsInv(s, LeaveGroups(s, from, id).groups);
  }

  lemma EjectKeepsInv(s: State, id: nat)
    requires Inv(s)
    ensures Inv(Eject(s, id)) && Frozen(s, Eject(s, id))
  {
    DeleteGroupsKeepsInv(s, Vacated(s, id));
    LeaveGroupsKeepsInv(DeleteGroups(s, Vacated(s, id)), Leavable(s, id), id);
  }

  /** Ejection frees the expense exactly when no export of its group has finished or is under way. */
  lemma EjectFrees(s: State, id: nat)
    requires Inv(s)
    ensures Grouped(Eject(s, id), id) <==>
              exists g :: g in s.groups && id in s.groups[g].members && (s.groups[g].exported || ActiveLog(s, g))
  {
    var s' := Eject(s, id);
    forall g | g in s.groups && id in s.groups[g].members ensures g in Holders(s, {id}) || s.groups[g].exported {
      assert id in s.groups[g].members * {id};
    }
    forall g | g in s.groups && id in s.groups[g].members && (s.groups[g].exported || ActiveLog(s, g))
      ensures Grouped(s', id)
    {
      assert g in s'.groups && id in s'.groups[g].members;
    }
  }

  /** No other expense joins or leaves a group. */
  lemma EjectLeavesOthers(s: State, id: nat, other: nat)
    requires Inv(s) && other != id
    ensures Grouped(Eject(s, id), other) <==> Grouped(s, other)
  {
    var s' := Eject(s, id);
    if Grouped(s, other) {
      var g :| g in s.groups && other in s.groups[g].members;
      assert other in s'.groups[g].members;
    }
    if Grouped(s', other) {
      var g :| g in s'.groups && other in s'.groups[g].members;
      assert other in s.groups[g].members;
    }
  }

  predicate OfReport(s: State, g: nat, reportId: string) {
    g in s.groups && exists e ::
      e in s.groups[g].members && e in s.expenses && s.expenses[e].details.reportId == reportId
  }

  /** _delete_expense_groups_for_report. */
  function AddToReport(s: State, reportId: string): State {
    DeleteGroups(s, set g | g in s.groups && !s.groups[g].exported && OfReport(s, g, reportId) && !ActiveLog(s, g))
  }

  lemma AddToReportKeepsInv(s: State, reportId: string)
    requires Inv(s)
    ensures Inv(AddToReport(s, reportId)) && Frozen(s, AddToReport(s, reportId))
  {
    var gone := set g | g in s.groups && !s.groups[g].exported && OfReport(s, g, reportId) && !ActiveLog(s, g);
    DeleteGroupsKeepsInv(s, gone);
  }
}
