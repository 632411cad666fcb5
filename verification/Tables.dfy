/** The ledger's tables, the invariant they keep, and the row operations every ledger step is made of. */
module Tables {
  import opened Common
  import opened TaskLogs
  import opened Expenses
  import opened GroupCreation

  datatype Group = Group(fundSource: FundSource, members: set<nat>, exported: bool)

  /** An error names the group that failed, or lists the groups a missing mapping holds back. */
  datatype ErrorRow = ErrorRow(group: Option<nat>, mapping: seq<nat>)

  datatype State = State(
    expenses: Table,
    groups: map<nat, Group>,
    logs: map<nat, LogStatus>,
    errors: map<nat, ErrorRow>,
    nextGroup: nat)

  // ---------------------------------------------------------------- the invariant

  ghost predicate Referential(s: State) {
    && (forall g :: g in s.groups ==> g < s.nextGroup && s.groups[g].members <= s.expenses.Keys)
    && s.logs.Keys <= s.groups.Keys
  }

  ghost predicate NoEmptyGroup(s: State) {
    forall g :: g in s.groups ==> s.groups[g].members != {}
  }

  ghost predicate OneGroupEach(s: State) {
    forall g, h :: g in s.groups && h in s.groups && g != h ==> s.groups[g].members !! s.groups[h].members
  }

  ghost predicate NoSkippedMember(s: State) {
    forall g, e :: g in s.groups && !s.groups[g].exported && e in s.groups[g].members && e in s.expenses ==>
      !s.expenses[e].isSkipped
  }

  ghost predicate CompleteIsExported(s: State) {
    forall g :: g in s.logs && g in s.groups && s.logs[g] == Complete ==> s.groups[g].exported
  }

  ghost predicate ErrorsAreKeyed(s: State) {
    && (forall k :: k in s.errors ==> NoDup(s.errors[k].mapping))
    && (forall k, l :: k in s.errors && l in s.errors && k != l && s.errors[k].group.Some? ==>
          s.errors[k].group != s.errors[l].group)
    && (forall k :: k in s.errors && s.errors[k].group.Some? ==> s.errors[k].group.value in s.groups)
  }

  /** A synced summary was posted in its current state, or the platform lost the expense. */
  predicate SummaryOk(e: Expense) {
    e.summary.Some? && e.summary.value.synced ==>
      e.summary.value.state == DELETED || e.previousExportState == Some(e.summary.value.state)
  }

  ghost predicate SummariesOk(s: State) {
    forall e :: e in s.expenses ==> SummaryOk(s.expenses[e])
  }

  ghost predicate Inv(s: State) {
    && Referential(s) && NoEmptyGroup(s) && OneGroupEach(s) && NoSkippedMember(s)
    && CompleteIsExported(s) && ErrorsAreKeyed(s) && SummariesOk(s)
  }

  /** Every exported group is still there, with the same members. */
  ghost predicate Frozen(s: State, s': State) {
    forall g :: g in s.groups && s.groups[g].exported ==> g in s'.groups && s'.groups[g] == s.groups[g]
  }

  ghost predicate Ungrouped(s: State, ids: set<nat>) {
    forall g :: g in s.groups ==> s.groups[g].members !! ids
  }

  predicate Grouped(s: State, id: nat) {
    exists g :: g in s.groups && id in s.groups[g].members
  }

  // ---------------------------------------------------------------- row operations

  /** One row of update_or_create: the imported columns are overwritten, the others kept. */
  function Upsert(table: Table, id: nat, d: Details): Table {
    table[id := if id in table then table[id].(details := d) else Expense(d, false, None, None)]
  }

  type Rule = Details -> bool

  predicate Everything(d: Details) { true }

  predicate CanSkip(e: Expense, rule: Rule) {
    !e.isSkipped && rule(e.details) && !IsDeleted(e)
  }

  function SkippedRow(e: Expense): Expense {
    e.(isSkipped := true, summary := Some(Summary(SKIPPED, false)))
  }

  /** mark_expenses_as_skipped. */
  function MarkSkipped(table: Table, ids: set<nat>, rule: Rule): (r: Table)
    ensures r.Keys == table.Keys
  {
    map id | id in table :: if id in ids && CanSkip(table[id], rule) then SkippedRow(table[id]) else table[id]
  }

  function Skip(s: State, ids: set<nat>, rule: Rule): State {
    s.(expenses := MarkSkipped(s.expenses, ids, rule))
  }

  function GroupRow(groups: seq<NewGroup>, base: nat, g: nat): Group
    requires base <= g < base + |groups|
  {
    Group(groups[g - base].fundSource, Elems(groups[g - base].ids), false)
  }

  /** The groups are stored under the next free ids, in order. */
  function AddGroups(s: State, groups: seq<NewGroup>): State {
    var added := map g: nat | s.nextGroup <= g < s.nextGroup + |groups| :: GroupRow(groups, s.nextGroup, g);
    s.(groups := s.groups + added, nextGroup := s.nextGroup + |groups|)
  }

  /** Whether deleting these groups deletes the error: it is theirs, or it loses its last mapping entry. */
  predicate Emptied(e: ErrorRow, gone: set<nat>) {
    || (e.group.Some? && e.group.value in gone)
    || (e.mapping != [] && forall g :: g in e.mapping ==> g in gone)
  }

  function ForgetGroups(errors: map<nat, ErrorRow>, gone: set<nat>): map<nat, ErrorRow> {
    map k | k in errors && !Emptied(errors[k], gone) :: errors[k].(mapping := Without(errors[k].mapping, gone))
  }

  /** delete_expense_group_and_related_data, for a set of groups. */
  function DeleteGroups(s: State, gone: set<nat>): State {
    s.(groups := s.groups - gone, logs := s.logs - gone, errors := ForgetGroups(s.errors, gone))
  }

  function DeleteExpenses(s: State, ids: set<nat>): State {
    s.(expenses := s.expenses - ids)
  }

  /** An unexported group without these members; an exported one as it was. */
  function Leave(g: Group, ids: set<nat>): Group {
    if g.exported then g else g.(members := g.members - ids)
  }

  // ---------------------------------------------------------------- what the row operations keep

  lemma UpsertKeepsInv(s: State, id: nat, d: Details)
    requires Inv(s)
    ensures Inv(s.(expenses := Upsert(s.expenses, id, d)))
  {
    var s' := s.(expenses := Upsert(s.expenses, id, d));
    forall g, e | g in s'.groups && !s'.groups[g].exported && e in s'.groups[g].members && e in s'.expenses
      ensures !s'.expenses[e].isSkipped
    {
      assert s.groups[g].members <= s.expenses.Keys && e in s.expenses;
    }
  }

  lemma SkipKeepsInv(s: State, ids: set<nat>, rule: Rule)
    requires Inv(s)
    requires forall g :: g in s.groups && !s.groups[g].exported ==> s.groups[g].members !! ids
    ensures Inv(Skip(s, ids, rule))
  {
  }

  ghost predicate Addable(s: State, groups: seq<NewGroup>) {
    && (forall i :: 0 <= i < |groups| ==> groups[i].ids != [] && Elems(groups[i].ids) <= s.expenses.Keys
                                          && Ungrouped(s, Elems(groups[i].ids)))
    && (forall i, j :: 0 <= i < j < |groups| ==> Elems(groups[i].ids) !! Elems(groups[j].ids))
    && (forall i, id :: 0 <= i < |groups| && id in groups[i].ids && id in s.expenses ==> !s.expenses[id].isSkipped)
  }

  lemma AddGroupsAddsNoEmptyGroup(s: State, groups: seq<NewGroup>)
    requires Inv(s) && Addable(s, groups)
    ensures NoEmptyGroup(AddGroups(s, groups))
  {
    var s' := AddGroups(s, groups);
    forall g | g in s'.groups ensures s'.groups[g].members != {} {
      if g >= s.nextGroup {
        var i := g - s.nextGroup;
        assert groups[i].ids[0] in s'.groups[g].members;
      }
    }
  }

  lemma AddGroupsAddsNoSkippedMember(s: State, groups: seq<NewGroup>)
    requires Inv(s) && Addable(s, groups)
    ensures NoSkippedMember(AddGroups(s, groups))
  {
    var s' := AddGroups(s, groups);
    forall g, e | g in s'.groups && !s'.groups[g].exported && e in s'.groups[g].members && e in s'.expenses
      ensures !s'.expenses[e].isSkipped
    {
      if g >= s.nextGroup {
        assert e in groups[g - s.nextGroup].ids;
      }
    }
  }

  lemma AddGroupsKeepsOneGroupEach(s: State, groups: seq<NewGroup>)
    requires Inv(s) && Addable(s, groups)
    ensures OneGroupEach(AddGroups(s, groups))
  {
    var s' := AddGroups(s, groups);
    forall g, h | g in s'.groups && h in s'.groups && g < h ensures s'.groups[g].members !! s'.groups[h].members {
      if h >= s.nextGroup {
        var j := h - s.nextGroup;
        assert s'.groups[h].members == Elems(groups[j].ids);
        if g < s.nextGroup {
          assert s'.groups[g] == s.groups[g] && Ungrouped(s, Elems(groups[j].ids));
        } else {
          assert s'.groups[g].members == Elems(groups[g - s.nextGroup].ids);
        }
      } else {
        assert s'.groups[g] == s.groups[g] && s'.groups[h] == s.groups[h];
      }
    }
  }

  lemma AddGroupsKeepsInv(s: State, groups: seq<NewGroup>)
    requires Inv(s) && Addable(s, groups)
    ensures Inv(AddGroups(s, groups)) && Frozen(s, AddGroups(s, groups))
  {
    AddGroupsAddsNoEmptyGroup(s, groups);
    AddGroupsKeepsOneGroupEach(s, groups);
    AddGroupsAddsNoSkippedMember(s, groups);
  }

  lemma DeleteGroupsKeepsInv(s: State, gone: set<nat>)
    requires Inv(s)
    ensures Inv(DeleteGroups(s, gone))
    ensures (forall g :: g in gone && g in s.groups ==> !s.groups[g].exported) ==> Frozen(s, DeleteGroups(s, gone))
  {
    forall k | k in s.errors ensures NoDup(Without(s.errors[k].mapping, gone)) {
      WithoutKeepsNoDup(s.errors[k].mapping, gone);
    }
  }

  lemma DeletedMembersAreUngrouped(s: State, gone: set<nat>, ids: set<nat>)
    requires Inv(s)
    requires forall id :: id in ids ==> exists g :: g in gone && g in s.groups && id in s.groups[g].members
    ensures Ungrouped(DeleteGroups(s, gone), ids)
  {
  }

  lemma DeleteExpensesKeepsInv(s: State, ids: set<nat>)
    requires Inv(s) && Ungrouped(s, ids)
    ensures Inv(DeleteExpenses(s, ids))
  {
  }

  /** Groups may lose members and disappear, as long as none is left empty and nothing names a missing one. */
  lemma ShrinkKeepsInv(s: State, groups: map<nat, Group>)
    requires Inv(s) && s.logs.Keys <= groups.Keys <= s.groups.Keys
    requires forall g :: g in groups ==>
               groups[g].members != {} && groups[g].members <= s.groups[g].members
               && groups[g].exported == s.groups[g].exported
    requires forall k :: k in s.errors && s.errors[k].group.Some? ==> s.errors[k].group.value in groups
    ensures Inv(s.(groups := groups))
  {
    var s' := s.(groups := groups);
    forall g, e | g in s'.groups && !s'.groups[g].exported && e in s'.groups[g].members && e in s'.expenses
      ensures !s'.expenses[e].isSkipped
    {
      assert e in s.groups[g].members;
    }
  }
}
