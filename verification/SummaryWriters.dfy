/** The writers of export summaries and of mapping errors, row by row as the program runs them. */
module SummaryWriters {
  import opened Common
  import opened Expenses
  import opened Tables
  import opened LedgerRuns

  /** The columns of a bulk update; columns outside the update keep their stored value. */
  datatype Columns = Columns(isSkipped: bool, summary: Summary)

  function Put(e: Expense, c: Columns): Expense {
    e.(isSkipped := c.isSkipped, summary := Some(c.summary))
  }

  datatype Update = Update(id: nat, columns: Columns)

  /** The updates written in turn; a missing row is passed over. */
  function PutEach(table: Table, updates: seq<Update>): Table {
    if updates == [] then table
    else
      var before, u := PutEach(table, updates[..|updates| - 1]), updates[|updates| - 1];
      if u.id in before then before[u.id := Put(before[u.id], u.columns)] else before
  }

  /** The updates of a summary writer: one for each listed row the platform has not lost. */
  function UpdatesFor(table: Table, ids: seq<nat>, w: Written): seq<Update> {
    if ids == [] then []
    else
      var before, id := UpdatesFor(table, ids[..|ids| - 1], w), ids[|ids| - 1];
      if id in table && !IsDeleted(table[id]) then before + [Update(id, Columns(false, Summary(StateOf(w), false)))]
      else before
  }

  lemma PutOneMore(table: Table, updates: seq<Update>, u: Update)
    ensures PutEach(table, updates + [u]) ==
              var before := PutEach(table, updates);
              if u.id in before then before[u.id := Put(before[u.id], u.columns)] else before
  {
    assert (updates + [u])[..|updates|] == updates;
  }

  lemma WriteOneMore(table: Table, done: set<nat>, id: nat, w: Written)
    ensures var before := WriteRows(table, done, w);
            WriteRows(table, done + {id}, w) ==
              if id in table && !IsDeleted(table[id])
              then before[id := Put(before[id], Columns(false, Summary(StateOf(w), false)))] else before
  {
  }

  /** Collecting the updates and writing them in bulk writes the listed rows. */
  lemma {:induction false} UpdatesWriteRows(table: Table, ids: seq<nat>, w: Written)
    ensures PutEach(table, UpdatesFor(table, ids, w)) == WriteRows(table, Elems(ids), w)
  {
    if ids == [] {
      assert WriteRows(table, Elems(ids), w) == table;
    } else {
      var front, last := ids[..|ids| - 1], ids[|ids| - 1];
      assert ids == front + [last] && Elems(ids) == Elems(front) + {last};
      UpdatesWriteRows(table, front, w);
      WriteOneMore(table, Elems(front), last, w);
      PutOneMore(table, UpdatesFor(table, front, w), Update(last, Columns(false, Summary(StateOf(w), false))));
    }
  }

  /** The listed rows synced in turn. */
  function SyncEach(table: Table, ids: seq<nat>): Table {
    if ids == [] then table
    else
      var before, id := SyncEach(table, ids[..|ids| - 1]), ids[|ids| - 1];
      if id in before then before[id := SyncedRow(before[id])] else before
  }

  lemma SyncOneMore(table: Table, done: set<nat>, id: nat)
    ensures var before := SyncRows(table, done);
            SyncRows(table, done + {id}) == if id in before then before[id := SyncedRow(before[id])] else before
  {
  }

  lemma {:induction false} SyncEachIsSyncRows(table: Table, ids: seq<nat>)
    ensures SyncEach(table, ids) == SyncRows(table, Elems(ids))
  {
    if ids == [] {
      assert SyncRows(table, Elems(ids)) == table;
    } else {
      var front, last := ids[..|ids| - 1], ids[|ids| - 1];
      assert ids == front + [last] && Elems(ids) == Elems(front) + {last};
      SyncEachIsSyncRows(table, front);
      SyncOneMore(table, Elems(front), last);
    }
  }

  /** What a summary writer leaves in a row. */
  predicate WrittenTo(before: Expense, after: Expense, listed: bool, w: Written) {
    if !listed || (before.summary.Some? && before.summary.value.state == DELETED) then after == before
    else
      && after.details == before.details && after.previousExportState == before.previousExportState && !after.isSkipped
      && after.summary.Some? && !after.summary.value.synced
      && match w
         case WInProgress => after.summary.value.state == IN_PROGRESS
         case WComplete => after.summary.value.state == COMPLETE
         case WError => after.summary.value.state == ERROR
  }

  lemma RowIsWritten(table: Table, ids: set<nat>, w: Written, id: nat)
    requires id in table
    ensures WrittenTo(table[id], WriteRows(table, ids, w)[id], id in ids, w)
  {
  }

  /** What posting a summary leaves in a row. */
  predicate SyncedTo(before: Expense, after: Expense, listed: bool) {
    if !listed || before.summary == None then after == before
    else
      && after.details == before.details && after.isSkipped == before.isSkipped
      && after.summary == Some(Summary(before.summary.value.state, true))
      && after.previousExportState == Some(before.summary.value.state)
  }

  lemma RowIsSynced(table: Table, ids: set<nat>, id: nat)
    requires id in table
    ensures SyncedTo(table[id], SyncRows(table, ids)[id], id in ids)
  {
  }

  class SummaryTables {
    var expenses: Table
    var errors: map<nat, ErrorRow>

    /** __bulk_update_expenses: is_skipped and the summary of each listed row, one row after the other. */
    method BulkUpdateExpenses(updates: seq<Update>)
      modifies `expenses
      ensures expenses == PutEach(old(expenses), updates)
    {
      for i := 0 to |updates|
        invariant expenses == PutEach(old(expenses), updates[..i])
      {
        assert updates[..i + 1][..i] == updates[..i];
        var u := updates[i];
        if u.id in expenses {
          expenses := expenses[u.id := expenses[u.id].(isSkipped := u.columns.isSkipped,
                                                       summary := Some(u.columns.summary))];
        }
      }
      assert updates[..|updates|] == updates;
    }

    /**
     update_expenses_in_progress, update_failed_expenses and update_complete_expenses: the listed rows that are not
     DELETED end in the state of the writer, not synced and not skipped; every other row is as before.
     */
    method UpdateExpenses(ids: seq<nat>, w: Written)
      modifies `expenses
      ensures expenses == WriteRows(old(expenses), Elems(ids), w)
      ensures expenses.Keys == old(expenses.Keys)
      ensures forall id :: id in expenses ==> WrittenTo(old(expenses)[id], expenses[id], id in ids, w)
    {
      ghost var before := expenses;
      WriteUpdates(ids, w);
      forall id | id in expenses ensures WrittenTo(before[id], expenses[id], id in ids, w) {
        RowIsWritten(before, Elems(ids), w, id);
      }
    }

    /** A list of updates, with the default is_skipped, and its bulk write. */
    method WriteUpdates(ids: seq<nat>, w: Written)
      modifies `expenses
      ensures expenses == WriteRows(old(expenses), Elems(ids), w)
    {
      var updates: seq<Update> := [];
      for i := 0 to |ids|
        modifies {}
        invariant updates == UpdatesFor(expenses, ids[..i], w)
      {
        assert ids[..i + 1][..i] == ids[..i];
        if ids[i] in expenses && !IsDeleted(expenses[ids[i]]) {
          updates := updates + [Update(ids[i], Columns(false, Summary(StateOf(w), false)))];
        }
      }
      assert ids[..|ids|] == ids;
      UpdatesWriteRows(expenses, ids, w);
      BulkUpdateExpenses(updates);
    }

    /**
     mark_accounting_export_summary_as_synced: a listed row with a summary keeps its state, is synced, and has that
     state as previous export state; every other row is as before.
     */
    method MarkAccountingExportSummaryAsSynced(ids: seq<nat>)
      modifies `expenses
      ensures expenses == SyncRows(old(expenses), Elems(ids))
      ensures expenses.Keys == old(expenses.Keys)
      ensures forall id :: id in expenses ==> SyncedTo(old(expenses)[id], expenses[id], id in ids)
    {
      ghost var before := expenses;
      SyncSummaries(ids);
      forall id | id in expenses ensures SyncedTo(before[id], expenses[id], id in ids) {
        RowIsSynced(before, Elems(ids), id);
      }
    }

    method SyncSummaries(ids: seq<nat>)
      modifies `expenses
      ensures expenses == SyncRows(old(expenses), Elems(ids))
    {
      for i := 0 to |ids|
        invariant expenses == SyncEach(old(expenses), ids[..i])
      {
        assert ids[..i + 1][..i] == ids[..i];
        if ids[i] in expenses && expenses[ids[i]].summary.Some? {
          var row := expenses[ids[i]];
          row := row.(summary := Some(row.summary.value.(synced := true)),
                      previousExportState := Some(row.summary.value.state));
          expenses := expenses[ids[i] := row];
        }
      }
      assert ids[..|ids|] == ids;
      SyncEachIsSyncRows(old(expenses), ids);
    }

    /**
     get_or_create_error_with_expense_group; row stands for the attribute whose mapping is missing. The group is
     in the row's list afterwards, with every group that was in it and no other; a list without duplicates stays
     one. No other row changes.
     */
    method GetOrCreateErrorWithExpenseGroup(ghost s: State, group: nat, row: nat) returns (created: bool)
      requires s.errors == errors && group in s.groups
      modifies `errors
      ensures created == (row !in old(errors))
      ensures errors.Keys == old(errors.Keys) + {row}
      ensures forall k :: k in errors && k != row ==> errors[k] == old(errors[k])
      ensures Elems(errors[row].mapping) == (if created then {} else Elems(old(errors[row].mapping))) + {group}
      ensures errors[row].group == if created then None else old(errors[row].group)
      ensures created || NoDup(old(errors[row].mapping)) ==> NoDup(errors[row].mapping)
      ensures s.(errors := errors) == RecordMissingMapping(s, group, row, errors[row].mapping)
    {
      created := row !in errors;
      if created {
        errors := errors[row := ErrorRow(None, [group])];
      } else if group !in errors[row].mapping {
        var ids := DistinctInSomeOrder(errors[row].mapping + [group]);
        assert Elems(errors[row].mapping + [group]) == Elems(errors[row].mapping) + {group};
        errors := errors[row := errors[row].(mapping := ids)];
      }
    }

    /**
     handle_category_changes_for_expense, for an expense of the group; listed is the error the query finds. Every
     error holds back the groups it held back before, but for this group: it is let go by the listed one and held back
     by that of the new category, which then exists unless the category is mapped. Lists without duplicates stay so.
     */
    method HandleCategoryChanges(ghost s: State, id: nat, group: nat, listed: Option<nat>, attribute: Option<nat>,
                                 mapped: bool)
      requires s.errors == errors && group in s.groups && id in s.groups[group].members
      requires listed.Some? ==> listed.value in errors && group in errors[listed.value].mapping
      modifies `errors
      ensures s.(errors := errors) == ChangeCategory(s, id, group, listed, attribute, mapped)
      ensures Inv(s) ==> Inv(s.(errors := errors))
      ensures Inv(s) ==> forall k: nat ::
                HeldBack(errors, k) ==
                  HeldBack(old(errors), k) - (if listed == Some(k) then {group} else {})
                  + (if attribute == Some(k) && k in errors then {group} else {})
      ensures attribute.Some? && !mapped ==> attribute.value in errors
    {
      WriteCategoryChanges(s, id, group, listed, attribute, mapped);
      if Inv(s) {
        ChangeCategoryKeepsInv(s, id, group, listed, attribute, mapped);
        forall k: nat
          ensures HeldBack(errors, k) ==
                    HeldBack(s.errors, k) - (if listed == Some(k) then {group} else {})
                    + (if attribute == Some(k) && k in errors then {group} else {})
        {
          CategoryChangeMovesTheGroup(s, id, group, listed, attribute, mapped, k);
        }
      }
    }

    method WriteCategoryChanges(ghost s: State, id: nat, group: nat, listed: Option<nat>, attribute: Option<nat>,
                                mapped: bool)
      requires s.errors == errors && group in s.groups && id in s.groups[group].members
      requires listed.Some? ==> listed.value in errors && group in errors[listed.value].mapping
      modifies `errors
      ensures s.(errors := errors) == ChangeCategory(s, id, group, listed, attribute, mapped)
      ensures attribute.Some? && !mapped ==> attribute.value in errors
    {
      if listed.Some? {
        var k := listed.value;
        var rest := RemoveFirst(errors[k].mapping, group);
        if rest != [] {
          errors := errors[k := errors[k].(mapping := rest)];
        } else {
          errors := errors - {k};
        }
      }
      if attribute.Some? {
        var row := attribute.value;
        if row in errors {
          if group !in errors[row].mapping {
            errors := errors[row := errors[row].(mapping := errors[row].mapping + [group])];
          }
        } else if !mapped {
          errors := errors[row := ErrorRow(None, [group])];
        }
      }
    }
  }
}
