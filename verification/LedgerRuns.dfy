/** Runs of the ledger: every order of imports, reruns, ejections, source changes, exports and summary writes. */
module LedgerRuns {
  import opened Common
  import opened TaskLogs
  import opened Expenses
  import opened GroupCreation
  import opened Tables
  import opened Ledger
  import opened Regrouping
  import opened FundSourceChange

  // ---------------------------------------------------------------- export and error rows

  /**
   A worker commits an export: the log completes and the group is exported in one transaction. The worker saves its
   own copy of the log, whatever a sweep made of it; without the group the transaction fails.
   */
  function CommitExport(s: State, g: nat): State {
    if g in s.groups then
      s.(groups := s.groups[g := s.groups[g].(exported := true)], logs := s.logs[g := Complete])
    else s
  }

  /** Any other write of a group's log. */
  function SetLog(s: State, g: nat, status: LogStatus): State {
    if g in s.groups && status != Complete then s.(logs := s.logs[g := status]) else s
  }

  /** update_or_create of the error of a failed group, under a fresh row id. */
  function RecordFailure(s: State, g: nat, row: nat): State {
    if g !in s.groups || row in s.errors || exists k :: k in s.errors && s.errors[k].group == Some(g) then s
    else s.(errors := s.errors[row := ErrorRow(Some(g), [])])
  }

  /**
   get_or_create_error_with_expense_group: row stands for the attribute whose mapping is missing, order for the
   order in which a set of ids is listed when g joins it.
   */
  function RecordMissingMapping(s: State, g: nat, row: nat, order: seq<nat>): State {
    if g !in s.groups then s
    else if row !in s.errors then s.(errors := s.errors[row := ErrorRow(None, [g])])
    else if g in s.errors[row].mapping || !NoDup(order) || Elems(order) != Elems(s.errors[row].mapping) + {g} then s
    else s.(errors := s.errors[row := s.errors[row].(mapping := order)])
  }

  /** The group leaves the list of a mapping error, which is deleted when that empties it. */
  function Unlist(errors: map<nat, ErrorRow>, k: nat, g: nat): map<nat, ErrorRow> {
    if k in errors && g in errors[k].mapping then
      var rest := RemoveFirst(errors[k].mapping, g);
      if rest == [] then errors - {k} else errors[k := errors[k].(mapping := rest)]
    else errors
  }

  /** The group joins the list of the error of an attribute; a new error is recorded unless the attribute is mapped. */
  function Enlist(errors: map<nat, ErrorRow>, row: nat, g: nat, mapped: bool): map<nat, ErrorRow> {
    if row !in errors then if mapped then errors else errors[row := ErrorRow(None, [g])]
    else if g in errors[row].mapping then errors
    else errors[row := errors[row].(mapping := errors[row].mapping + [g])]
  }

  /**
   handle_category_changes_for_expense for an expense of group g: listed is the category error the query finds for
   the group, attribute the row of the new category, if any, and mapped whether that has a mapping. Without a group
   the handler does nothing or raises.
   */
  function ChangeCategory(s: State, id: nat, g: nat, listed: Option<nat>, attribute: Option<nat>, mapped: bool): State {
    if g !in s.groups || id !in s.groups[g].members then s
    else
      var errors := if listed.Some? then Unlist(s.errors, listed.value, g) else s.errors;
      s.(errors := if attribute.Some? then Enlist(errors, attribute.value, g, mapped) else errors)
  }

  /** The unexported groups of these fund sources. */
  function UnexportedOf(s: State, sources: set<FundSource>): set<nat> {
    set g | g in s.groups && !s.groups[g].exported && s.groups[g].fundSource in sources
  }

  /**
   clear_workspace_errors_on_export_type_change: the errors and the failed logs of the groups whose export type
   changed, and every queued log.
   */
  function ClearOnTypeChange(s: State, sources: set<FundSource>): State {
    var hit := UnexportedOf(s, sources);
    if hit == {} then s
    else
      s.(errors := ForgetGroups(s.errors, hit),
         logs := map g | g in s.logs && s.logs[g] != Enqueued
                         && (g in hit ==> s.logs[g] != Failed && s.logs[g] != Fatal) :: s.logs[g])
  }

  // ---------------------------------------------------------------- export summaries

  datatype Written = WInProgress | WComplete | WError

  function StateOf(w: Written): SummaryState {
    match w case WInProgress => IN_PROGRESS case WComplete => COMPLETE case WError => ERROR
  }

  function WrittenRow(e: Expense, w: Written): Expense {
    if IsDeleted(e) then e else e.(isSkipped := false, summary := Some(Summary(StateOf(w), false)))
  }

  /** The bulk summary writers: is_skipped is written too, with its default. */
  function WriteRows(table: Table, ids: set<nat>, w: Written): Table {
    map id | id in table :: if id in ids then WrittenRow(table[id], w) else table[id]
  }

  function WriteSummaries(s: State, ids: set<nat>, w: Written): State {
    s.(expenses := WriteRows(s.expenses, ids, w))
  }

  /** mark_accounting_export_summary_as_synced. */
  function SyncedRow(e: Expense): Expense {
    match e.summary
    case None => e
    case Some(m) => e.(summary := Some(Summary(m.state, true)), previousExportState := Some(m.state))
  }

  function SyncRows(table: Table, ids: set<nat>): Table {
    map id | id in table :: if id in ids then SyncedRow(table[id]) else table[id]
  }

  function MarkSynced(s: State, ids: set<nat>): State {
    s.(expenses := SyncRows(s.expenses, ids))
  }

  /** The platform no longer knows these expenses. */
  function MarkLost(s: State, ids: set<nat>): State {
    s.(expenses := map id | id in s.expenses ::
         if id in ids then s.expenses[id].(summary := Some(Summary(DELETED, true))) else s.expenses[id])
  }

  /** The default is_skipped the bulk write stores changes nothing for members of unexported groups. */
  lemma SummaryWriteKeepsSkipFlags(s: State, ids: set<nat>, w: Written)
    requires Inv(s)
    requires forall id :: id in ids ==> exists g :: g in s.groups && !s.groups[g].exported && id in s.groups[g].members
    ensures forall id :: id in s.expenses ==>
              && id in WriteSummaries(s, ids, w).expenses
              && WriteSummaries(s, ids, w).expenses[id].isSkipped == s.expenses[id].isSkipped
  {
    forall id | id in ids && id in s.expenses ensures !s.expenses[id].isSkipped {
      var g :| g in s.groups && !s.groups[g].exported && id in s.groups[g].members;
    }
  }

  // ---------------------------------------------------------------- runs

  datatype Op =
    | OpImport(payload: seq<(nat, Details)>, st: Settings, dropRefunds: bool, filter: Option<Rule>)
    | OpReRun(rule: Rule)
    | OpFundChange(payload: seq<(nat, Details)>, change: Change, st: Settings, filter: Option<Rule>, order: seq<nat>)
    | OpEject(id: nat)
    | OpAddToReport(reportId: string)
    | OpSetLog(g: nat, status: LogStatus)
    | OpCommit(g: nat)
    | OpFailure(g: nat, row: nat)
    | OpMissingMapping(g: nat, row: nat, order: seq<nat>)
    | OpCategory(id: nat, g: nat, listed: Option<nat>, attribute: Option<nat>, mapped: bool)
    | OpClear(sources: set<FundSource>)
    | OpWrite(ids: set<nat>, written: Written)
    | OpSynced(ids: set<nat>)
    | OpLost(ids: set<nat>)

  /** The rows are rewritten first; then, in one transaction, the affected groups are rebuilt. */
  ghost function ChangeFundSource(s: State, payload: seq<(nat, Details)>, c: Change, st: Settings, filter: Option<Rule>,
                                  order: seq<nat>): State {
    var s1 := CreateObjects(s, payload).state;
    if !ListsAffected(s1, st, c, order) then s1
    else match Handle(s1, c, st, filter, order)
      case Failure => s1
      case Success(s') => s'
  }

  ghost function Apply(s: State, op: Op): State {
    match op
    case OpImport(payload, st, dropRefunds, filter) => Import(s, payload, st, dropRefunds, filter)
    case OpReRun(rule) => ReRunSkipRule(s, rule)
    case OpFundChange(payload, c, st, filter, order) => ChangeFundSource(s, payload, c, st, filter, order)
    case OpEject(id) => Eject(s, id)
    case OpAddToReport(reportId) => AddToReport(s, reportId)
    case OpSetLog(g, status) => SetLog(s, g, status)
    case OpCommit(g) => CommitExport(s, g)
    case OpFailure(g, row) => RecordFailure(s, g, row)
    case OpMissingMapping(g, row, order) => RecordMissingMapping(s, g, row, order)
    case OpCategory(id, g, listed, attribute, mapped) => ChangeCategory(s, id, g, listed, attribute, mapped)
    case OpClear(sources) => ClearOnTypeChange(s, sources)
    case OpWrite(ids, w) => WriteSummaries(s, ids, w)
    case OpSynced(ids) => MarkSynced(s, ids)
    case OpLost(ids) => MarkLost(s, ids)
  }

  ghost function Run(s: State, ops: seq<Op>): State {
    if ops == [] then s else Apply(Run(s, ops[..|ops| - 1]), ops[|ops| - 1])
  }

  lemma ChangeFundSourceKeepsInv(s: State, payload: seq<(nat, Details)>, c: Change, st: Settings, filter: Option<Rule>,
                                 order: seq<nat>)
    requires Inv(s)
    ensures Inv(ChangeFundSource(s, payload, c, st, filter, order))
            && Frozen(s, ChangeFundSource(s, payload, c, st, filter, order))
  {
    CreateObjectsReady(s, payload);
    var s1 := CreateObjects(s, payload).state;
    if ListsAffected(s1, st, c, order) && Handle(s1, c, st, filter, order).Success? {
      HandleKeepsInv(s1, c, st, filter, order);
    }
  }

  /** Groups that become exported and otherwise stay as they are. */
  lemma ExportingKeepsGroups(s: State, groups: map<nat, Group>)
    requires Inv(s) && groups.Keys == s.groups.Keys
    requires forall g :: g in groups ==> groups[g].members == s.groups[g].members
    requires forall g :: g in groups && s.groups[g].exported ==> groups[g] == s.groups[g]
    ensures var s' := s.(groups := groups); Inv(s') && Frozen(s, s')
  {
    var s' := s.(groups := groups);
    assert forall g :: g in groups && !groups[g].exported ==> !s.groups[g].exported;
  }

  lemma CommitKeepsInv(s: State, g: nat)
    requires Inv(s)
    ensures Inv(CommitExport(s, g)) && Frozen(s, CommitExport(s, g))
  {
    if g in s.groups {
      var s' := s.(groups := s.groups[g := s.groups[g].(exported := true)]);
      ExportingKeepsGroups(s, s'.groups);
      LogsKeepInv(s', g, Complete);
    }
  }

  lemma LogsKeepInv(s: State, g: nat, status: LogStatus)
    requires Inv(s) && g in s.groups && (status == Complete ==> s.groups[g].exported)
    ensures var s' := s.(logs := s.logs[g := status]); Inv(s') && Frozen(s, s')
  {
  }

  lemma SetLogKeepsInv(s: State, g: nat, status: LogStatus)
    requires Inv(s)
    ensures Inv(SetLog(s, g, status)) && Frozen(s, SetLog(s, g, status))
  {
    if g in s.groups && status != Complete {
      LogsKeepInv(s, g, status);
    }
  }

  lemma RecordFailureKeepsInv(s: State, g: nat, row: nat)
    requires Inv(s)
    ensures Inv(RecordFailure(s, g, row)) && Frozen(s, RecordFailure(s, g, row))
  {
  }

  lemma ErrorsKeepInv(s: State, errors: map<nat, ErrorRow>)
    requires Inv(s) && ErrorsAreKeyed(s.(errors := errors))
    ensures Inv(s.(errors := errors)) && Frozen(s, s.(errors := errors))
  {
  }

  lemma MappingRowIsKeyed(s: State, row: nat, e: ErrorRow)
    requires ErrorsAreKeyed(s) && NoDup(e.mapping)
    requires if row in s.errors then e.group == s.errors[row].group else e.group == None
    ensures ErrorsAreKeyed(s.(errors := s.errors[row := e]))
  {
  }

  lemma RecordMissingMappingKeepsInv(s: State, g: nat, row: nat, order: seq<nat>)
    requires Inv(s)
    ensures Inv(RecordMissingMapping(s, g, row, order)) && Frozen(s, RecordMissingMapping(s, g, row, order))
  {
    var s' := RecordMissingMapping(s, g, row, order);
    if row in s'.errors && s' != s {
      MappingRowIsKeyed(s, row, s'.errors[row]);
      ErrorsKeepInv(s, s'.errors);
    }
  }

  lemma UnlistIsKeyed(s: State, k: nat, g: nat)
    requires ErrorsAreKeyed(s)
    ensures ErrorsAreKeyed(s.(errors := Unlist(s.errors, k, g)))
  {
    if k in s.errors && g in s.errors[k].mapping {
      RemoveFirstOfDistinct(s.errors[k].mapping, g);
      WithoutKeepsNoDup(s.errors[k].mapping, {g});
      if RemoveFirst(s.errors[k].mapping, g) != [] {
        MappingRowIsKeyed(s, k, s.errors[k].(mapping := RemoveFirst(s.errors[k].mapping, g)));
      }
    }
  }

  lemma EnlistIsKeyed(s: State, row: nat, g: nat, mapped: bool)
    requires ErrorsAreKeyed(s)
    ensures ErrorsAreKeyed(s.(errors := Enlist(s.errors, row, g, mapped)))
  {
    var errors := Enlist(s.errors, row, g, mapped);
    if errors != s.errors {
      if row in s.errors {
        DistinctConcat(s.errors[row].mapping, [g]);
      }
      MappingRowIsKeyed(s, row, errors[row]);
    }
  }

  lemma ChangeCategoryKeepsInv(s: State, id: nat, g: nat, listed: Option<nat>, attribute: Option<nat>, mapped: bool)
    requires Inv(s)
    ensures Inv(ChangeCategory(s, id, g, listed, attribute, mapped))
            && Frozen(s, ChangeCategory(s, id, g, listed, attribute, mapped))
  {
    var s' := ChangeCategory(s, id, g, listed, attribute, mapped);
    if s' != s {
      var errors := if listed.Some? then Unlist(s.errors, listed.value, g) else s.errors;
      if listed.Some? {
        UnlistIsKeyed(s, listed.value, g);
      }
      if attribute.Some? {
        EnlistIsKeyed(s.(errors := errors), attribute.value, g, mapped);
      }
      ErrorsKeepInv(s, s'.errors);
    }
  }

  /** Which groups a mapping error holds back; none if there is no such row. */
  function HeldBack(errors: map<nat, ErrorRow>, k: nat): set<nat> {
    if k in errors then Elems(errors[k].mapping) else {}
  }

  lemma UnlistHeld(errors: map<nat, ErrorRow>, j: nat, g: nat, k: nat)
    requires j in errors ==> NoDup(errors[j].mapping)
    ensures HeldBack(Unlist(errors, j, g), k) == HeldBack(errors, k) - if k == j then {g} else {}
  {
    if k == j && k in errors && g in errors[k].mapping {
      RemoveFirstOfDistinct(errors[k].mapping, g);
      assert Elems(Without(errors[k].mapping, {g})) == Elems(errors[k].mapping) - {g};
    }
  }

  lemma EnlistHeld(errors: map<nat, ErrorRow>, row: nat, g: nat, mapped: bool, k: nat)
    ensures var after := Enlist(errors, row, g, mapped);
            && HeldBack(after, k) == HeldBack(errors, k) + (if k == row && k in after then {g} else {})
            && (row in after <==> row in errors || !mapped)
  {
    if k == row && k in errors && g !in errors[k].mapping {
      assert Elems(errors[k].mapping + [g]) == Elems(errors[k].mapping) + {g};
    }
  }

  /**
   A category change moves exactly this group: out of the error it was listed in and into that of the new category,
   unless that category has a mapping and no error; nothing else is held back or let go.
   */
  lemma CategoryChangeMovesTheGroup(s: State, id: nat, g: nat, listed: Option<nat>, attribute: Option<nat>,
                                    mapped: bool, k: nat)
    requires Inv(s) && g in s.groups && id in s.groups[g].members
    ensures var after := ChangeCategory(s, id, g, listed, attribute, mapped).errors;
            && HeldBack(after, k) ==
                 HeldBack(s.errors, k) - (if listed == Some(k) then {g} else {})
                 + (if attribute == Some(k) && k in after then {g} else {})
            && (attribute == Some(k) && !mapped ==> k in after)
  {
    var errors := if listed.Some? then Unlist(s.errors, listed.value, g) else s.errors;
    if listed.Some? {
      UnlistHeld(s.errors, listed.value, g, k);
    }
    if attribute.Some? {
      EnlistHeld(errors, attribute.value, g, mapped, k);
    }
  }

  lemma ClearKeepsInv(s: State, sources: set<FundSource>)
    requires Inv(s)
    ensures Inv(ClearOnTypeChange(s, sources)) && Frozen(s, ClearOnTypeChange(s, sources))
  {
    var s', hit := ClearOnTypeChange(s, sources), UnexportedOf(s, sources);
    forall k | k in s.errors ensures NoDup(Without(s.errors[k].mapping, hit)) {
      WithoutKeepsNoDup(s.errors[k].mapping, hit);
    }
    ErrorsKeepInv(s, s'.errors);
  }

  /** Rewriting summaries keeps the invariant as long as nothing gets skipped. */
  lemma RowsKeepInv(s: State, rows: Table)
    requires Inv(s) && rows.Keys == s.expenses.Keys
    requires forall id :: id in rows ==> SummaryOk(rows[id]) && (rows[id].isSkipped ==> s.expenses[id].isSkipped)
    ensures Inv(s.(expenses := rows)) && Frozen(s, s.(expenses := rows))
  {
  }

  /** The steps that form, change or delete groups. */
  predicate FormsGroups(op: Op) {
    op.OpImport? || op.OpReRun? || op.OpFundChange? || op.OpEject? || op.OpAddToReport?
  }

  lemma FormingKeepsInv(s: State, op: Op)
    requires Inv(s) && FormsGroups(op)
    ensures Inv(Apply(s, op)) && Frozen(s, Apply(s, op))
  {
    match op
    case OpImport(payload, st, dropRefunds, filter) => ImportKeepsInv(s, payload, st, dropRefunds, filter);
    case OpReRun(rule) => ReRunKeepsInv(s, rule);
    case OpFundChange(payload, c, st, filter, order) => ChangeFundSourceKeepsInv(s, payload, c, st, filter, order);
    case OpEject(id) => EjectKeepsInv(s, id);
    case OpAddToReport(reportId) => AddToReportKeepsInv(s, reportId);
  }

  lemma BookkeepingKeepsInv(s: State, op: Op)
    requires Inv(s) && !FormsGroups(op)
    ensures Inv(Apply(s, op)) && Frozen(s, Apply(s, op))
  {
    match op
    case OpSetLog(g, status) => SetLogKeepsInv(s, g, status);
    case OpCommit(g) => CommitKeepsInv(s, g);
    case OpFailure(g, row) => RecordFailureKeepsInv(s, g, row);
    case OpMissingMapping(g, row, order) => RecordMissingMappingKeepsInv(s, g, row, order);
    case OpCategory(id, g, listed, attribute, mapped) =>
      ChangeCategoryKeepsInv(s, id, g, listed, attribute, mapped);
    case OpClear(sources) => ClearKeepsInv(s, sources);
    case OpWrite(ids, w) => RowsKeepInv(s, WriteSummaries(s, ids, w).expenses);
    case OpSynced(ids) => RowsKeepInv(s, MarkSynced(s, ids).expenses);
    case OpLost(ids) => RowsKeepInv(s, MarkLost(s, ids).expenses);
  }

  lemma ApplyKeepsInv(s: State, op: Op)
    requires Inv(s)
    ensures Inv(Apply(s, op)) && Frozen(s, Apply(s, op))
  {
    if FormsGroups(op) {
      FormingKeepsInv(s, op);
    } else {
      BookkeepingKeepsInv(s, op);
    }
  }

  const EMPTY := State(map[], map[], map[], map[], 0)

  /**
   In every reachable state each expense is in at most one group, no group is empty, no member of an unexported
   group is skipped, a completed log has an exported group, and a synced summary was posted in its own state.
   */
  lemma {:induction false} RunKeepsInv(s: State, ops: seq<Op>)
    requires Inv(s)
    ensures Inv(Run(s, ops))
  {
    if ops == [] {
    } else {
      RunKeepsInv(s, ops[..|ops| - 1]);
      ApplyKeepsInv(Run(s, ops[..|ops| - 1]), ops[|ops| - 1]);
    }
  }

  lemma ReachableStatesKeepInv(ops: seq<Op>)
    ensures Inv(Run(EMPTY, ops))
  {
    RunKeepsInv(EMPTY, ops);
  }

  /** Whatever happens later, an exported group is never deleted and never changes members. */
  lemma {:induction false} RunFreezesExports(s: State, ops: seq<Op>)
    requires Inv(s)
    ensures Frozen(s, Run(s, ops))
  {
    if ops == [] {
    } else {
      RunKeepsInv(s, ops[..|ops| - 1]);
      RunFreezesExports(s, ops[..|ops| - 1]);
      ApplyKeepsInv(Run(s, ops[..|ops| - 1]), ops[|ops| - 1]);
    }
  }

  // ---------------------------------------------------------------- DELETED is absorbing

  /** Rows the platform has lost stay marked so, or leave the table. */
  ghost predicate StaysDeleted(t: Table, t': Table) {
    forall id :: id in t && IsDeleted(t[id]) && id in t' ==> IsDeleted(t'[id])
  }

  lemma {:induction false} CreateObjectsKeepsSummaries(s: State, payload: seq<(nat, Details)>)
    ensures forall id :: id in s.expenses ==>
              id in CreateObjects(s, payload).state.expenses
              && CreateObjects(s, payload).state.expenses[id].summary == s.expenses[id].summary
  {
    if payload == [] {
    } else {
      CreateObjectsKeepsSummaries(s, payload[..|payload| - 1]);
    }
  }

  lemma GroupAndSkipStaysDeleted(b: Batch, st: Settings, rule: Option<Rule>)
    requires GroupAndSkip(b, st, rule).Success?
    ensures StaysDeleted(b.state.expenses, GroupAndSkip(b, st, rule).value.expenses)
    ensures GroupAndSkip(b, st, rule).value.expenses.Keys == b.state.expenses.Keys
  {
  }

  lemma ImportStaysDeleted(s: State, payload: seq<(nat, Details)>, st: Settings, dropRefunds: bool, rule: Option<Rule>)
    ensures StaysDeleted(s.expenses, Import(s, payload, st, dropRefunds, rule).expenses)
    ensures s.expenses.Keys <= Import(s, payload, st, dropRefunds, rule).expenses.Keys
  {
    CreateObjectsKeepsSummaries(s, payload);
    var b := Incoming(s, payload, st, dropRefunds);
    assert StaysDeleted(s.expenses, b.state.expenses) && s.expenses.Keys <= b.state.expenses.Keys;
    if GroupAndSkip(b, st, rule).Success? {
      GroupAndSkipStaysDeleted(b, st, rule);
    }
  }

  lemma ChangeStaysDeleted(s: State, payload: seq<(nat, Details)>, c: Change, st: Settings, filter: Option<Rule>,
                           order: seq<nat>)
    ensures StaysDeleted(s.expenses, ChangeFundSource(s, payload, c, st, filter, order).expenses)
  {
    CreateObjectsKeepsSummaries(s, payload);
    var s1 := CreateObjects(s, payload).state;
    if ListsAffected(s1, st, c, order) && Handle(s1, c, st, filter, order).Success?
       && Matched(s1, st, c) != {} && BlockedGroups(s1, st, c) == {} {
      var gone := Matched(s1, st, c) - BlockedGroups(s1, st, c);
      GroupAndSkipStaysDeleted(Configured(Batch(DeleteGroups(s1, gone), order), st), st, filter);
    }
  }

  /** No step takes a summary out of the state DELETED. */
  lemma DeletedIsAbsorbing(s: State, op: Op)
    ensures StaysDeleted(s.expenses, Apply(s, op).expenses)
  {
    match op
    case OpImport(payload, st, dropRefunds, filter) => ImportStaysDeleted(s, payload, st, dropRefunds, filter);
    case OpFundChange(payload, c, st, filter, order) => ChangeStaysDeleted(s, payload, c, st, filter, order);
    case _ =>
  }

  /** Over a run, an expense the platform lost stays lost for as long as its row exists. */
  lemma {:induction false} RunStaysDeleted(s: State, ops: seq<Op>, id: nat)
    requires id in s.expenses && IsDeleted(s.expenses[id])
    requires forall k :: 0 <= k <= |ops| ==> id in Run(s, ops[..k]).expenses
    ensures id in Run(s, ops).expenses && IsDeleted(Run(s, ops).expenses[id])
  {
    assert ops[..|ops|] == ops;
    if ops == [] {
    } else {
      var front := ops[..|ops| - 1];
      forall k | 0 <= k <= |front| ensures id in Run(s, front[..k]).expenses {
        assert front[..k] == ops[..k];
      }
      RunStaysDeleted(s, front, id);
      DeletedIsAbsorbing(Run(s, front), ops[|ops| - 1]);
    }
  }
}
