/** What an import does with each row, over its columns: stored, set aside by which setting, filtered, or grouped. */
module ImportOutcome {
  import opened Common
  import opened Expenses
  import Grouping
  import opened GroupCreation
  import GroupLaws
  import opened Tables
  import opened Ledger

  // ---------------------------------------------------------------- grouping a batch

  /** The platform lost the expense. */
  predicate Lost(e: Expense) {
    e.summary.Some? && e.summary.value.state == DELETED
  }

  /** The user's filter takes the row out. */
  predicate Filtered(rule: Option<Rule>, e: Expense) {
    rule.Some? && rule.value(e.details) && !Lost(e)
  }

  /** The row after it was skipped. */
  function AsSkipped(e: Expense): Expense {
    Expense(e.details, true, Some(Summary(SKIPPED, false)), e.previousExportState)
  }

  /** The rows that go on to grouping, as often as they count there: with a filter each once. */
  function Remaining(table: Table, rule: Option<Rule>, ids: seq<nat>): seq<nat> {
    if rule.None? then ids
    else if ids == [] then []
    else
      var before, id := Remaining(table, rule, ids[..|ids| - 1]), ids[|ids| - 1];
      if id in before || (id in table && Filtered(rule, table[id])) then before else before + [id]
  }

  lemma {:induction false} ScreenedRows(b: Batch, rule: Option<Rule>, ids: seq<nat>)
    requires Ready(b) && rule.Some? && forall id :: id in ids ==> id in b.ids
    ensures var table := Skip(b.state, Elems(b.ids), rule.value).expenses;
            FirstSeen(Pick(table, Live, ids)) == Remaining(b.state.expenses, rule, ids)
  {
    if ids == [] {
    } else {
      var front, last := ids[..|ids| - 1], ids[|ids| - 1];
      var table := Skip(b.state, Elems(b.ids), rule.value).expenses;
      assert last in ids && last in Elems(b.ids);
      ScreenedRows(b, rule, front);
      assert Holds(table, Live, last) <==> !Filtered(rule, b.state.expenses[last]);
      if Holds(table, Live, last) {
        FirstSeenSnoc(Pick(table, Live, front), last);
      } else {
        assert !Holds(table, Live, last);
      }
    }
  }

  lemma ScreenExactly(b: Batch, rule: Option<Rule>)
    requires Ready(b)
    ensures Screen(b, rule).ids == Remaining(b.state.expenses, rule, b.ids)
    ensures forall id :: id in b.state.expenses ==>
              && id in Screen(b, rule).state.expenses
              && Screen(b, rule).state.expenses[id] ==
                   if id in b.ids && Filtered(rule, b.state.expenses[id]) then AsSkipped(b.state.expenses[id])
                   else b.state.expenses[id]
  {
    if rule.Some? {
      ScreenedRows(b, rule, b.ids);
      assert forall id :: id in Elems(b.ids) <==> id in b.ids;
    }
  }

  lemma {:induction false} InRemaining(table: Table, rule: Option<Rule>, ids: seq<nat>, id: nat)
    requires id in table
    ensures id in Remaining(table, rule, ids) <==> id in ids && !Filtered(rule, table[id])
  {
    if rule.None? || ids == [] {
    } else {
      InRemaining(table, rule, ids[..|ids| - 1], id);
    }
  }

  /** Grouping looks at the imported columns only. */
  lemma {:induction false} SamePeers(t: Table, t': Table, st: Settings, ids: seq<nat>, id: nat)
    requires t.Keys == t'.Keys && forall x :: x in t ==> t'[x].details == t[x].details
    ensures GroupLaws.PeersTotal(t, st, ids, id) == GroupLaws.PeersTotal(t', st, ids, id)
  {
    if ids == [] {
    } else {
      SamePeers(t, t', st, ids[..|ids| - 1], id);
      assert GroupLaws.Together(t, st, id, ids[|ids| - 1]) <==> GroupLaws.Together(t', st, id, ids[|ids| - 1]);
    }
  }

  /** Refunds and zero amounts of the row's group stay in it. */
  ghost predicate GroupIsKept(b: Batch, st: Settings, rule: Option<Rule>, id: nat) {
    id in b.state.expenses &&
    GroupLaws.KeptWhole(st, b.state.expenses[id].details.fundSource,
                        GroupLaws.PeersTotal(b.state.expenses, st, Remaining(b.state.expenses, rule, b.ids), id))
  }

  /** What becomes of a row of a batch. */
  ghost predicate Outcome(s': State, e: Expense, id: nat, filtered: bool, kept: bool) {
    if filtered then id in s'.expenses && s'.expenses[id] == AsSkipped(e) && !Grouped(s', id)
    else if e.details.amount > 0 || kept then RightlyGrouped(s', id) && s'.expenses[id] == e
    else if e.details.amount < 0 then
      id in s'.expenses && !Grouped(s', id) && s'.expenses[id] == if Lost(e) then e else AsSkipped(e)
    else id in s'.expenses && !Grouped(s', id) && s'.expenses[id] == e
  }

  lemma StoredRow(s: State, c: Created, id: nat)
    requires id in s.expenses && !s.expenses[id].isSkipped
    ensures id in Store(s, c).expenses
    ensures Store(s, c).expenses[id] ==
              if id in c.skipped && !Lost(s.expenses[id]) then AsSkipped(s.expenses[id]) else s.expenses[id]
  {
    assert id in Elems(c.skipped) <==> id in c.skipped;
  }

  /** The groups after storing: those there were, and one for each list. */
  lemma StoredRows(s: State, c: Created, g: nat)
    requires Inv(s)
    ensures g in Store(s, c).groups <==> g in s.groups || s.nextGroup <= g < s.nextGroup + |c.groups|
    ensures g in s.groups ==> Store(s, c).groups[g] == s.groups[g]
    ensures s.nextGroup <= g < s.nextGroup + |c.groups| ==>
              Store(s, c).groups[g].members == Elems(Lists(c.groups)[g - s.nextGroup])
  {
    assert g in s.groups ==> g < s.nextGroup;
  }

  lemma StoredGroups(b: Batch, c: Created, id: nat)
    requires Ready(b) && id in b.state.expenses && !Grouped(b.state, id)
    ensures Grouped(Store(b.state, c), id) <==> Grouping.Covered(Lists(c.groups), id)
  {
    StoredShare(b, c, id, id);
    ShareOfOne(Store(b.state, c), Lists(c.groups), id);
  }

  lemma ShareOfOne(s: State, lists: seq<seq<nat>>, id: nat)
    ensures ShareGroup(s, id, id) <==> Grouped(s, id)
    ensures GroupLaws.Shared(lists, id, id) <==> Grouping.Covered(lists, id)
  {
  }

  ghost predicate ShareGroup(s: State, x: nat, y: nat) {
    exists g :: g in s.groups && x in s.groups[g].members && y in s.groups[g].members
  }

  lemma StoredShare(b: Batch, c: Created, x: nat, y: nat)
    requires Ready(b) && !Grouped(b.state, x)
    ensures ShareGroup(Store(b.state, c), x, y) <==> GroupLaws.Shared(Lists(c.groups), x, y)
  {
    var s, lists := b.state, Lists(c.groups);
    if GroupLaws.Shared(lists, x, y) {
      var i :| 0 <= i < |lists| && x in lists[i] && y in lists[i];
      StoredRows(s, c, s.nextGroup + i);
      assert x in Store(s, c).groups[s.nextGroup + i].members;
    }
    if ShareGroup(Store(s, c), x, y) {
      var g :| g in Store(s, c).groups && x in Store(s, c).groups[g].members && y in Store(s, c).groups[g].members;
      StoredRows(s, c, g);
      assert g !in s.groups;
      assert x in Elems(lists[g - s.nextGroup]) && y in Elems(lists[g - s.nextGroup]);
      assert x in lists[g - s.nextGroup] && y in lists[g - s.nextGroup];
    }
  }

  lemma NotGrouped(b: Batch, id: nat)
    requires Ready(b) && id in b.ids
    ensures !Grouped(b.state, id)
  {
    assert id in Elems(b.ids);
  }

  /**
   Each row of a batch: skipped when the filter matches it and the platform knows it; else grouped when it is a charge
   or its group is kept whole; else skipped when it is a refund, unless the platform lost it, or left alone at zero.
   */
  lemma GroupAndSkipExactly(b: Batch, st: Settings, rule: Option<Rule>, id: nat)
    requires Ready(b) && GroupAndSkip(b, st, rule).Success? && id in b.ids
    ensures Outcome(GroupAndSkip(b, st, rule).value, b.state.expenses[id], id,
                    Filtered(rule, b.state.expenses[id]), GroupIsKept(b, st, rule, id))
  {
    var screened := Screen(b, rule);
    ScreenReady(b, rule);
    ScreenExactly(b, rule);
    NotGrouped(b, id);
    var table := screened.state.expenses;
    var c := CreateGroups(table, st, screened.ids).value;
    InRemaining(b.state.expenses, rule, b.ids, id);
    CreationPartitions(table, st, screened.ids);
    StoredGroups(screened, c, id);
    if Filtered(rule, b.state.expenses[id]) {
      FilteredStays(screened, c, id);
    } else {
      GroupLaws.RowFate(table, st, screened.ids, id);
      SamePeers(b.state.expenses, table, st, screened.ids, id);
      StoredRow(screened.state, c, id);
      if Grouping.Covered(Lists(c.groups), id) {
        CoveredIsGrouped(screened, c, id);
      }
    }
  }

  lemma FilteredStays(b: Batch, c: Created, id: nat)
    requires Ready(b) && id in b.state.expenses && id !in b.ids && b.state.expenses[id].isSkipped
    requires Grouping.Splits(b.state.expenses, Lists(c.groups), c.skipped, Elems(b.ids))
    ensures !Grouping.Covered(Lists(c.groups), id)
    ensures id in Store(b.state, c).expenses && Store(b.state, c).expenses[id] == b.state.expenses[id]
  {
    var lists := Lists(c.groups);
    forall i | 0 <= i < |lists| ensures id !in lists[i] {
      assert Elems(lists[i]) <= Elems(b.ids) && id !in Elems(b.ids);
    }
  }

  lemma CoveredIsGrouped(b: Batch, c: Created, id: nat)
    requires Ready(b) && id in b.state.expenses && Homogeneous(b.state.expenses, c.groups)
    requires Grouping.Covered(Lists(c.groups), id)
    ensures RightlyGrouped(Store(b.state, c), id)
  {
    var lists := Lists(c.groups);
    var i :| 0 <= i < |lists| && id in lists[i];
    assert id in c.groups[i].ids;
    MembersAreGrouped(b.state, c, i, id);
  }

  // ---------------------------------------------------------------- rows that share a group

  lemma SameTogether(t: Table, t': Table, st: Settings, x: nat, y: nat)
    requires t.Keys == t'.Keys && forall id :: id in t ==> t'[id].details == t[id].details
    ensures GroupLaws.Together(t, st, x, y) <==> GroupLaws.Together(t', st, x, y)
  {
  }

  /** Rows of a batch that end up grouped share a group exactly when they agree on what they are grouped by. */
  lemma BatchSharesExactly(b: Batch, st: Settings, rule: Option<Rule>, x: nat, y: nat)
    requires Ready(b) && GroupAndSkip(b, st, rule).Success? && x in b.ids && y in b.ids
    requires var s' := GroupAndSkip(b, st, rule).value; Grouped(s', x) && Grouped(s', y)
    ensures ShareGroup(GroupAndSkip(b, st, rule).value, x, y) <==> GroupLaws.Together(b.state.expenses, st, x, y)
  {
    var screened := Screen(b, rule);
    ScreenReady(b, rule);
    NotGrouped(b, x);
    NotGrouped(b, y);
    var table := screened.state.expenses;
    var c := CreateGroups(table, st, screened.ids).value;
    StoredGroups(screened, c, x);
    StoredGroups(screened, c, y);
    StoredShare(screened, c, x, y);
    GroupLaws.CreatedTogetherExactly(table, st, screened.ids, x, y);
    SameTogether(b.state.expenses, table, st, x, y);
  }

  // ---------------------------------------------------------------- storing the payload

  /** Entry i is the last one of the payload for its expense. */
  ghost predicate LastFor(payload: seq<(nat, Details)>, i: nat, id: nat) {
    i < |payload| && payload[i].0 == id && forall j :: i < j < |payload| ==> payload[j].0 != id
  }

  /** The row of an expense with the columns of its last entry; what only the program writes is kept. */
  function StoredAs(s: State, id: nat, d: Details): Expense {
    if id in s.expenses
    then Expense(d, s.expenses[id].isSkipped, s.expenses[id].summary, s.expenses[id].previousExportState)
    else Expense(d, false, None, None)
  }

  lemma {:induction false} UnlistedStays(s: State, payload: seq<(nat, Details)>, id: nat)
    requires forall i :: 0 <= i < |payload| ==> payload[i].0 != id
    ensures var b := CreateObjects(s, payload);
            && (id in b.state.expenses <==> id in s.expenses) && id !in b.ids
            && (id in s.expenses ==> b.state.expenses[id] == s.expenses[id])
  {
    if payload == [] {
    } else {
      UnlistedStays(s, payload[..|payload| - 1], id);
    }
  }

  lemma {:induction false} GroupsStay(s: State, payload: seq<(nat, Details)>)
    ensures CreateObjects(s, payload).state.groups == s.groups
  {
    if payload == [] {
    } else {
      GroupsStay(s, payload[..|payload| - 1]);
    }
  }

  lemma {:induction false} KeepsOwnColumns(s: State, payload: seq<(nat, Details)>, id: nat)
    ensures var rows := CreateObjects(s, payload).state.expenses;
            id in rows ==> rows[id] == StoredAs(s, id, rows[id].details)
    ensures id in s.expenses ==> id in CreateObjects(s, payload).state.expenses
  {
    if payload == [] {
    } else {
      KeepsOwnColumns(s, payload[..|payload| - 1], id);
    }
  }

  lemma {:induction false} InBatch(s: State, payload: seq<(nat, Details)>, id: nat)
    ensures id in CreateObjects(s, payload).ids ==> exists i :: 0 <= i < |payload| && payload[i].0 == id
    ensures id in CreateObjects(s, payload).ids ==> !Grouped(s, id) && !(id in s.expenses && s.expenses[id].isSkipped)
  {
    if payload == [] {
    } else {
      var front := payload[..|payload| - 1];
      InBatch(s, front, id);
      GroupsStay(s, front);
      KeepsOwnColumns(s, front, payload[|payload| - 1].0);
      if id in CreateObjects(s, front).ids {
        var i :| 0 <= i < |front| && front[i].0 == id;
        assert payload[i].0 == id;
      }
    }
  }

  /** An imported expense is stored with the columns of its last entry, and is in the batch exactly when it is free. */
  lemma {:induction false} PayloadIsStored(s: State, payload: seq<(nat, Details)>, i: nat, id: nat)
    requires LastFor(payload, i, id)
    ensures var b := CreateObjects(s, payload);
            && id in b.state.expenses && b.state.expenses[id] == StoredAs(s, id, payload[i].1)
            && (id in b.ids <==> !Grouped(s, id) && !(id in s.expenses && s.expenses[id].isSkipped))
  {
    var n := |payload| - 1;
    GroupsStay(s, payload[..n]);
    KeepsOwnColumns(s, payload[..n], id);
    InBatch(s, payload[..n], id);
    if i < n {
      assert LastFor(payload[..n], i, id);
      PayloadIsStored(s, payload[..n], i, id);
    }
  }

  // ---------------------------------------------------------------- the whole import

  /** A step that takes the row out of the batch, and skips it unless the platform lost it, if it hits. */
  ghost predicate Dropped(b: Batch, b': Batch, id: nat, hit: bool) {
    && id in b.state.expenses && id in b'.state.expenses
    && (id in b'.ids <==> id in b.ids && !hit)
    && b'.state.expenses[id] ==
         if id in b.ids && hit && !Lost(b.state.expenses[id]) then AsSkipped(b.state.expenses[id])
         else b.state.expenses[id]
  }

  lemma DropExactly(b: Batch, applies: bool, c: Cond, id: nat)
    requires Ready(b) && id in b.state.expenses
    ensures Dropped(b, Drop(b, applies, c), id, applies && Holds(b.state.expenses, c, id))
  {
    var hit := Elems(Pick(b.state.expenses, c, b.ids));
    assert id in hit <==> id in b.ids && Holds(b.state.expenses, c, id);
  }

  lemma DroppedTwice(b: Batch, b1: Batch, b2: Batch, id: nat, hit: bool, hit': bool)
    requires Dropped(b, b1, id, hit) && Dropped(b1, b2, id, hit')
    ensures Dropped(b, b2, id, hit || hit')
    ensures b1.state.expenses[id].details == b.state.expenses[id].details
  {
  }

  /** The settings of the workspace set the row aside: refunds are unwanted, or its source is not exported. */
  predicate SetAsideBy(st: Settings, dropRefunds: bool, d: Details) {
    || (dropRefunds && d.amount < 0)
    || (st.reimbursable == None && d.fundSource == PERSONAL)
    || (st.ccc == None && d.fundSource == CCC)
  }

  lemma IncomingExactly(s: State, payload: seq<(nat, Details)>, st: Settings, dropRefunds: bool, id: nat)
    requires Inv(s) && id in CreateObjects(s, payload).state.expenses
    ensures var b := CreateObjects(s, payload);
            Dropped(b, Incoming(s, payload, st, dropRefunds), id,
                    SetAsideBy(st, dropRefunds, b.state.expenses[id].details))
  {
    CreateObjectsReady(s, payload);
    var b0 := CreateObjects(s, payload);
    var b1 := Drop(b0, dropRefunds, Negative);
    var b2 := Drop(b1, st.reimbursable.None?, FundedBy(PERSONAL));
    var b3 := Drop(b2, st.ccc.None?, FundedBy(CCC));
    DropReady(b0, dropRefunds, Negative);
    DropReady(b1, st.reimbursable.None?, FundedBy(PERSONAL));
    DropExactly(b0, dropRefunds, Negative, id);
    DropExactly(b1, st.reimbursable.None?, FundedBy(PERSONAL), id);
    DropExactly(b2, st.ccc.None?, FundedBy(CCC), id);
    IncomingInSteps(b0, b1, b2, b3, st, dropRefunds, id);
  }

  lemma IncomingInSteps(b0: Batch, b1: Batch, b2: Batch, b3: Batch, st: Settings, dropRefunds: bool, id: nat)
    requires Dropped(b0, b1, id, dropRefunds && Holds(b0.state.expenses, Negative, id))
    requires Dropped(b1, b2, id, st.reimbursable.None? && Holds(b1.state.expenses, FundedBy(PERSONAL), id))
    requires Dropped(b2, b3, id, st.ccc.None? && Holds(b2.state.expenses, FundedBy(CCC), id))
    ensures Dropped(b0, b3, id, SetAsideBy(st, dropRefunds, b0.state.expenses[id].details))
  {
    var x := dropRefunds && Holds(b0.state.expenses, Negative, id);
    var y := st.reimbursable.None? && Holds(b1.state.expenses, FundedBy(PERSONAL), id);
    DroppedTwice(b0, b1, b2, id, x, y);
    DroppedTwice(b0, b2, b3, id, x || y, st.ccc.None? && Holds(b2.state.expenses, FundedBy(CCC), id));
  }

  /** A row outside the batch keeps its columns and its group. */
  lemma OutsiderStays(b: Batch, st: Settings, rule: Option<Rule>, id: nat)
    requires Ready(b) && GroupAndSkip(b, st, rule).Success? && id in b.state.expenses && id !in b.ids
    ensures var s' := GroupAndSkip(b, st, rule).value;
            id in s'.expenses && s'.expenses[id] == b.state.expenses[id] && (Grouped(s', id) <==> Grouped(b.state, id))
  {
    GroupAndSkipTouchesTheBatch(b, st, rule, id);
    GroupAndSkipSettles(b, st, rule);
    var s' := GroupAndSkip(b, st, rule).value;
    if Grouped(b.state, id) {
      var g :| g in b.state.groups && id in b.state.groups[g].members;
      assert g in s'.groups && id in s'.groups[g].members;
    }
    if Grouped(s', id) {
      var g :| g in s'.groups && id in s'.groups[g].members;
      assert g in b.state.groups by {
        if g !in b.state.groups {
          GroupAndSkipAdds(b, st, rule, g);
        }
      }
    }
  }

  /**
   What a completed import makes of an expense of its payload. One that is grouped or skipped already only takes its new
   columns. A free one is skipped when the settings or the filter say so and the platform has not lost it, and goes
   through grouping when they do not.
   */
  lemma ImportExactly(s: State, payload: seq<(nat, Details)>, st: Settings, dropRefunds: bool, rule: Option<Rule>,
                      i: nat, id: nat)
    requires Inv(s) && LastFor(payload, i, id)
    requires GroupAndSkip(Incoming(s, payload, st, dropRefunds), st, rule).Success?
    ensures var s', e := Import(s, payload, st, dropRefunds, rule), StoredAs(s, id, payload[i].1);
            if Grouped(s, id) || (id in s.expenses && s.expenses[id].isSkipped) then
              id in s'.expenses && s'.expenses[id] == e && (Grouped(s', id) <==> Grouped(s, id))
            else if SetAsideBy(st, dropRefunds, payload[i].1) then
              id in s'.expenses && !Grouped(s', id) && s'.expenses[id] == if Lost(e) then e else AsSkipped(e)
            else
              Outcome(s', e, id, Filtered(rule, e), GroupIsKept(Incoming(s, payload, st, dropRefunds), st, rule, id))
  {
    var b := Incoming(s, payload, st, dropRefunds);
    IncomingReady(s, payload, st, dropRefunds);
    PayloadIsStored(s, payload, i, id);
    IncomingExactly(s, payload, st, dropRefunds, id);
    if id in b.ids {
      GroupAndSkipExactly(b, st, rule, id);
    } else {
      OutsiderStays(b, st, rule, id);
    }
  }

  /** An import that is not completed changes nothing; with fund_source in both lists it is completed. */
  lemma ImportRollsBack(s: State, payload: seq<(nat, Details)>, st: Settings, dropRefunds: bool,
                        rule: Option<Rule>)
    ensures GroupAndSkip(Incoming(s, payload, st, dropRefunds), st, rule).Failure? ==>
              Import(s, payload, st, dropRefunds, rule) == s
    ensures "fund_source" in st.reimbursableFields && "fund_source" in st.cccFields ==>
              GroupAndSkip(Incoming(s, payload, st, dropRefunds), st, rule).Success?
  {
  }
}
