/** Importing expenses, and grouping a batch of them: the pipeline every regrouping goes through. */
module Ledger {
  import opened Common
  import opened Expenses
  import Grouping
  import opened GroupCreation
  import opened Tables

  /** A state and the ids still on their way into groups. */
  datatype Batch = Batch(state: State, ids: seq<nat>)

  // ---------------------------------------------------------------- specification

  /** Expense.create_expense_objects: upsert every row; the batch is what is neither skipped nor grouped. */
  function CreateObjects(s: State, payload: seq<(nat, Details)>): Batch {
    if payload == [] then Batch(s, [])
    else
      var b := CreateObjects(s, payload[..|payload| - 1]);
      var (id, d) := payload[|payload| - 1];
      var s' := b.state.(expenses := Upsert(b.state.expenses, id, d));
      Batch(s', if !s'.expenses[id].isSkipped && !Grouped(s', id) then b.ids + [id] else b.ids)
  }

  /** A step that skips part of the batch and takes it out of the batch. */
  function Drop(b: Batch, applies: bool, c: Cond): Batch {
    var hit := Elems(Pick(b.state.expenses, c, b.ids));
    if applies then Batch(Skip(b.state, hit, Everything), Without(b.ids, hit)) else b
  }

  /** Applying the user's filter: matching rows are skipped, and the unskipped rows read back. */
  function Screen(b: Batch, rule: Option<Rule>): Batch {
    match rule
    case None => b
    case Some(r) =>
      var s' := Skip(b.state, Elems(b.ids), r);
      Batch(s', FirstSeen(Pick(s'.expenses, Live, b.ids)))
  }

  /** Storing a batch: its groups are added, its skip list is skipped. */
  function Store(s: State, c: Created): State {
    Skip(AddGroups(s, c.groups), Elems(c.skipped), Everything)
  }

  function GroupAndSkip(b: Batch, st: Settings, rule: Option<Rule>): Result<State> {
    var screened := Screen(b, rule);
    match CreateGroups(screened.state.expenses, st, screened.ids)
    case Failure => Failure
    case Success(c) => Success(Store(screened.state, c))
  }

  function Incoming(s: State, payload: seq<(nat, Details)>, st: Settings, dropRefunds: bool): Batch {
    var b := Drop(CreateObjects(s, payload), dropRefunds, Negative);
    Drop(Drop(b, st.reimbursable.None?, FundedBy(PERSONAL)), st.ccc.None?, FundedBy(CCC))
  }

  /** group_expenses_and_save, inside its transaction: a failure leaves the state as it was. */
  function Import(s: State, payload: seq<(nat, Details)>, st: Settings, dropRefunds: bool, rule: Option<Rule>): State {
    match GroupAndSkip(Incoming(s, payload, st, dropRefunds), st, rule)
    case Failure => s
    case Success(s') => s'
  }

  // ---------------------------------------------------------------- what the pipeline keeps

  /** The batch may be grouped: known, unskipped rows in no group. */
  ghost predicate Ready(b: Batch) {
    && Inv(b.state)
    && Ungrouped(b.state, Elems(b.ids))
    && (forall id :: id in b.ids ==> id in b.state.expenses && !b.state.expenses[id].isSkipped)
  }

  /** Only rows of expenses differ: the same groups, logs and errors. */
  ghost predicate SameGroups(s: State, s': State) {
    s'.groups == s.groups && s'.logs == s.logs && s'.errors == s.errors && s'.nextGroup == s.nextGroup
  }

  /** Skipped, or lost by the platform: the two ways a row leaves the batch without a group. */
  predicate SetAside(s: State, id: nat) {
    id in s.expenses && (s.expenses[id].isSkipped || IsDeleted(s.expenses[id]))
  }

  /** The same expenses, with the same imported columns; rows set aside stay so. */
  ghost predicate OnlySkips(s: State, s': State) {
    && s'.expenses.Keys == s.expenses.Keys
    && (forall id :: id in s.expenses ==> s'.expenses[id].details == s.expenses[id].details)
    && (forall id :: SetAside(s, id) ==> SetAside(s', id))
  }

  /** On its way into a group, in one, or set aside. */
  ghost predicate Placed(b: Batch, id: nat) {
    id in b.ids || Grouped(b.state, id) || SetAside(b.state, id)
  }

  lemma UpsertReady(b: Batch, id: nat, d: Details)
    requires Ready(b)
    ensures var s' := b.state.(expenses := Upsert(b.state.expenses, id, d));
            Ready(Batch(s', if !s'.expenses[id].isSkipped && !Grouped(s', id) then b.ids + [id] else b.ids))
  {
    UpsertKeepsInv(b.state, id, d);
    var s' := b.state.(expenses := Upsert(b.state.expenses, id, d));
    if !Grouped(s', id) {
      assert Elems(b.ids + [id]) == Elems(b.ids) + {id};
    }
  }

  lemma UpsertPlaces(b: Batch, id: nat, d: Details, other: nat)
    requires other == id || Placed(b, other)
    ensures var s' := b.state.(expenses := Upsert(b.state.expenses, id, d));
            Placed(Batch(s', if !s'.expenses[id].isSkipped && !Grouped(s', id) then b.ids + [id] else b.ids), other)
  {
    var s' := b.state.(expenses := Upsert(b.state.expenses, id, d));
    if Grouped(b.state, other) {
      var g :| g in b.state.groups && other in b.state.groups[g].members;
      assert g in s'.groups && other in s'.groups[g].members;
    }
  }

  lemma {:induction false} CreateObjectsReady(s: State, payload: seq<(nat, Details)>)
    requires Inv(s)
    ensures var b := CreateObjects(s, payload);
            && Ready(b) && SameGroups(s, b.state)
            && (forall i :: 0 <= i < |payload| ==> Placed(b, payload[i].0))
  {
    if payload == [] {
    } else {
      var front := payload[..|payload| - 1];
      CreateObjectsReady(s, front);
      var b, b' := CreateObjects(s, front), CreateObjects(s, payload);
      var (id, d) := payload[|payload| - 1];
      UpsertReady(b, id, d);
      forall i | 0 <= i < |payload| ensures Placed(b', payload[i].0) {
        assert i < |front| ==> payload[i] == front[i];
        UpsertPlaces(b, id, d, payload[i].0);
      }
    }
  }

  lemma DropReady(b: Batch, applies: bool, c: Cond)
    requires Ready(b)
    ensures var b' := Drop(b, applies, c);
            && Ready(b') && SameGroups(b.state, b'.state) && OnlySkips(b.state, b'.state)
            && (forall id :: id in b.ids ==> id in b'.ids || SetAside(b'.state, id))
  {
    if applies {
      var hit := Elems(Pick(b.state.expenses, c, b.ids));
      assert hit <= Elems(b.ids);
      SkipKeepsInv(b.state, hit, Everything);
    }
  }

  lemma DropPlaces(b: Batch, applies: bool, c: Cond, id: nat)
    requires Ready(b) && Placed(b, id)
    ensures Placed(Drop(b, applies, c), id)
  {
    DropReady(b, applies, c);
    var b' := Drop(b, applies, c);
    if Grouped(b.state, id) {
      var g :| g in b.state.groups && id in b.state.groups[g].members;
      assert g in b'.state.groups && id in b'.state.groups[g].members;
    }
  }

  lemma ScreenReady(b: Batch, rule: Option<Rule>)
    requires Ready(b)
    ensures var b' := Screen(b, rule);
            && Ready(b') && SameGroups(b.state, b'.state) && OnlySkips(b.state, b'.state)
            && Elems(b'.ids) <= Elems(b.ids)
            && (forall id :: id in b.ids ==> id in b'.ids || SetAside(b'.state, id))
  {
    if rule.Some? {
      SkipKeepsInv(b.state, Elems(b.ids), rule.value);
      var s' := Skip(b.state, Elems(b.ids), rule.value);
      forall id | id in Pick(s'.expenses, Live, b.ids) ensures id in s'.expenses && !s'.expenses[id].isSkipped {
        assert Holds(s'.expenses, Live, id);
      }
      forall id | id in b.ids && id !in Screen(b, rule).ids ensures SetAside(s', id) {
        assert !Holds(s'.expenses, Live, id);
      }
    }
  }

  /** id is a member of a not yet exported group of its own fund source. */
  ghost predicate RightlyGrouped(s: State, id: nat) {
    exists g :: g in s.groups && id in s.groups[g].members && id in s.expenses && !s.groups[g].exported
                && s.groups[g].fundSource == s.expenses[id].details.fundSource
  }

  /** Where an expense of a grouped batch ends up. */
  ghost predicate Settled(s: State, id: nat) {
    RightlyGrouped(s, id) || SetAside(s, id) || AmountOf(s.expenses, id) == 0
  }

  lemma StoreKeepsRows(s: State, c: Created)
    requires Inv(s)
    ensures var s' := Store(s, c);
            && OnlySkips(s, s') && Frozen(s, s')
            && (forall g :: g in s.groups ==> g in s'.groups && s'.groups[g] == s.groups[g])
            && s'.logs == s.logs && s'.errors == s.errors
  {
    assert forall g :: g in s.groups ==> g < s.nextGroup;
  }

  lemma StoreKeepsInv(b: Batch, c: Created)
    requires Ready(b)
    requires Grouping.Splits(b.state.expenses, Lists(c.groups), c.skipped, Elems(b.ids))
    ensures Inv(Store(b.state, c))
  {
    CreatedIsAddable(b, c);
    AddGroupsKeepsInv(b.state, c.groups);
    SkippedAreNotMembers(b, c);
    SkipKeepsInv(AddGroups(b.state, c.groups), Elems(c.skipped), Everything);
  }

  lemma SkippedAreNotMembers(b: Batch, c: Created)
    requires Ready(b)
    requires Grouping.Splits(b.state.expenses, Lists(c.groups), c.skipped, Elems(b.ids))
    ensures Ungrouped(AddGroups(b.state, c.groups), Elems(c.skipped))
  {
    var lists := Lists(c.groups);
    var s1 := AddGroups(b.state, c.groups);
    assert Elems(c.skipped) <= Elems(b.ids);
    forall g | g in s1.groups ensures s1.groups[g].members !! Elems(c.skipped) {
      if g >= b.state.nextGroup {
        assert s1.groups[g].members == Elems(lists[g - b.state.nextGroup]);
      }
    }
  }

  lemma MembersAreGrouped(s: State, c: Created, i: nat, id: nat)
    requires Inv(s) && i < |c.groups| && id in c.groups[i].ids && id in s.expenses
    requires s.expenses[id].details.fundSource == c.groups[i].fundSource
    ensures RightlyGrouped(Store(s, c), id)
  {
    StoreKeepsRows(s, c);
    var s', g := Store(s, c), s.nextGroup + i;
    assert s'.groups[g] == GroupRow(c.groups, s.nextGroup, g);
    assert id in s'.groups[g].members && s'.expenses[id].details == s.expenses[id].details;
  }

  lemma SkippedAreSetAside(s: State, c: Created, id: nat)
    requires id in c.skipped && id in s.expenses
    ensures SetAside(Store(s, c), id)
  {
    assert CanSkip(s.expenses[id], Everything) || s.expenses[id].isSkipped || IsDeleted(s.expenses[id]);
    assert id in Elems(c.skipped);
  }

  lemma StoreSettles(b: Batch, c: Created, id: nat)
    requires Ready(b) && id in b.ids
    requires Grouping.Splits(b.state.expenses, Lists(c.groups), c.skipped, Elems(b.ids))
    requires Homogeneous(b.state.expenses, c.groups)
    ensures Settled(Store(b.state, c), id)
  {
    var lists := Lists(c.groups);
    assert id in Elems(b.ids);
    if Grouping.Covered(lists, id) {
      var i :| 0 <= i < |lists| && id in lists[i];
      assert id in c.groups[i].ids;
      MembersAreGrouped(b.state, c, i, id);
    } else if id in c.skipped {
      SkippedAreSetAside(b.state, c, id);
    } else {
      StoreKeepsRows(b.state, c);
    }
  }

  lemma CreatedIsAddable(b: Batch, c: Created)
    requires Ready(b)
    requires Grouping.Splits(b.state.expenses, Lists(c.groups), c.skipped, Elems(b.ids))
    ensures Addable(b.state, c.groups)
  {
    var lists := Lists(c.groups);
    forall i | 0 <= i < |c.groups|
      ensures c.groups[i].ids != [] && Elems(c.groups[i].ids) <= Elems(b.ids)
    {
      assert lists[i] == c.groups[i].ids;
    }
    forall i, j | 0 <= i < j < |c.groups| ensures Elems(c.groups[i].ids) !! Elems(c.groups[j].ids) {
      assert lists[i] == c.groups[i].ids && lists[j] == c.groups[j].ids;
    }
    forall i, id | 0 <= i < |c.groups| && id in c.groups[i].ids ensures id in b.ids {
      assert id in Elems(c.groups[i].ids);
    }
  }

  lemma GroupAndSkipSettles(b: Batch, st: Settings, rule: Option<Rule>)
    requires Ready(b) && GroupAndSkip(b, st, rule).Success?
    ensures var s' := GroupAndSkip(b, st, rule).value;
            && Inv(s') && Frozen(b.state, s') && OnlySkips(b.state, s')
            && (forall g :: g in b.state.groups ==> g in s'.groups && s'.groups[g] == b.state.groups[g])
            && (forall id :: id in b.ids ==> Settled(s', id))
            && s'.logs == b.state.logs && s'.errors == b.state.errors
  {
    ScreenReady(b, rule);
    var screened := Screen(b, rule);
    CreationPartitions(screened.state.expenses, st, screened.ids);
    var c := CreateGroups(screened.state.expenses, st, screened.ids).value;
    StoreKeepsInv(screened, c);
    StoreKeepsRows(screened.state, c);
    forall id | id in b.ids ensures Settled(GroupAndSkip(b, st, rule).value, id) {
      if id in screened.ids {
        StoreSettles(screened, c, id);
      }
    }
  }

  lemma CreatedRows(b: Batch, c: Created, g: nat)
    requires Ready(b)
    requires Grouping.Splits(b.state.expenses, Lists(c.groups), c.skipped, Elems(b.ids))
    requires Homogeneous(b.state.expenses, c.groups)
    requires g in AddGroups(b.state, c.groups).groups && g !in b.state.groups
    ensures var row := AddGroups(b.state, c.groups).groups[g];
            && !row.exported && row.members <= Elems(b.ids)
            && (forall id :: id in row.members ==>
                  id in b.state.expenses && b.state.expenses[id].details.fundSource == row.fundSource)
  {
    var i := g - b.state.nextGroup;
    assert Lists(c.groups)[i] == c.groups[i].ids;
    assert forall id :: id in Elems(c.groups[i].ids) ==> id in c.groups[i].ids;
  }

  /** The groups a batch adds: unexported, made of the batch, each of one fund source. */
  lemma GroupAndSkipAdds(b: Batch, st: Settings, rule: Option<Rule>, g: nat)
    requires Ready(b) && GroupAndSkip(b, st, rule).Success?
    requires g in GroupAndSkip(b, st, rule).value.groups && g !in b.state.groups
    ensures var s' := GroupAndSkip(b, st, rule).value;
            && !s'.groups[g].exported && s'.groups[g].members <= Elems(b.ids)
            && (forall id :: id in s'.groups[g].members ==>
                  id in s'.expenses && s'.expenses[id].details.fundSource == s'.groups[g].fundSource)
  {
    ScreenReady(b, rule);
    var screened := Screen(b, rule);
    CreationPartitions(screened.state.expenses, st, screened.ids);
    CreatedRows(screened, CreateGroups(screened.state.expenses, st, screened.ids).value, g);
  }

  /** Rows outside the batch stay as they were. */
  lemma GroupAndSkipTouchesTheBatch(b: Batch, st: Settings, rule: Option<Rule>, id: nat)
    requires Ready(b) && GroupAndSkip(b, st, rule).Success? && id in b.state.expenses && id !in b.ids
    ensures var s' := GroupAndSkip(b, st, rule).value;
            id in s'.expenses && s'.expenses[id] == b.state.expenses[id]
  {
    ScreenReady(b, rule);
    var screened := Screen(b, rule);
    CreationPartitions(screened.state.expenses, st, screened.ids);
    var c := CreateGroups(screened.state.expenses, st, screened.ids).value;
    assert Elems(c.skipped) <= Elems(screened.ids);
    assert id !in Elems(b.ids);
  }

  lemma IncomingReady(s: State, payload: seq<(nat, Details)>, st: Settings, dropRefunds: bool)
    requires Inv(s)
    ensures Ready(Incoming(s, payload, st, dropRefunds)) && SameGroups(s, Incoming(s, payload, st, dropRefunds).state)
  {
    CreateObjectsReady(s, payload);
    var b0 := CreateObjects(s, payload);
    DropReady(b0, dropRefunds, Negative);
    var b1 := Drop(b0, dropRefunds, Negative);
    DropReady(b1, st.reimbursable.None?, FundedBy(PERSONAL));
    DropReady(Drop(b1, st.reimbursable.None?, FundedBy(PERSONAL)), st.ccc.None?, FundedBy(CCC));
  }

  lemma IncomingPlaces(s: State, payload: seq<(nat, Details)>, st: Settings, dropRefunds: bool, i: nat)
    requires Inv(s) && i < |payload|
    ensures Placed(Incoming(s, payload, st, dropRefunds), payload[i].0)
  {
    CreateObjectsReady(s, payload);
    var b0, id := CreateObjects(s, payload), payload[i].0;
    DropReady(b0, dropRefunds, Negative);
    DropPlaces(b0, dropRefunds, Negative, id);
    var b1 := Drop(b0, dropRefunds, Negative);
    DropReady(b1, st.reimbursable.None?, FundedBy(PERSONAL));
    DropPlaces(b1, st.reimbursable.None?, FundedBy(PERSONAL), id);
    DropPlaces(Drop(b1, st.reimbursable.None?, FundedBy(PERSONAL)), st.ccc.None?, FundedBy(CCC), id);
  }

  /** An import keeps the invariant and never touches an exported group. */
  lemma ImportKeepsInv(s: State, payload: seq<(nat, Details)>, st: Settings, dropRefunds: bool, rule: Option<Rule>)
    requires Inv(s)
    ensures Inv(Import(s, payload, st, dropRefunds, rule)) && Frozen(s, Import(s, payload, st, dropRefunds, rule))
  {
    IncomingReady(s, payload, st, dropRefunds);
    if GroupAndSkip(Incoming(s, payload, st, dropRefunds), st, rule).Success? {
      GroupAndSkipSettles(Incoming(s, payload, st, dropRefunds), st, rule);
    }
  }

  /** A completed import loses nothing: each incoming expense is in a group, set aside, or a zero amount. */
  lemma ImportSettlesThePayload(s: State, payload: seq<(nat, Details)>, st: Settings, dropRefunds: bool,
                                rule: Option<Rule>, i: nat)
    requires Inv(s) && i < |payload|
    requires GroupAndSkip(Incoming(s, payload, st, dropRefunds), st, rule).Success?
    ensures var s' := Import(s, payload, st, dropRefunds, rule);
            Grouped(s', payload[i].0) || SetAside(s', payload[i].0) || AmountOf(s'.expenses, payload[i].0) == 0
  {
    var b := Incoming(s, payload, st, dropRefunds);
    IncomingReady(s, payload, st, dropRefunds);
    IncomingPlaces(s, payload, st, dropRefunds, i);
    GroupAndSkipSettles(b, st, rule);
    var s' := Import(s, payload, st, dropRefunds, rule);
    var id := payload[i].0;
    if Grouped(b.state, id) {
      var g :| g in b.state.groups && id in b.state.groups[g].members;
      assert id in s'.groups[g].members;
    } else if id in b.ids {
      assert Settled(s', id);
    }
  }
}
