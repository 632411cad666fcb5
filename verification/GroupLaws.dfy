/** What group creation does with each row, over the columns of the rows: who shares a group, and who is left out. */
module GroupLaws {
  import opened Common
  import opened Expenses
  import opened Grouping
  import opened GroupCreation

  // ---------------------------------------------------------------- agreement of rows

  /** Two rows have the same value in a grouping field. */
  predicate SameIn(f: string, a: nat, x: Details, b: nat, y: Details) {
    if f == "expense_id" then a == b
    else if f == "fund_source" then x.fundSource == y.fundSource
    else if f == "spent_at" then x.spentAt == y.spentAt
    else if f == "report_id" then x.reportId == y.reportId
    else if f == "bank_transaction_id" then x.bankTransactionId == y.bankTransactionId
    else (f in x.others <==> f in y.others) && (f in x.others ==> x.others[f] == y.others[f])
  }

  ghost predicate Agree(table: Table, fields: seq<string>, a: nat, b: nat) {
    && a in table && b in table
    && forall f :: f in fields ==> SameIn(f, a, table[a].details, b, table[b].details)
  }

  lemma ColumnIsSameIn(f: string, a: nat, x: Expense, b: nat, y: Expense)
    ensures Column(a, x, f) == Column(b, y, f) <==> SameIn(f, a, x.details, b, y.details)
  {
  }

  /** Rows have the same key exactly when they agree on every field. */
  lemma KeyIsAgreement(table: Table, fields: seq<string>, a: nat, b: nat)
    requires a in table && b in table
    ensures KeyOf(table, fields, a) == KeyOf(table, fields, b) <==> Agree(table, fields, a, b)
  {
    var k, l := KeyOf(table, fields, a).values, KeyOf(table, fields, b).values;
    forall i | 0 <= i < |fields|
      ensures k[i] == l[i] <==> SameIn(fields[i], a, table[a].details, b, table[b].details)
    {
      ColumnIsSameIn(fields[i], a, table[a], b, table[b]);
    }
    assert forall i :: 0 <= i < |fields| ==> fields[i] in fields;
  }

  // ---------------------------------------------------------------- lists separated by their key

  /** The rows of one list have one key, rows of different lists different keys. */
  ghost predicate Separated(table: Table, fields: seq<string>, lists: seq<seq<nat>>) {
    && (forall i :: 0 <= i < |lists| ==> SameKey(table, fields, lists[i]))
    && (forall i, j, a, b :: 0 <= i < j < |lists| && a in lists[i] && b in lists[j] ==>
          KeyOf(table, fields, a) != KeyOf(table, fields, b))
  }

  ghost predicate Shared(lists: seq<seq<nat>>, a: nat, b: nat) {
    exists i :: 0 <= i < |lists| && a in lists[i] && b in lists[i]
  }

  lemma SharedExactly(table: Table, fields: seq<string>, lists: seq<seq<nat>>, a: nat, b: nat)
    requires Separated(table, fields, lists) && Covered(lists, a) && Covered(lists, b)
    ensures Shared(lists, a, b) <==> KeyOf(table, fields, a) == KeyOf(table, fields, b)
  {
    var i :| 0 <= i < |lists| && a in lists[i];
    var j :| 0 <= j < |lists| && b in lists[j];
    if KeyOf(table, fields, a) == KeyOf(table, fields, b) {
      assert i == j;
    }
  }

  lemma InUnion(lists: seq<seq<nat>>, a: nat)
    ensures a in Union(lists) <==> Covered(lists, a)
  {
  }

  lemma SeparatedMore(table: Table, fields: seq<string>, kept: seq<seq<nat>>, more: seq<nat>, seen: set<nat>)
    requires Separated(table, fields, kept) && Union(kept) <= seen && SameKey(table, fields, more)
    requires forall a, b :: a in seen && b in more ==> KeyOf(table, fields, a) != KeyOf(table, fields, b)
    ensures Separated(table, fields, kept + AsGroups(more))
  {
    var all := kept + AsGroups(more);
    forall i, j, a, b | 0 <= i < j < |all| && a in all[i] && b in all[j]
      ensures KeyOf(table, fields, a) != KeyOf(table, fields, b)
    {
      if j == |kept| {
        assert a in kept[i];
        assert a in Union(kept);
      }
    }
  }

  lemma KeptIsListed(table: Table, fields: seq<string>, reimbursable: Option<ExportType>, ccc: Option<ExportType>,
                     ids: seq<nat>)
    requires Exist(table, ids) && SameKey(table, fields, ids)
    ensures forall id :: id in Sift(table, fields, reimbursable, ccc, ids).kept ==> id in ids
  {
    SiftCases(table, fields, reimbursable, ccc, ids);
  }

  lemma UnionOfMore(kept: seq<seq<nat>>, more: seq<nat>)
    ensures Union(kept + AsGroups(more)) == Union(kept) + Elems(more)
  {
    if more == [] {
      assert kept + AsGroups(more) == kept;
      assert Elems(more) == {};
    } else {
      UnionSnoc(kept, more);
    }
  }

  /** Filtering keeps lists separated: each kept list comes from one group of the query. */
  lemma {:induction false} FilterSeparates(table: Table, ids: seq<nat>, fields: seq<string>,
                                           reimbursable: Option<ExportType>, ccc: Option<ExportType>,
                                           groups: seq<seq<nat>>)
    requires Exist(table, ids) && Separated(table, fields, groups)
    requires forall i :: 0 <= i < |groups| ==> Elems(groups[i]) <= Elems(ids)
    ensures var kept := FilterGroups(table, ids, fields, reimbursable, ccc, groups).kept;
            Separated(table, fields, kept) && Union(kept) <= Union(groups)
  {
    if groups == [] {
    } else {
      var front, last := groups[..|groups| - 1], groups[|groups| - 1];
      var members := Pick(table, Listed(last), ids);
      var more := Sift(table, fields, reimbursable, ccc, members).kept;
      var kept := FilterGroups(table, ids, fields, reimbursable, ccc, front).kept;
      FilterSeparates(table, ids, fields, reimbursable, ccc, front);
      SameRows(table, ids, last);
      SameKeyOfPart(table, fields, members, last);
      KeptIsListed(table, fields, reimbursable, ccc, members);
      assert Elems(more) <= Elems(last) by {
        assert Elems(members) == Elems(last);
      }
      SameKeyOfPart(table, fields, more, last);
      ApartFromEarlier(table, fields, groups);
      LastOfGroups(groups);
      assert forall b :: b in more ==> b in Elems(more);
      SeparatedMore(table, fields, kept, more, Union(front));
      UnionOfMore(kept, more);
    }
  }

  lemma ApartFromEarlier(table: Table, fields: seq<string>, groups: seq<seq<nat>>)
    requires groups != [] && Separated(table, fields, groups)
    ensures var n := |groups| - 1;
            forall a, b :: a in Union(groups[..n]) && b in groups[n] ==>
                             KeyOf(table, fields, a) != KeyOf(table, fields, b)
  {
    var n := |groups| - 1;
    forall a, b | a in Union(groups[..n]) && b in groups[n]
      ensures KeyOf(table, fields, a) != KeyOf(table, fields, b)
    {
      var i :| 0 <= i < n && a in groups[..n][i];
      assert a in groups[i];
    }
  }

  lemma LastOfGroups(groups: seq<seq<nat>>)
    requires groups != []
    ensures Union(groups) == Union(groups[..|groups| - 1]) + Elems(groups[|groups| - 1])
  {
    assert groups == groups[..|groups| - 1] + [groups[|groups| - 1]];
    UnionSnoc(groups[..|groups| - 1], groups[|groups| - 1]);
  }

  lemma QuerySeparates(table: Table, fields: seq<string>, ids: seq<nat>)
    requires Exist(table, ids)
    ensures Separated(table, fields, GroupBy(table, fields, ids))
  {
    GroupByIsGroupBy(table, fields, ids);
  }

  // ---------------------------------------------------------------- the fate of a row of one group

  /** Whether the rows of a group with this total are kept as they are. */
  predicate Whole(fields: seq<string>, reimbursable: Option<ExportType>, ccc: Option<ExportType>, total: int) {
    if "expense_id" !in fields
       && (reimbursable == Some(EXPENSE_REPORT) || reimbursable == Some(BILL) || ccc == Some(BILL))
    then total >= 0
    else reimbursable == Some(JOURNAL_ENTRY) && ccc != Some(BILL)
  }

  /** A row is kept or skipped, according to whether its group is kept whole. */
  ghost predicate Fate(table: Table, id: nat, whole: bool, kept: bool, skipped: bool) {
    && id in table
    && (kept <==> table[id].details.amount > 0 || whole)
    && (skipped <==> table[id].details.amount < 0 && !whole)
  }

  lemma SiftFate(table: Table, fields: seq<string>, reimbursable: Option<ExportType>, ccc: Option<ExportType>,
                 ids: seq<nat>, id: nat)
    requires Exist(table, ids) && SameKey(table, fields, ids) && id in ids
    ensures var s := Sift(table, fields, reimbursable, ccc, ids);
            Fate(table, id, Whole(fields, reimbursable, ccc, Sum(table, ids)), id in s.kept, id in s.skipped)
  {
    if "spent_at" in fields {
      BucketsNetTheWholeGroup(table, fields, ids);
    }
  }

  lemma FilterFateSnoc(table: Table, ids: seq<nat>, fields: seq<string>, reimbursable: Option<ExportType>,
                       ccc: Option<ExportType>, groups: seq<seq<nat>>, id: nat)
    requires groups != []
    ensures var front, last := groups[..|groups| - 1], groups[|groups| - 1];
            var before, f := FilterGroups(table, ids, fields, reimbursable, ccc, front),
                             FilterGroups(table, ids, fields, reimbursable, ccc, groups);
            var s := Sift(table, fields, reimbursable, ccc, Pick(table, Listed(last), ids));
            && (Covered(f.kept, id) <==> Covered(before.kept, id) || id in s.kept)
            && (id in f.skipped <==> id in before.skipped || id in s.skipped)
  {
    var front, last := groups[..|groups| - 1], groups[|groups| - 1];
    var before := FilterGroups(table, ids, fields, reimbursable, ccc, front);
    var s := Sift(table, fields, reimbursable, ccc, Pick(table, Listed(last), ids));
    UnionOfMore(before.kept, s.kept);
    InUnion(before.kept, id);
    InUnion(before.kept + AsGroups(s.kept), id);
    assert id in s.kept <==> id in Elems(s.kept);
  }

  lemma SiftOfOthers(table: Table, fields: seq<string>, reimbursable: Option<ExportType>, ccc: Option<ExportType>,
                     ids: seq<nat>, id: nat)
    requires Exist(table, ids) && SameKey(table, fields, ids) && id !in ids
    ensures var s := Sift(table, fields, reimbursable, ccc, ids); id !in s.kept && id !in s.skipped
  {
    SiftCases(table, fields, reimbursable, ccc, ids);
  }

  /** The groups of the query over listed rows. */
  ghost predicate QueryOf(table: Table, ids: seq<nat>, fields: seq<string>, groups: seq<seq<nat>>) {
    && Exist(table, ids) && Separated(table, fields, groups)
    && forall i :: 0 <= i < |groups| ==> Elems(groups[i]) <= Elems(ids)
  }

  lemma FrontOfQuery(table: Table, ids: seq<nat>, fields: seq<string>, groups: seq<seq<nat>>)
    requires groups != [] && QueryOf(table, ids, fields, groups)
    ensures QueryOf(table, ids, fields, groups[..|groups| - 1])
  {
  }

  lemma RowsOfLast(table: Table, ids: seq<nat>, fields: seq<string>, groups: seq<seq<nat>>, id: nat)
    requires groups != [] && QueryOf(table, ids, fields, groups)
    ensures var last := groups[|groups| - 1];
            var members := Pick(table, Listed(last), ids);
            Exist(table, members) && SameKey(table, fields, members) && (id in members <==> id in last)
  {
    var last := groups[|groups| - 1];
    var members := Pick(table, Listed(last), ids);
    SameRows(table, ids, last);
    SameKeyOfPart(table, fields, members, last);
    assert id in members <==> id in Elems(members);
    assert id in last <==> id in Elems(last);
  }

  lemma {:induction false} FilterPassesOver(table: Table, ids: seq<nat>, fields: seq<string>,
                                            reimbursable: Option<ExportType>, ccc: Option<ExportType>,
                                            groups: seq<seq<nat>>, id: nat)
    requires QueryOf(table, ids, fields, groups) && id !in Union(groups)
    ensures var f := FilterGroups(table, ids, fields, reimbursable, ccc, groups);
            !Covered(f.kept, id) && id !in f.skipped
  {
    if groups == [] {
    } else {
      var n := |groups| - 1;
      LastOfGroups(groups);
      FrontOfQuery(table, ids, fields, groups);
      RowsOfLast(table, ids, fields, groups, id);
      FilterPassesOver(table, ids, fields, reimbursable, ccc, groups[..n], id);
      assert id !in groups[n] by {
        assert id !in Elems(groups[n]);
      }
      SiftOfOthers(table, fields, reimbursable, ccc, Pick(table, Listed(groups[n]), ids), id);
      FilterFateSnoc(table, ids, fields, reimbursable, ccc, groups, id);
    }
  }

  lemma OfOneGroup(table: Table, fields: seq<string>, groups: seq<seq<nat>>, k: nat, id: nat)
    requires Separated(table, fields, groups) && k < |groups| && id in groups[k]
    ensures k < |groups| - 1 ==> id !in groups[|groups| - 1]
    ensures k == |groups| - 1 ==> id !in Union(groups[..k])
  {
    ApartFromEarlier(table, fields, groups);
  }

  /** A row of the k-th group is kept or skipped by the total of the listed rows of that group. */
  lemma {:induction false} FilterFate(table: Table, ids: seq<nat>, fields: seq<string>,
                                      reimbursable: Option<ExportType>, ccc: Option<ExportType>,
                                      groups: seq<seq<nat>>, k: nat, id: nat)
    requires QueryOf(table, ids, fields, groups) && k < |groups| && id in groups[k]
    ensures var f := FilterGroups(table, ids, fields, reimbursable, ccc, groups);
            Fate(table, id, Whole(fields, reimbursable, ccc, Sum(table, Pick(table, Listed(groups[k]), ids))),
                 Covered(f.kept, id), id in f.skipped)
  {
    var n := |groups| - 1;
    OfOneGroup(table, fields, groups, k, id);
    FrontOfQuery(table, ids, fields, groups);
    RowsOfLast(table, ids, fields, groups, id);
    FilterFateSnoc(table, ids, fields, reimbursable, ccc, groups, id);
    var members := Pick(table, Listed(groups[n]), ids);
    if k == n {
      FilterPassesOver(table, ids, fields, reimbursable, ccc, groups[..n], id);
      SiftFate(table, fields, reimbursable, ccc, members, id);
    } else {
      assert groups[..n][k] == groups[k];
      FilterFate(table, ids, fields, reimbursable, ccc, groups[..n], k, id);
      SiftOfOthers(table, fields, reimbursable, ccc, members, id);
    }
  }

  // ---------------------------------------------------------------- created groups, over the columns

  predicate FromBank(d: Details) {
    d.bankTransactionId.Some? && d.bankTransactionId.value != ""
  }

  /** The fields a row is grouped by: split charges from the bank by their transaction instead of by expense. */
  predicate Uses(st: Settings, d: Details, f: string) {
    match d.fundSource
    case PERSONAL => f in st.reimbursableFields
    case CCC =>
      if st.ccc == Some(CREDIT_CARD_CHARGE) && st.splitIntoLines && FromBank(d)
      then (f in st.cccFields && f != "expense_id" && f != "expense_number") || f == "bank_transaction_id"
      else f in st.cccFields
  }

  /** Two rows are of one source and agree on every field that either of them is grouped by. */
  ghost predicate Together(table: Table, st: Settings, a: nat, b: nat) {
    && a in table && b in table && table[a].details.fundSource == table[b].details.fundSource
    && forall f :: Uses(st, table[a].details, f) || Uses(st, table[b].details, f) ==>
         SameIn(f, a, table[a].details, b, table[b].details)
  }

  lemma AgreeIsTogether(table: Table, st: Settings, fields: seq<string>, a: nat, b: nat)
    requires a in table && b in table && table[a].details.fundSource == table[b].details.fundSource
    requires forall f :: Uses(st, table[a].details, f) <==> f in fields
    requires forall f :: Uses(st, table[b].details, f) <==> f in fields
    ensures KeyOf(table, fields, a) == KeyOf(table, fields, b) <==> Together(table, st, a, b)
  {
    KeyIsAgreement(table, fields, a, b);
  }

  lemma SharedConcat(x: seq<seq<nat>>, y: seq<seq<nat>>, a: nat, b: nat)
    ensures Covered(x + y, a) <==> Covered(x, a) || Covered(y, a)
    ensures Shared(x + y, a, b) <==> Shared(x, a, b) || Shared(y, a, b)
  {
    var all := x + y;
    assert forall i :: 0 <= i < |x| ==> all[i] == x[i];
    assert forall i :: 0 <= i < |y| ==> all[|x| + i] == y[i];
  }

  /** Lists of which no row is in both: sharing is sharing in one of them. */
  lemma SharedInOne(x: seq<seq<nat>>, y: seq<seq<nat>>, a: nat, b: nat)
    requires !(Covered(x, a) && Covered(y, a)) && !(Covered(x, b) && Covered(y, b))
    requires Covered(x + y, a) && Covered(x + y, b)
    ensures Covered(x, a) && Covered(x, b) ==> (Shared(x + y, a, b) <==> Shared(x, a, b))
    ensures Covered(y, a) && Covered(y, b) ==> (Shared(x + y, a, b) <==> Shared(y, a, b))
    ensures !(Covered(x, a) && Covered(x, b)) && !(Covered(y, a) && Covered(y, b)) ==> !Shared(x + y, a, b)
  {
    SharedConcat(x, y, a, b);
  }

  /** The rows of a source, with the fields they are grouped by. */
  lemma PersonalLists(table: Table, st: Settings, ids: seq<nat>)
    ensures Separated(table, st.reimbursableFields, PersonalPart(table, st, ids).kept)
    ensures forall id :: Covered(PersonalPart(table, st, ids).kept, id) ==> Holds(table, FundedBy(PERSONAL), id)
    ensures forall id :: id in PersonalPart(table, st, ids).skipped ==> Holds(table, FundedBy(PERSONAL), id)
  {
    var personal := Pick(table, FundedBy(PERSONAL), ids);
    PickExists(table, FundedBy(PERSONAL), ids);
    GroupByIsGroupBy(table, st.reimbursableFields, personal);
    FilterSeparates(table, personal, st.reimbursableFields, st.reimbursable, None,
                    GroupBy(table, st.reimbursableFields, personal));
    PersonalPartSplits(table, st, ids);
    OfTheWhole(table, PersonalPart(table, st, ids).kept, PersonalPart(table, st, ids).skipped, personal);
  }

  lemma OfTheWhole(table: Table, kept: seq<seq<nat>>, skipped: seq<nat>, ids: seq<nat>)
    requires Splits(table, kept, skipped, Elems(ids))
    ensures forall id :: Covered(kept, id) || id in skipped ==> id in ids
  {
    forall id | Covered(kept, id) ensures id in ids {
      var i :| 0 <= i < |kept| && id in kept[i];
      assert id in Elems(kept[i]);
    }
  }

  lemma CardLists(table: Table, st: Settings, ids: seq<nat>)
    ensures forall id :: Covered(CardPart(table, st, ids).kept, id) ==> Holds(table, FundedBy(CCC), id)
    ensures forall id :: id in CardPart(table, st, ids).skipped ==> Holds(table, FundedBy(CCC), id)
  {
    CardPartSplits(table, st, ids);
    OfTheWhole(table, CardPart(table, st, ids).kept, CardPart(table, st, ids).skipped,
               Pick(table, FundedBy(CCC), ids));
  }

  lemma PersonalTogether(table: Table, st: Settings, ids: seq<nat>, a: nat, b: nat)
    requires Covered(PersonalPart(table, st, ids).kept, a) && Covered(PersonalPart(table, st, ids).kept, b)
    ensures Shared(PersonalPart(table, st, ids).kept, a, b) <==> Together(table, st, a, b)
  {
    PersonalLists(table, st, ids);
    assert Holds(table, FundedBy(PERSONAL), a) && Holds(table, FundedBy(PERSONAL), b);
    SharedExactly(table, st.reimbursableFields, PersonalPart(table, st, ids).kept, a, b);
    AgreeIsTogether(table, st, st.reimbursableFields, a, b);
  }

  lemma PlainCardsTogether(table: Table, st: Settings, ids: seq<nat>, a: nat, b: nat)
    requires !(st.ccc == Some(CREDIT_CARD_CHARGE) && st.splitIntoLines)
    requires Covered(CardPart(table, st, ids).kept, a) && Covered(CardPart(table, st, ids).kept, b)
    ensures Shared(CardPart(table, st, ids).kept, a, b) <==> Together(table, st, a, b)
  {
    var cards := Pick(table, FundedBy(CCC), ids);
    PickExists(table, FundedBy(CCC), ids);
    GroupByIsGroupBy(table, st.cccFields, cards);
    CardLists(table, st, ids);
    assert Holds(table, FundedBy(CCC), a) && Holds(table, FundedBy(CCC), b);
    if st.ccc == Some(BILL) {
      FilterSeparates(table, cards, st.cccFields, None, st.ccc, GroupBy(table, st.cccFields, cards));
    }
    SharedExactly(table, st.cccFields, CardPart(table, st, ids).kept, a, b);
    AgreeIsTogether(table, st, st.cccFields, a, b);
  }

  lemma QueryHolds(table: Table, c: Cond, fields: seq<string>, ids: seq<nat>)
    ensures Separated(table, fields, GroupBy(table, fields, Pick(table, c, ids)))
    ensures forall id :: Covered(GroupBy(table, fields, Pick(table, c, ids)), id) <==> id in ids && Holds(table, c, id)
  {
    var rows := Pick(table, c, ids);
    PickExists(table, c, ids);
    GroupByIsGroupBy(table, fields, rows);
    QuerySplits(table, fields, rows);
    OfTheWhole(table, GroupBy(table, fields, rows), [], rows);
    forall id | id in rows ensures Covered(GroupBy(table, fields, rows), id) {
      assert id in Elems(rows);
    }
  }

  lemma BankedApart(table: Table, st: Settings, a: nat, b: nat)
    requires st.ccc == Some(CREDIT_CARD_CHARGE) && st.splitIntoLines
    requires Holds(table, FundedBy(CCC), a) && Holds(table, FundedBy(CCC), b)
    requires FromBank(table[a].details) != FromBank(table[b].details)
    ensures !Together(table, st, a, b)
  {
    var f := "bank_transaction_id";
    assert Uses(st, table[a].details, f) || Uses(st, table[b].details, f);
    assert !SameIn(f, a, table[a].details, b, table[b].details);
  }

  /** The two queries of split charges over the cards of a source. */
  function Plain(table: Table, st: Settings, ids: seq<nat>): seq<seq<nat>> {
    GroupBy(table, st.cccFields, Pick(table, Unbanked, Pick(table, FundedBy(CCC), ids)))
  }

  function FromBanks(table: Table, st: Settings, ids: seq<nat>): seq<seq<nat>> {
    GroupBy(table, SplitFields(st.cccFields), Pick(table, Banked, Pick(table, FundedBy(CCC), ids)))
  }

  lemma SplitLists(table: Table, st: Settings, ids: seq<nat>, id: nat)
    requires st.ccc == Some(CREDIT_CARD_CHARGE) && st.splitIntoLines
    ensures CardPart(table, st, ids).kept == Plain(table, st, ids) + FromBanks(table, st, ids)
    ensures Separated(table, st.cccFields, Plain(table, st, ids))
    ensures Separated(table, SplitFields(st.cccFields), FromBanks(table, st, ids))
    ensures Covered(Plain(table, st, ids), id) <==>
              id in ids && Holds(table, FundedBy(CCC), id) && !FromBank(table[id].details)
    ensures Covered(FromBanks(table, st, ids), id) <==>
              id in ids && Holds(table, FundedBy(CCC), id) && FromBank(table[id].details)
  {
    var cards := Pick(table, FundedBy(CCC), ids);
    QueryHolds(table, Unbanked, st.cccFields, cards);
    QueryHolds(table, Banked, SplitFields(st.cccFields), cards);
  }

  /** Split charges: rows from the bank share a group by transaction, the others by the card fields, never both. */
  lemma SplitCardsTogether(table: Table, st: Settings, ids: seq<nat>, a: nat, b: nat)
    requires st.ccc == Some(CREDIT_CARD_CHARGE) && st.splitIntoLines
    requires Covered(CardPart(table, st, ids).kept, a) && Covered(CardPart(table, st, ids).kept, b)
    ensures Shared(CardPart(table, st, ids).kept, a, b) <==> Together(table, st, a, b)
  {
    var plain, banked := Plain(table, st, ids), FromBanks(table, st, ids);
    SplitLists(table, st, ids, a);
    SplitLists(table, st, ids, b);
    SharedConcat(plain, banked, a, b);
    SharedConcat(plain, banked, b, a);
    SharedInOne(plain, banked, a, b);
    if FromBank(table[a].details) != FromBank(table[b].details) {
      BankedApart(table, st, a, b);
    } else if FromBank(table[a].details) {
      SharedExactly(table, SplitFields(st.cccFields), banked, a, b);
      AgreeIsTogether(table, st, SplitFields(st.cccFields), a, b);
    } else {
      SharedExactly(table, st.cccFields, plain, a, b);
      AgreeIsTogether(table, st, st.cccFields, a, b);
    }
  }

  lemma CardsTogether(table: Table, st: Settings, ids: seq<nat>, a: nat, b: nat)
    requires Covered(CardPart(table, st, ids).kept, a) && Covered(CardPart(table, st, ids).kept, b)
    ensures Shared(CardPart(table, st, ids).kept, a, b) <==> Together(table, st, a, b)
  {
    if st.ccc == Some(CREDIT_CARD_CHARGE) && st.splitIntoLines {
      SplitCardsTogether(table, st, ids, a, b);
    } else {
      PlainCardsTogether(table, st, ids, a, b);
    }
  }

  /**
   Rows that are grouped share a group exactly when they are of one source and agree on every field they are grouped
   by: of an expense-keyed list each is on its own, of a split charge all those of one bank transaction are together.
   */
  lemma CreatedTogetherExactly(table: Table, st: Settings, ids: seq<nat>, a: nat, b: nat)
    requires CreateGroups(table, st, ids).Success?
    requires var lists := Lists(CreateGroups(table, st, ids).value.groups); Covered(lists, a) && Covered(lists, b)
    ensures Shared(Lists(CreateGroups(table, st, ids).value.groups), a, b) <==> Together(table, st, a, b)
  {
    var p, c := PersonalPart(table, st, ids).kept, CardPart(table, st, ids).kept;
    ListsOfLabel(PERSONAL, p, CCC, c);
    SharedConcat(p, c, a, b);
    SharedConcat(p, c, b, a);
    SourceOfCovered(table, st, ids, a);
    SourceOfCovered(table, st, ids, b);
    SharedInOne(p, c, a, b);
    if table[a].details.fundSource == table[b].details.fundSource == PERSONAL {
      PersonalTogether(table, st, ids, a, b);
    } else if table[a].details.fundSource == table[b].details.fundSource {
      CardsTogether(table, st, ids, a, b);
    }
  }

  lemma SourceOfCovered(table: Table, st: Settings, ids: seq<nat>, id: nat)
    ensures Covered(PersonalPart(table, st, ids).kept, id) ==> Holds(table, FundedBy(PERSONAL), id)
    ensures Covered(CardPart(table, st, ids).kept, id) ==> Holds(table, FundedBy(CCC), id)
  {
    PersonalLists(table, st, ids);
    CardLists(table, st, ids);
  }

  // ---------------------------------------------------------------- what becomes of a row

  /** The total of the listed rows that go with this one, a repeated row counted as often as it is listed. */
  ghost function PeersTotal(table: Table, st: Settings, ids: seq<nat>, id: nat): int {
    if ids == [] then 0
    else
      var last := ids[|ids| - 1];
      var before := PeersTotal(table, st, ids[..|ids| - 1], id);
      if Together(table, st, id, last) then before + table[last].details.amount else before
  }

  /**
   A row is kept whatever its sign: for a journal entry; for a bill or expense report that is not keyed by expense when
   its group does not total below zero; for any other card export.
   */
  predicate KeptWhole(st: Settings, source: FundSource, total: int) {
    match source
    case PERSONAL =>
      if st.reimbursable == Some(EXPENSE_REPORT) || st.reimbursable == Some(BILL)
      then "expense_id" !in st.reimbursableFields && total >= 0
      else st.reimbursable == Some(JOURNAL_ENTRY)
    case CCC => st.ccc == Some(BILL) ==> "expense_id" !in st.cccFields && total >= 0
  }

  /** The fields that every row of the source is grouped by. */
  ghost predicate FieldsOf(table: Table, st: Settings, source: FundSource, fields: seq<string>) {
    forall x, f :: Holds(table, FundedBy(source), x) ==> (Uses(st, table[x].details, f) <==> f in fields)
  }

  lemma PeerOfKey(table: Table, st: Settings, source: FundSource, fields: seq<string>, id: nat, x: nat)
    requires Holds(table, FundedBy(source), id) && FieldsOf(table, st, source, fields)
    ensures Together(table, st, id, x) <==>
            Holds(table, FundedBy(source), x) && KeyOf(table, fields, x) == KeyOf(table, fields, id)
  {
    if Holds(table, FundedBy(source), x) {
      AgreeIsTogether(table, st, fields, id, x);
    }
  }

  lemma {:induction false} PeersOfKey(table: Table, st: Settings, source: FundSource, fields: seq<string>,
                                      ids: seq<nat>, id: nat)
    requires Holds(table, FundedBy(source), id) && FieldsOf(table, st, source, fields)
    ensures PeersTotal(table, st, ids, id) ==
              Sum(table, Pick(table, Keyed(fields, KeyOf(table, fields, id)), Pick(table, FundedBy(source), ids)))
  {
    if ids == [] {
    } else {
      var front, last := ids[..|ids| - 1], ids[|ids| - 1];
      PeersOfKey(table, st, source, fields, front, id);
      PeerOfKey(table, st, source, fields, id, last);
      KeyedSnoc(table, Keyed(fields, KeyOf(table, fields, id)), FundedBy(source), ids);
    }
  }

  lemma KeyedSnoc(table: Table, c: Cond, d: Cond, ids: seq<nat>)
    requires ids != []
    ensures var front, last := ids[..|ids| - 1], ids[|ids| - 1];
            Sum(table, Pick(table, c, Pick(table, d, ids))) ==
              Sum(table, Pick(table, c, Pick(table, d, front)))
              + if Holds(table, d, last) && Holds(table, c, last) then table[last].details.amount else 0
  {
    SumPickSnoc(table, c, Pick(table, d, ids[..|ids| - 1]), ids[|ids| - 1]);
  }

  lemma GroupIsPicked(table: Table, fields: seq<string>, ids: seq<nat>, k: nat)
    requires Exist(table, ids) && k < |GroupBy(table, fields, ids)|
    ensures Pick(table, Listed(GroupBy(table, fields, ids)[k]), ids) ==
              Pick(table, Keyed(fields, GroupKeys(table, fields, ids)[k]), ids)
  {
    GroupByMembers(table, fields, ids, k);
    PickSame(table, Listed(GroupBy(table, fields, ids)[k]), Keyed(fields, GroupKeys(table, fields, ids)[k]), ids);
  }

  lemma GroupOfRow(table: Table, fields: seq<string>, ids: seq<nat>, id: nat) returns (k: nat)
    requires Exist(table, ids) && id in ids
    ensures k < |GroupBy(table, fields, ids)| && id in GroupBy(table, fields, ids)[k]
    ensures Pick(table, Listed(GroupBy(table, fields, ids)[k]), ids) ==
              Pick(table, Keyed(fields, KeyOf(table, fields, id)), ids)
  {
    var keys := GroupKeys(table, fields, ids);
    KeyAmongKeys(table, fields, ids, id);
    k :| 0 <= k < |keys| && keys[k] == KeyOf(table, fields, id);
    GroupByMembers(table, fields, ids, k);
    GroupIsPicked(table, fields, ids, k);
  }

  lemma QueryIsQueryOf(table: Table, fields: seq<string>, ids: seq<nat>)
    requires Exist(table, ids)
    ensures QueryOf(table, ids, fields, GroupBy(table, fields, ids))
  {
    GroupByIsGroupBy(table, fields, ids);
  }

  lemma FilteredFate(table: Table, st: Settings, ids: seq<nat>, source: FundSource, fields: seq<string>,
                     reimbursable: Option<ExportType>, ccc: Option<ExportType>, id: nat)
    requires id in ids && Holds(table, FundedBy(source), id)
    requires FieldsOf(table, st, source, fields)
    ensures var rows := Pick(table, FundedBy(source), ids);
            var f := FilterGroups(table, rows, fields, reimbursable, ccc, GroupBy(table, fields, rows));
            Fate(table, id, Whole(fields, reimbursable, ccc, PeersTotal(table, st, ids, id)), Covered(f.kept, id),
                 id in f.skipped)
  {
    var rows := Pick(table, FundedBy(source), ids);
    PickExists(table, FundedBy(source), ids);
    QueryIsQueryOf(table, fields, rows);
    var k := GroupOfRow(table, fields, rows, id);
    FilterFate(table, rows, fields, reimbursable, ccc, GroupBy(table, fields, rows), k, id);
    PeersOfKey(table, st, source, fields, ids, id);
  }

  lemma PersonalFate(table: Table, st: Settings, ids: seq<nat>, id: nat)
    requires id in ids && Holds(table, FundedBy(PERSONAL), id)
    ensures var p := PersonalPart(table, st, ids);
            Fate(table, id, KeptWhole(st, PERSONAL, PeersTotal(table, st, ids, id)), Covered(p.kept, id),
                 id in p.skipped)
  {
    FilteredFate(table, st, ids, PERSONAL, st.reimbursableFields, st.reimbursable, None, id);
  }

  lemma CardFate(table: Table, st: Settings, ids: seq<nat>, id: nat)
    requires id in ids && Holds(table, FundedBy(CCC), id)
    ensures var c := CardPart(table, st, ids);
            Fate(table, id, KeptWhole(st, CCC, PeersTotal(table, st, ids, id)), Covered(c.kept, id), id in c.skipped)
  {
    if st.ccc == Some(BILL) {
      FilteredFate(table, st, ids, CCC, st.cccFields, None, st.ccc, id);
    } else if st.ccc == Some(CREDIT_CARD_CHARGE) && st.splitIntoLines {
      SplitLists(table, st, ids, id);
      SharedConcat(Plain(table, st, ids), FromBanks(table, st, ids), id, id);
    } else {
      QueryHolds(table, FundedBy(CCC), st.cccFields, ids);
    }
  }

  /**
   What becomes of each imported row: it is grouped when it is a charge or its group is kept whole, skipped when it is
   a refund and its group is not, and dropped when it is a zero amount and its group is not.
   */
  lemma RowFate(table: Table, st: Settings, ids: seq<nat>, id: nat)
    requires CreateGroups(table, st, ids).Success? && id in ids && id in table
    ensures var c := CreateGroups(table, st, ids).value;
            Fate(table, id, KeptWhole(st, table[id].details.fundSource, PeersTotal(table, st, ids, id)),
                 Covered(Lists(c.groups), id), id in c.skipped)
  {
    var p, c := PersonalPart(table, st, ids), CardPart(table, st, ids);
    ListsOfLabel(PERSONAL, p.kept, CCC, c.kept);
    SharedConcat(p.kept, c.kept, id, id);
    PersonalLists(table, st, ids);
    CardLists(table, st, ids);
    if table[id].details.fundSource == PERSONAL {
      PersonalFate(table, st, ids, id);
    } else {
      CardFate(table, st, ids, id);
    }
  }
}
