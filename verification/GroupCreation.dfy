/** Creating expense groups: the personal, card, vendor-bill and split-card-charge paths. */
module GroupCreation {
  import opened Common
  import opened Expenses
  import opened Grouping

  datatype Settings = Settings(
    reimbursable: Option<ExportType>,
    ccc: Option<ExportType>,
    reimbursableFields: seq<string>,
    cccFields: seq<string>,
    splitIntoLines: bool)

  datatype NewGroup = NewGroup(fundSource: FundSource, ids: seq<nat>)

  datatype Created = Created(groups: seq<NewGroup>, skipped: seq<nat>)

  // ---------------------------------------------------------------- specification

  /** Split card charges are grouped by bank transaction instead of by expense. */
  function SplitFields(fields: seq<string>): (r: seq<string>)
    ensures forall f :: f in r <==>
              (f in fields && f != "expense_id" && f != "expense_number") || f == "bank_transaction_id"
  {
    Without(fields, {"expense_id", "expense_number"}) + ["bank_transaction_id"]
  }

  predicate SplitsCharges(st: Settings) {
    st.ccc == Some(CREDIT_CARD_CHARGE) && st.splitIntoLines
  }

  function CardGroups(table: Table, st: Settings, cards: seq<nat>): seq<seq<nat>> {
    if SplitsCharges(st) then
      GroupBy(table, st.cccFields, Pick(table, Unbanked, cards))
      + GroupBy(table, SplitFields(st.cccFields), Pick(table, Banked, cards))
    else GroupBy(table, st.cccFields, cards)
  }

  function PersonalPart(table: Table, st: Settings, ids: seq<nat>): Filtered {
    var personal := Pick(table, FundedBy(PERSONAL), ids);
    FilterGroups(table, personal, st.reimbursableFields, st.reimbursable, None,
                 GroupBy(table, st.reimbursableFields, personal))
  }

  function CardPart(table: Table, st: Settings, ids: seq<nat>): Filtered {
    var cards := Pick(table, FundedBy(CCC), ids);
    if st.ccc == Some(BILL) then
      FilterGroups(table, cards, st.cccFields, None, st.ccc, CardGroups(table, st, cards))
    else Filtered(CardGroups(table, st, cards), [])
  }

  function Label(f: FundSource, lists: seq<seq<nat>>): (r: seq<NewGroup>)
    ensures |r| == |lists|
  {
    seq(|lists|, i requires 0 <= i < |lists| => NewGroup(f, lists[i]))
  }

  /** A group description without fund_source cannot be stored: the lookup raises. */
  predicate Storable(fields: seq<string>, lists: seq<seq<nat>>) {
    lists == [] || "fund_source" in fields
  }

  function CreateGroups(table: Table, st: Settings, ids: seq<nat>): Result<Created> {
    var p := PersonalPart(table, st, ids);
    var c := CardPart(table, st, ids);
    if Storable(st.reimbursableFields, p.kept) && Storable(st.cccFields, c.kept) then
      Success(Created(Label(PERSONAL, p.kept) + Label(CCC, c.kept), p.skipped + c.skipped))
    else Failure
  }

  // ---------------------------------------------------------------- partition and sign

  function Lists(groups: seq<NewGroup>): (r: seq<seq<nat>>)
    ensures |r| == |groups|
  {
    seq(|groups|, i requires 0 <= i < |groups| => groups[i].ids)
  }

  lemma ListsOfLabel(f: FundSource, lists: seq<seq<nat>>, g: FundSource, lists': seq<seq<nat>>)
    ensures Lists(Label(f, lists) + Label(g, lists')) == lists + lists'
  {
  }

  /** The groups of the query, unfiltered, split their rows. */
  lemma QuerySplits(table: Table, fields: seq<string>, ids: seq<nat>)
    requires Exist(table, ids)
    ensures Splits(table, GroupBy(table, fields, ids), [], Elems(ids))
  {
    GroupByIsGroupBy(table, fields, ids);
    var groups := GroupBy(table, fields, ids);
    forall i, j | 0 <= i < j < |groups| ensures Elems(groups[i]) !! Elems(groups[j]) {
      forall id | id in groups[i] ensures id !in groups[j] {
        assert id in groups[j] ==> KeyOf(table, fields, id) != KeyOf(table, fields, id);
      }
    }
  }

  lemma PickExists(table: Table, c: Cond, ids: seq<nat>)
    ensures Exist(table, Pick(table, c, ids))
  {
    forall id | id in Pick(table, c, ids) ensures id in table {
      assert Holds(table, c, id);
    }
  }

  lemma CardGroupsSplit(table: Table, st: Settings, cards: seq<nat>)
    requires Exist(table, cards)
    ensures Splits(table, CardGroups(table, st, cards), [], Elems(cards))
  {
    if SplitsCharges(st) {
      var plain, banked := Pick(table, Unbanked, cards), Pick(table, Banked, cards);
      PickExists(table, Unbanked, cards);
      PickExists(table, Banked, cards);
      QuerySplits(table, st.cccFields, plain);
      QuerySplits(table, SplitFields(st.cccFields), banked);
      assert Elems(plain) !! Elems(banked) by {
        assert forall id :: id in plain ==> Holds(table, Unbanked, id);
        assert forall id :: id in banked ==> Holds(table, Banked, id);
      }
      SplitsJoin(table, GroupBy(table, st.cccFields, plain), [], Elems(plain),
                 GroupBy(table, SplitFields(st.cccFields), banked), [], Elems(banked));
      assert Elems(plain) + Elems(banked) == Elems(cards);
      var none: seq<nat> := [];
      assert none + none == none;
    } else {
      QuerySplits(table, st.cccFields, cards);
    }
  }

  /** The lists have no duplicates unless whole has. */
  ghost predicate DistinctAs(lists: seq<seq<nat>>, whole: seq<nat>) {
    forall i :: 0 <= i < |lists| && NoDup(whole) ==> NoDup(lists[i])
  }

  lemma DistinctAsPart(lists: seq<seq<nat>>, part: seq<nat>, whole: seq<nat>)
    requires EachAsOften(lists, part) && AsOften(part, whole)
    ensures DistinctAs(lists, whole)
  {
    forall i | 0 <= i < |lists| && NoDup(whole) ensures NoDup(lists[i]) {
      AsOftenTransitive(lists[i], part, whole);
      AsOftenOfDistinct(lists[i], whole);
    }
  }

  lemma PersonalPartOnce(table: Table, st: Settings, ids: seq<nat>)
    ensures var p := PersonalPart(table, st, ids);
            AsOften(p.skipped, ids) && DistinctAs(p.kept, ids)
  {
    var personal, p := Pick(table, FundedBy(PERSONAL), ids), PersonalPart(table, st, ids);
    PickExists(table, FundedBy(PERSONAL), ids);
    PickAsOften(table, FundedBy(PERSONAL), ids);
    GroupByIsGroupBy(table, st.reimbursableFields, personal);
    FilterSplits(table, personal, st.reimbursableFields, st.reimbursable, None,
                 GroupBy(table, st.reimbursableFields, personal));
    AsOftenTransitive(p.skipped, personal, ids);
    DistinctAsPart(p.kept, personal, ids);
  }

  lemma CardPartOnce(table: Table, st: Settings, ids: seq<nat>)
    ensures var c := CardPart(table, st, ids);
            AsOften(c.skipped, ids) && DistinctAs(c.kept, ids)
  {
    var cards, c := Pick(table, FundedBy(CCC), ids), CardPart(table, st, ids);
    PickExists(table, FundedBy(CCC), ids);
    if st.ccc == Some(BILL) {
      PickAsOften(table, FundedBy(CCC), ids);
      GroupByIsGroupBy(table, st.cccFields, cards);
      FilterSplits(table, cards, st.cccFields, None, st.ccc, GroupBy(table, st.cccFields, cards));
      AsOftenTransitive(c.skipped, cards, ids);
      DistinctAsPart(c.kept, cards, ids);
    } else {
      CardGroupsDistinct(table, st, cards);
    }
  }

  lemma CardGroupsDistinct(table: Table, st: Settings, cards: seq<nat>)
    requires Exist(table, cards)
    ensures forall i :: 0 <= i < |CardGroups(table, st, cards)| ==> NoDup(CardGroups(table, st, cards)[i])
  {
    var plain, banked := Pick(table, Unbanked, cards), Pick(table, Banked, cards);
    PickExists(table, Unbanked, cards);
    PickExists(table, Banked, cards);
    GroupByIsGroupBy(table, st.cccFields, plain);
    GroupByIsGroupBy(table, SplitFields(st.cccFields), banked);
    GroupByIsGroupBy(table, st.cccFields, cards);
  }

  lemma PersonalPartSplits(table: Table, st: Settings, ids: seq<nat>)
    ensures var p := PersonalPart(table, st, ids);
            && Splits(table, p.kept, p.skipped, Elems(Pick(table, FundedBy(PERSONAL), ids)))
            && (st.reimbursable != Some(JOURNAL_ENTRY) ==> NonNegative(table, p.kept))
  {
    var personal := Pick(table, FundedBy(PERSONAL), ids);
    PickExists(table, FundedBy(PERSONAL), ids);
    GroupByIsGroupBy(table, st.reimbursableFields, personal);
    FilterSplits(table, personal, st.reimbursableFields, st.reimbursable, None,
                 GroupBy(table, st.reimbursableFields, personal));
  }

  lemma CardPartSplits(table: Table, st: Settings, ids: seq<nat>)
    ensures var c := CardPart(table, st, ids);
            && Splits(table, c.kept, c.skipped, Elems(Pick(table, FundedBy(CCC), ids)))
            && (st.ccc == Some(BILL) ==> NonNegative(table, c.kept))
  {
    var cards := Pick(table, FundedBy(CCC), ids);
    PickExists(table, FundedBy(CCC), ids);
    CardGroupsSplit(table, st, cards);
    if st.ccc == Some(BILL) {
      GroupByIsGroupBy(table, st.cccFields, cards);
      FilterSplits(table, cards, st.cccFields, None, st.ccc, GroupBy(table, st.cccFields, cards));
    }
  }

  /** Each created group carries the fund source of all its members. */
  ghost predicate Homogeneous(table: Table, groups: seq<NewGroup>) {
    forall i, id :: 0 <= i < |groups| && id in groups[i].ids ==>
      id in table && table[id].details.fundSource == groups[i].fundSource
  }

  /** A refund is skipped as often as it was listed, and no group lists a row twice unless the input does. */
  ghost predicate AsListed(c: Created, ids: seq<nat>) {
    AsOften(c.skipped, ids) && DistinctAs(Lists(c.groups), ids) && (NoDup(ids) ==> NoDup(c.skipped))
  }

  lemma CreatedAsListed(table: Table, st: Settings, ids: seq<nat>)
    requires Exist(table, ids) && CreateGroups(table, st, ids).Success?
    ensures AsListed(CreateGroups(table, st, ids).value, ids)
  {
    var p, c := PersonalPart(table, st, ids), CardPart(table, st, ids);
    PersonalPartSplits(table, st, ids);
    CardPartSplits(table, st, ids);
    SourcesSplit(table, ids);
    PersonalPartOnce(table, st, ids);
    CardPartOnce(table, st, ids);
    assert Elems(p.skipped) !! Elems(c.skipped) by {
      assert Elems(p.skipped) <= Elems(Pick(table, FundedBy(PERSONAL), ids));
      assert Elems(c.skipped) <= Elems(Pick(table, FundedBy(CCC), ids));
    }
    AsOftenConcat(p.skipped, c.skipped, ids);
    ListsOfLabel(PERSONAL, p.kept, CCC, c.kept);
    if NoDup(ids) {
      AsOftenOfDistinct(p.skipped + c.skipped, ids);
    }
  }

  /**
   Group creation partitions its input: each id is in exactly one created group, skipped as a refund, or a
   dropped zero amount, never two of these, and listed there once if it came in once; every group is of one fund
   source. A refund whose row comes in several times is skipped as many times.
   */
  lemma CreationPartitions(table: Table, st: Settings, ids: seq<nat>)
    requires Exist(table, ids) && CreateGroups(table, st, ids).Success?
    ensures var c := CreateGroups(table, st, ids).value;
            Splits(table, Lists(c.groups), c.skipped, Elems(ids)) && AsListed(c, ids) && Homogeneous(table, c.groups)
  {
    CreatedAsListed(table, st, ids);
    var p, c := PersonalPart(table, st, ids), CardPart(table, st, ids);
    var personal, cards := Pick(table, FundedBy(PERSONAL), ids), Pick(table, FundedBy(CCC), ids);
    PersonalPartSplits(table, st, ids);
    CardPartSplits(table, st, ids);
    SourcesSplit(table, ids);
    SplitsJoin(table, p.kept, p.skipped, Elems(personal), c.kept, c.skipped, Elems(cards));
    ListsOfLabel(PERSONAL, p.kept, CCC, c.kept);
    LabelHomogeneous(table, PERSONAL, p.kept, personal);
    LabelHomogeneous(table, CCC, c.kept, cards);
    HomogeneousConcat(table, Label(PERSONAL, p.kept), Label(CCC, c.kept));
  }

  lemma SourcesSplit(table: Table, ids: seq<nat>)
    requires Exist(table, ids)
    ensures Elems(Pick(table, FundedBy(PERSONAL), ids)) !! Elems(Pick(table, FundedBy(CCC), ids))
    ensures Elems(Pick(table, FundedBy(PERSONAL), ids)) + Elems(Pick(table, FundedBy(CCC), ids)) == Elems(ids)
  {
    forall id | id in ids ensures Holds(table, FundedBy(PERSONAL), id) <==> !Holds(table, FundedBy(CCC), id) {
    }
  }

  lemma HomogeneousConcat(table: Table, a: seq<NewGroup>, b: seq<NewGroup>)
    requires Homogeneous(table, a) && Homogeneous(table, b)
    ensures Homogeneous(table, a + b)
  {
  }

  lemma LabelHomogeneous(table: Table, f: FundSource, lists: seq<seq<nat>>, ids: seq<nat>)
    requires forall i :: 0 <= i < |lists| ==> Elems(lists[i]) <= Elems(ids)
    requires forall id :: id in ids ==> Holds(table, FundedBy(f), id)
    ensures Homogeneous(table, Label(f, lists))
  {
    var groups := Label(f, lists);
    forall i, id | 0 <= i < |groups| && id in groups[i].ids
      ensures id in table && table[id].details.fundSource == groups[i].fundSource
    {
      assert id in Elems(lists[i]) && id in ids;
      assert Holds(table, FundedBy(f), id);
    }
  }

  /** Groups of this source become expense reports or bills. */
  predicate Billed(st: Settings, source: FundSource) {
    match source
    case PERSONAL => st.reimbursable == Some(EXPENSE_REPORT) || st.reimbursable == Some(BILL)
    case CCC => st.ccc == Some(BILL)
  }

  /** The listed rows of an expense report or bill, a repeated row counted as often, never total below zero. */
  lemma ListedTotalsAreNotNegative(table: Table, st: Settings, ids: seq<nat>, i: nat)
    requires CreateGroups(table, st, ids).Success?
    requires i < |CreateGroups(table, st, ids).value.groups|
    ensures var g := CreateGroups(table, st, ids).value.groups[i]; Billed(st, g.fundSource) ==> Sum(table, g.ids) >= 0
  {
    PersonalPartSplits(table, st, ids);
    CardPartSplits(table, st, ids);
    var p, c := PersonalPart(table, st, ids).kept, CardPart(table, st, ids).kept;
    GroupOfPart(p, c, i);
  }

  lemma GroupOfPart(personal: seq<seq<nat>>, cards: seq<seq<nat>>, i: nat)
    requires i < |personal| + |cards|
    ensures (Label(PERSONAL, personal) + Label(CCC, cards))[i] ==
              if i < |personal| then NewGroup(PERSONAL, personal[i]) else NewGroup(CCC, cards[i - |personal|])
  {
  }

  /** Some group of the query over the rows of a source is netted on a total that its repeated rows turn. */
  ghost predicate SkewedSource(table: Table, st: Settings, ids: seq<nat>, source: FundSource) {
    var fields := if source == PERSONAL then st.reimbursableFields else st.cccFields;
    var rows := Pick(table, FundedBy(source), ids);
    Billed(st, source) && "expense_id" !in fields && SomeSkewed(table, rows, GroupBy(table, fields, rows))
  }

  lemma PersonalStoredExactly(table: Table, st: Settings, ids: seq<nat>)
    ensures Billed(st, PERSONAL) ==>
              (NonNegative(table, Stored(PersonalPart(table, st, ids).kept)) <==>
               !SkewedSource(table, st, ids, PERSONAL))
  {
    var personal := Pick(table, FundedBy(PERSONAL), ids);
    PickExists(table, FundedBy(PERSONAL), ids);
    GroupByIsGroupBy(table, st.reimbursableFields, personal);
    if Billed(st, PERSONAL) {
      FilterStoredExactly(table, personal, st.reimbursableFields, st.reimbursable, None,
                          GroupBy(table, st.reimbursableFields, personal));
    }
  }

  lemma CardsStoredExactly(table: Table, st: Settings, ids: seq<nat>)
    ensures Billed(st, CCC) ==>
              (NonNegative(table, Stored(CardPart(table, st, ids).kept)) <==>
               !SkewedSource(table, st, ids, CCC))
  {
    var cards := Pick(table, FundedBy(CCC), ids);
    PickExists(table, FundedBy(CCC), ids);
    GroupByIsGroupBy(table, st.cccFields, cards);
    if Billed(st, CCC) {
      FilterStoredExactly(table, cards, st.cccFields, None, st.ccc, GroupBy(table, st.cccFields, cards));
    }
  }

  /** What a created group stores: its listed rows, each once. */
  function StoredTotal(table: Table, group: NewGroup): int {
    Sum(table, FirstSeen(group.ids))
  }

  ghost predicate BilledNonNegative(table: Table, st: Settings, groups: seq<NewGroup>) {
    forall i :: 0 <= i < |groups| && Billed(st, groups[i].fundSource) ==> StoredTotal(table, groups[i]) >= 0
  }

  lemma BilledParts(table: Table, st: Settings, personal: seq<seq<nat>>, cards: seq<seq<nat>>)
    ensures BilledNonNegative(table, st, Label(PERSONAL, personal) + Label(CCC, cards)) <==>
            && (Billed(st, PERSONAL) ==> NonNegative(table, Stored(personal)))
            && (Billed(st, CCC) ==> NonNegative(table, Stored(cards)))
  {
    var groups := Label(PERSONAL, personal) + Label(CCC, cards);
    forall i | 0 <= i < |personal| ensures groups[i] == NewGroup(PERSONAL, personal[i]) {
    }
    forall i | 0 <= i < |cards| ensures groups[|personal| + i] == NewGroup(CCC, cards[i]) {
    }
    if BilledNonNegative(table, st, groups) {
      forall i | 0 <= i < |personal| && Billed(st, PERSONAL) ensures Sum(table, Stored(personal)[i]) >= 0 {
        assert StoredTotal(table, groups[i]) >= 0;
      }
      forall i | 0 <= i < |cards| && Billed(st, CCC) ensures Sum(table, Stored(cards)[i]) >= 0 {
        assert StoredTotal(table, groups[|personal| + i]) >= 0;
      }
    } else {
      var i :| 0 <= i < |groups| && Billed(st, groups[i].fundSource) && StoredTotal(table, groups[i]) < 0;
      GroupOfPart(personal, cards, i);
      if i < |personal| {
        assert Sum(table, Stored(personal)[i]) < 0;
      } else {
        assert Sum(table, Stored(cards)[i - |personal|]) < 0;
      }
    }
  }

  /**
   The expense reports and bills that are created never store a negative total, exactly when no group of the query
   lists its rows to a total that is not negative while its distinct rows total below zero.
   */
  lemma BillsAndReportsAreNotNegative(table: Table, st: Settings, ids: seq<nat>)
    requires CreateGroups(table, st, ids).Success?
    ensures BilledNonNegative(table, st, CreateGroups(table, st, ids).value.groups) <==>
            !SkewedSource(table, st, ids, PERSONAL) && !SkewedSource(table, st, ids, CCC)
  {
    PersonalStoredExactly(table, st, ids);
    CardsStoredExactly(table, st, ids);
    BilledParts(table, st, PersonalPart(table, st, ids).kept, CardPart(table, st, ids).kept);
  }

  /** An import without repeated rows is never skewed. */
  lemma DistinctImportNotSkewed(table: Table, st: Settings, ids: seq<nat>, source: FundSource)
    requires NoDup(ids)
    ensures !SkewedSource(table, st, ids, source)
  {
    var fields := if source == PERSONAL then st.reimbursableFields else st.cccFields;
    var rows := Pick(table, FundedBy(source), ids);
    PickExists(table, FundedBy(source), ids);
    PickKeepsNoDup(table, FundedBy(source), ids);
    GroupByIsGroupBy(table, fields, rows);
    forall i | 0 <= i < |GroupBy(table, fields, rows)|
      ensures !Skewed(table, rows, GroupBy(table, fields, rows)[i])
    {
      DistinctNotSkewed(table, rows, GroupBy(table, fields, rows)[i]);
    }
  }

  lemma OneGroupQuery(table: Table, fields: seq<string>, ids: seq<nat>)
    requires Exist(table, ids) && ids != [] && SameKey(table, fields, ids)
    ensures GroupBy(table, fields, ids) == [FirstSeen(ids)]
  {
    var rows, key := FirstSeen(ids), KeyOf(table, fields, ids[0]);
    assert ids[0] in rows;
    forall id | id in rows ensures Holds(table, Keyed(fields, key), id) {
      assert id in ids && ids[0] in ids;
    }
    forall i | 0 <= i < |rows| ensures Keys(table, fields, rows)[i] == key {
      assert rows[i] in rows && Holds(table, Keyed(fields, key), rows[i]);
    }
    FirstSeenOfConstant(Keys(table, fields, rows), key);
    PickAll(table, Keyed(fields, key), rows);
  }

  lemma OneGroupFilter(table: Table, fields: seq<string>, ids: seq<nat>)
    requires Exist(table, ids) && ids != [] && SameKey(table, fields, ids)
    requires "expense_id" !in fields && Sum(table, ids) >= 0
    ensures FilterGroups(table, ids, fields, Some(BILL), None, [FirstSeen(ids)]) == Filtered([ids], [])
  {
    var rows := FirstSeen(ids);
    PickAll(table, Listed(rows), ids);
    WholeBill(table, fields, ids);
    FilterSnoc(table, ids, fields, Some(BILL), None, [], rows);
    assert [] + [rows] == [rows];
  }

  lemma WholeBill(table: Table, fields: seq<string>, ids: seq<nat>)
    requires Exist(table, ids) && SameKey(table, fields, ids) && "expense_id" !in fields && Sum(table, ids) >= 0
    ensures Sift(table, fields, Some(BILL), None, ids) == Sifted(ids, [])
  {
    if "spent_at" in fields {
      BucketsNetTheWholeGroup(table, fields, ids);
    }
  }

  lemma {:induction false} NoneHold(table: Table, c: Cond, ids: seq<nat>)
    requires forall id :: id in ids ==> !Holds(table, c, id)
    ensures Pick(table, c, ids) == []
  {
    if ids == [] {
    } else {
      NoneHold(table, c, ids[..|ids| - 1]);
    }
  }

  /** Personal rows of one bill that do not total below zero as listed. */
  ghost predicate OneBill(table: Table, st: Settings, ids: seq<nat>) {
    && ids != [] && (forall id :: id in ids ==> Holds(table, FundedBy(PERSONAL), id))
    && SameKey(table, st.reimbursableFields, ids) && Sum(table, ids) >= 0
    && st.reimbursable == Some(BILL)
    && "fund_source" in st.reimbursableFields && "expense_id" !in st.reimbursableFields
  }

  lemma OneBillPart(table: Table, st: Settings, ids: seq<nat>)
    requires OneBill(table, st, ids)
    ensures PersonalPart(table, st, ids) == Filtered([ids], [])
  {
    PickAll(table, FundedBy(PERSONAL), ids);
    assert Exist(table, ids);
    OneGroupQuery(table, st.reimbursableFields, ids);
    OneGroupFilter(table, st.reimbursableFields, ids);
  }

  lemma OneLabel(ids: seq<nat>)
    ensures Label(PERSONAL, [ids]) + Label(CCC, []) == [NewGroup(PERSONAL, ids)]
  {
  }

  /** They are stored as they are, whatever they total once each. */
  lemma OneBillIsStored(table: Table, st: Settings, ids: seq<nat>)
    requires OneBill(table, st, ids)
    ensures CreateGroups(table, st, ids) == Success(Created([NewGroup(PERSONAL, ids)], []))
  {
    OneBillPart(table, st, ids);
    NoCards(table, st, ids);
    OneLabel(ids);
  }

  lemma NoCards(table: Table, st: Settings, ids: seq<nat>)
    requires forall id :: id in ids ==> Holds(table, FundedBy(PERSONAL), id)
    ensures CardPart(table, st, ids) == Filtered([], [])
  {
    NoneHold(table, FundedBy(CCC), ids);
  }

  lemma RepeatedRow(table: Table, ids: seq<nat>, a: nat, b: nat)
    requires a != b && ids == [a, a, b]
    ensures Sum(table, ids) == 2 * AmountOf(table, a) + AmountOf(table, b)
    ensures Sum(table, FirstSeen(ids)) == AmountOf(table, a) + AmountOf(table, b)
  {
    assert [a, a] == [a] + [a] && [a, b] == [a] + [b] && ids == [a, a] + [b];
    SumOne(table, a);
    SumSnoc(table, [a], a);
    SumSnoc(table, [a], b);
    SumSnoc(table, [a, a], b);
    FirstSeenOfConstant([a, a], a);
    FirstSeenSnoc([a, a], b);
  }

  lemma SumOne(table: Table, id: nat)
    ensures Sum(table, [id]) == AmountOf(table, id)
  {
    assert [id][..0] == [];
  }

  /**
   A charge of 10.00 that comes in twice and a refund of 15.00 of the same report: the bill lists 5.00 and stores
   minus 5.00.
   */
  lemma RepeatedChargeStoresNegative(table: Table, st: Settings, a: nat, b: nat)
    requires Holds(table, FundedBy(PERSONAL), a) && AmountOf(table, a) == 1000
    requires Holds(table, FundedBy(PERSONAL), b) && AmountOf(table, b) == -1500
    requires table[a].details.reportId == table[b].details.reportId
    requires st.reimbursable == Some(BILL) && st.reimbursableFields == ["report_id", "fund_source"]
    ensures var group := NewGroup(PERSONAL, [a, a, b]);
            && CreateGroups(table, st, [a, a, b]) == Success(Created([group], []))
            && Sum(table, group.ids) == 500 && StoredTotal(table, group) == -500
  {
    var ids := [a, a, b];
    SameReportSameKey(table, st.reimbursableFields, a, b);
    RepeatedRow(table, ids, a, b);
    OneBillIsStored(table, st, ids);
  }

  lemma SameReportSameKey(table: Table, fields: seq<string>, a: nat, b: nat)
    requires a in table && b in table && fields == ["report_id", "fund_source"]
    requires table[a].details.reportId == table[b].details.reportId
    requires table[a].details.fundSource == table[b].details.fundSource
    ensures KeyOf(table, fields, a) == KeyOf(table, fields, b)
  {
    forall i | 0 <= i < |fields| ensures Column(a, table[a], fields[i]) == Column(b, table[b], fields[i]) {
    }
  }

  // ---------------------------------------------------------------- conservation

  /** The query takes each row once. */
  lemma QueryConserves(table: Table, fields: seq<string>, ids: seq<nat>)
    requires Exist(table, ids)
    ensures SumLists(table, GroupBy(table, fields, ids)) == Sum(table, FirstSeen(ids))
  {
    var groups, keys := GroupBy(table, fields, ids), GroupKeys(table, fields, ids);
    SumListsByKey(table, fields, keys, groups, FirstSeen(ids));
    forall id | id in ids ensures KeyOf(table, fields, id) in keys {
      KeyAmongKeys(table, fields, ids, id);
    }
    SumByKeyIsSum(table, fields, keys, FirstSeen(ids));
  }

  lemma {:induction false} SumListsByKey(table: Table, fields: seq<string>, keys: seq<Key>, groups: seq<seq<nat>>,
                                         ids: seq<nat>)
    requires |keys| == |groups|
    requires forall i :: 0 <= i < |groups| ==> groups[i] == Pick(table, Keyed(fields, keys[i]), ids)
    ensures SumLists(table, groups) == SumByKey(table, fields, keys, ids)
  {
    if groups == [] {
    } else {
      SumListsByKey(table, fields, keys[..|keys| - 1], groups[..|groups| - 1], ids);
    }
  }

  lemma TwoQueriesConserve(table: Table, fields: seq<string>, ids: seq<nat>, fields': seq<string>, ids': seq<nat>)
    requires Exist(table, ids) && Exist(table, ids')
    ensures SumLists(table, GroupBy(table, fields, ids) + GroupBy(table, fields', ids')) ==
              Sum(table, FirstSeen(ids)) + Sum(table, FirstSeen(ids'))
  {
    QueryConserves(table, fields, ids);
    QueryConserves(table, fields', ids');
    SumListsConcat(table, GroupBy(table, fields, ids), GroupBy(table, fields', ids'));
  }

  lemma SplitCardsConserve(table: Table, st: Settings, cards: seq<nat>)
    requires Exist(table, cards) && SplitsCharges(st)
    ensures SumLists(table, CardGroups(table, st, cards)) == Sum(table, FirstSeen(cards))
  {
    var plain, banked := Pick(table, Unbanked, cards), Pick(table, Banked, cards);
    PickExists(table, Unbanked, cards);
    PickExists(table, Banked, cards);
    TwoQueriesConserve(table, st.cccFields, plain, SplitFields(st.cccFields), banked);
    FirstSeenOfPick(table, Unbanked, cards);
    FirstSeenOfPick(table, Banked, cards);
    SumSplit(table, Unbanked, Banked, FirstSeen(cards));
  }

  /** The card rows as creation counts them: as listed where bills are filtered, else each row once. */
  function CountedCards(table: Table, st: Settings, ids: seq<nat>): seq<nat> {
    var cards := Pick(table, FundedBy(CCC), ids);
    if st.ccc == Some(BILL) then cards else FirstSeen(cards)
  }

  lemma CardPartConserves(table: Table, st: Settings, ids: seq<nat>)
    ensures var c := CardPart(table, st, ids);
            SumLists(table, c.kept) + Sum(table, c.skipped) == Sum(table, CountedCards(table, st, ids))
  {
    var cards := Pick(table, FundedBy(CCC), ids);
    PickExists(table, FundedBy(CCC), ids);
    if st.ccc == Some(BILL) {
      FilterConserves(table, cards, st.cccFields, None, st.ccc);
    } else if SplitsCharges(st) {
      SplitCardsConserve(table, st, cards);
    } else {
      QueryConserves(table, st.cccFields, cards);
    }
  }

  /**
   No money appears or disappears. Each row counted once, what the created groups store and what is skipped is what
   was imported; and so are their listed totals, with the repetitions of the payload where creation counts these.
   */
  lemma CreationConserves(table: Table, st: Settings, ids: seq<nat>)
    requires Exist(table, ids) && CreateGroups(table, st, ids).Success?
    ensures var c := CreateGroups(table, st, ids).value;
            && SumLists(table, Stored(Lists(c.groups))) + Sum(table, FirstSeen(c.skipped)) == Sum(table, FirstSeen(ids))
            && SumLists(table, Lists(c.groups)) + Sum(table, c.skipped) ==
                 Sum(table, Pick(table, FundedBy(PERSONAL), ids)) + Sum(table, CountedCards(table, st, ids))
    ensures NoDup(ids) ==>
              Sum(table, Pick(table, FundedBy(PERSONAL), ids)) + Sum(table, CountedCards(table, st, ids))
                == Sum(table, ids)
  {
    var p, c := PersonalPart(table, st, ids), CardPart(table, st, ids);
    var personal := Pick(table, FundedBy(PERSONAL), ids);
    CreationPartitions(table, st, ids);
    StoredConserves(table, Lists(Label(PERSONAL, p.kept) + Label(CCC, c.kept)), p.skipped + c.skipped, ids);
    PickExists(table, FundedBy(PERSONAL), ids);
    FilterConserves(table, personal, st.reimbursableFields, st.reimbursable, None);
    CardPartConserves(table, st, ids);
    ListsOfLabel(PERSONAL, p.kept, CCC, c.kept);
    SumListsConcat(table, p.kept, c.kept);
    SumConcat(table, p.skipped, c.skipped);
    DistinctImportCountsAll(table, st, ids);
  }

  lemma DistinctImportCountsAll(table: Table, st: Settings, ids: seq<nat>)
    requires Exist(table, ids)
    ensures NoDup(ids) ==>
              Sum(table, Pick(table, FundedBy(PERSONAL), ids)) + Sum(table, CountedCards(table, st, ids))
                == Sum(table, ids)
  {
    if NoDup(ids) {
      PickKeepsNoDup(table, FundedBy(CCC), ids);
      FirstSeenOfDistinct(Pick(table, FundedBy(CCC), ids));
      SumSplit(table, FundedBy(PERSONAL), FundedBy(CCC), ids);
    }
  }
}
