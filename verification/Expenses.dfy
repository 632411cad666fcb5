/** Expense rows, the conditions queries select them by, and sums of their amounts. */
module Expenses {
  import opened Common

  datatype FundSource = PERSONAL | CCC

  datatype ExportType = EXPENSE_REPORT | BILL | JOURNAL_ENTRY | CREDIT_CARD_CHARGE

  datatype SummaryState = IN_PROGRESS | COMPLETE | ERROR | SKIPPED | DELETED

  datatype Summary = Summary(state: SummaryState, synced: bool)

  /** The columns every import overwrites. Amounts are in cents: the import rounds them to two places. */
  datatype Details = Details(
    amount: int,
    fundSource: FundSource,
    spentAt: Option<int>,
    reportId: string,
    bankTransactionId: Option<string>,
    others: map<string, string>)

  /** A row of the expenses table: imported columns, then the columns only this program writes. */
  datatype Expense = Expense(
    details: Details,
    isSkipped: bool,
    summary: Option<Summary>,
    previousExportState: Option<SummaryState>)

  type Table = map<nat, Expense>

  predicate IsDeleted(e: Expense) {
    e.summary.Some? && e.summary.value.state == DELETED
  }

  datatype Value = Null | Text(text: string) | Time(at: int) | Fund(fund: FundSource) | Id(id: nat)

  function TextOf(s: Option<string>): Value {
    match s case None => Null case Some(t) => Text(t)
  }

  /** The value of grouping field f of the expense with this id. */
  function Column(id: nat, e: Expense, f: string): Value {
    if f == "expense_id" then Id(id)
    else if f == "fund_source" then Fund(e.details.fundSource)
    else if f == "spent_at" then (match e.details.spentAt case None => Null case Some(t) => Time(t))
    else if f == "report_id" then Text(e.details.reportId)
    else if f == "bank_transaction_id" then TextOf(e.details.bankTransactionId)
    else if f in e.details.others then Text(e.details.others[f])
    else Null
  }

  /** The values a row has in the grouping fields. */
  datatype Key = Key(values: seq<Value>)

  /** Every listed id is a row of the table. */
  predicate Exist(table: Table, ids: seq<nat>) {
    forall id :: id in ids ==> id in table
  }

  /** The key of a row; a missing row has none. */
  function KeyOf(table: Table, fields: seq<string>, id: nat): Key {
    if id !in table then Key([])
    else Key(seq(|fields|, i requires 0 <= i < |fields| => Column(id, table[id], fields[i])))
  }

  function Keys(table: Table, fields: seq<string>, ids: seq<nat>): seq<Key> {
    seq(|ids|, i requires 0 <= i < |ids| => KeyOf(table, fields, ids[i]))
  }

  function AmountOf(table: Table, id: nat): int {
    if id in table then table[id].details.amount else 0
  }

  /** The row conditions the program filters lists of expenses by. */
  datatype Cond =
    | Negative
    | Positive
    | FundedBy(source: FundSource)
    | Banked
    | Unbanked
    | Live
    | Listed(ids: seq<nat>)
    | SpentOn(at: Option<int>)
    | Keyed(fields: seq<string>, key: Key)

  predicate HasBankTransaction(e: Expense) {
    e.details.bankTransactionId.Some? && e.details.bankTransactionId.value != ""
  }

  /** Whether the row exists and satisfies c. */
  predicate Holds(table: Table, c: Cond, id: nat) {
    id in table &&
    match c
    case Negative => table[id].details.amount < 0
    case Positive => table[id].details.amount > 0
    case FundedBy(f) => table[id].details.fundSource == f
    case Banked => HasBankTransaction(table[id])
    case Unbanked => !HasBankTransaction(table[id])
    case Live => !table[id].isSkipped
    case Listed(ids) => id in ids
    case SpentOn(t) => table[id].details.spentAt == t
    case Keyed(fields, key) => KeyOf(table, fields, id) == key
  }

  /** The listed expenses that satisfy c, in order. */
  function Pick(table: Table, c: Cond, ids: seq<nat>): (r: seq<nat>)
    ensures forall id :: id in r <==> id in ids && Holds(table, c, id)
  {
    if ids == [] then []
    else
      var r := Pick(table, c, ids[..|ids| - 1]);
      if Holds(table, c, ids[|ids| - 1]) then r + [ids[|ids| - 1]] else r
  }

  lemma {:induction false} PickKeepsNoDup(table: Table, c: Cond, ids: seq<nat>)
    requires NoDup(ids)
    ensures NoDup(Pick(table, c, ids))
  {
    if ids == [] {
    } else {
      PickKeepsNoDup(table, c, ids[..|ids| - 1]);
    }
  }

  /** A selected row is listed as often as before. */
  lemma {:induction false} PickAsOften(table: Table, c: Cond, ids: seq<nat>)
    ensures AsOften(Pick(table, c, ids), ids)
  {
    if ids == [] {
    } else {
      var front, last := ids[..|ids| - 1], ids[|ids| - 1];
      assert ids == front + [last];
      PickAsOften(table, c, front);
      forall id | id in Pick(table, c, ids) ensures multiset(Pick(table, c, ids))[id] == multiset(ids)[id] {
        assert id in front <==> multiset(front)[id] > 0;
        assert id in Pick(table, c, front) <==> multiset(Pick(table, c, front))[id] > 0;
      }
    }
  }

  /** The total amount of the listed expenses. */
  function Sum(table: Table, ids: seq<nat>): int {
    if ids == [] then 0
    else Sum(table, ids[..|ids| - 1]) + AmountOf(table, ids[|ids| - 1])
  }

  lemma SumSnoc(table: Table, ids: seq<nat>, id: nat)
    ensures Sum(table, ids + [id]) == Sum(table, ids) + AmountOf(table, id)
  {
    assert (ids + [id])[..|ids|] == ids;
  }

  lemma {:induction false} SumConcat(table: Table, a: seq<nat>, b: seq<nat>)
    ensures Sum(table, a + b) == Sum(table, a) + Sum(table, b)
  {
    if b == [] {
      assert a + b == a;
    } else {
      var b' := b[..|b| - 1];
      assert (a + b)[..|a + b| - 1] == a + b';
      SumConcat(table, a, b');
    }
  }

  lemma SumPickSnoc(table: Table, c: Cond, ids: seq<nat>, id: nat)
    ensures Sum(table, Pick(table, c, ids + [id]))
         == Sum(table, Pick(table, c, ids)) + (if Holds(table, c, id) then AmountOf(table, id) else 0)
  {
    assert (ids + [id])[..|ids|] == ids;
    SumSnoc(table, Pick(table, c, ids), id);
  }

  /** Splitting a list on complementary conditions splits its total. */
  lemma {:induction false} SumSplit(table: Table, c: Cond, d: Cond, ids: seq<nat>)
    requires forall id :: id in ids && id in table ==> (Holds(table, c, id) <==> !Holds(table, d, id))
    ensures Sum(table, ids) == Sum(table, Pick(table, c, ids)) + Sum(table, Pick(table, d, ids))
  {
    if ids == [] {
    } else {
      var front, last := ids[..|ids| - 1], ids[|ids| - 1];
      assert ids == front + [last];
      SumSplit(table, c, d, front);
      SumPickSnoc(table, c, front, last);
      SumPickSnoc(table, d, front, last);
    }
  }

  /** Zero amounts aside, a total is the sum of its positive and its negative part. */
  lemma {:induction false} SumBySign(table: Table, ids: seq<nat>)
    ensures Sum(table, ids) == Sum(table, Pick(table, Positive, ids)) + Sum(table, Pick(table, Negative, ids))
    ensures Sum(table, Pick(table, Positive, ids)) >= 0
  {
    if ids == [] {
    } else {
      var front, last := ids[..|ids| - 1], ids[|ids| - 1];
      assert ids == front + [last];
      SumBySign(table, front);
      SumOneMore(table, front, last);
    }
  }

  lemma SumOneMore(table: Table, front: seq<nat>, last: nat)
    ensures var amount := AmountOf(table, last);
            && Sum(table, front + [last]) == Sum(table, front) + amount
            && Sum(table, Pick(table, Positive, front + [last]))
                 == Sum(table, Pick(table, Positive, front)) + (if amount > 0 then amount else 0)
            && Sum(table, Pick(table, Negative, front + [last]))
                 == Sum(table, Pick(table, Negative, front)) + (if amount < 0 then amount else 0)
  {
    SumSnoc(table, front, last);
    SumPickSnoc(table, Positive, front, last);
    SumPickSnoc(table, Negative, front, last);
  }

  /** Conditions that agree on a list pick the same ids. */
  lemma {:induction false} PickSame(table: Table, c: Cond, d: Cond, ids: seq<nat>)
    requires forall id :: id in ids ==> (Holds(table, c, id) <==> Holds(table, d, id))
    ensures Pick(table, c, ids) == Pick(table, d, ids)
  {
    if ids == [] {
    } else {
      PickSame(table, c, d, ids[..|ids| - 1]);
    }
  }

  /** A condition that holds of the whole list selects the whole list. */
  lemma {:induction false} PickAll(table: Table, c: Cond, ids: seq<nat>)
    requires forall id :: id in ids ==> Holds(table, c, id)
    ensures Pick(table, c, ids) == ids
  {
    if ids == [] {
    } else {
      var front, last := ids[..|ids| - 1], ids[|ids| - 1];
      assert ids == front + [last];
      assert last in ids && Holds(table, c, last);
      PickAll(table, c, front);
    }
  }

  // ---------------------------------------------------------------- totals of distinct rows

  lemma {:induction false} FirstSeenOfPick(table: Table, c: Cond, ids: seq<nat>)
    ensures FirstSeen(Pick(table, c, ids)) == Pick(table, c, FirstSeen(ids))
  {
    if ids == [] {
    } else {
      FirstSeenOfPick(table, c, ids[..|ids| - 1]);
    }
  }

  lemma {:induction false} SumRemoveFirst(table: Table, ids: seq<nat>, id: nat)
    requires id in ids
    ensures Sum(table, RemoveFirst(ids, id)) == Sum(table, ids) - AmountOf(table, id)
  {
    var rest := ids[1..];
    assert ids == [ids[0]] + rest;
    SumConcat(table, [ids[0]], rest);
    SumSnoc(table, [], ids[0]);
    assert [] + [ids[0]] == [ids[0]];
    if ids[0] != id {
      SumRemoveFirst(table, rest, id);
      SumConcat(table, [ids[0]], RemoveFirst(rest, id));
    }
  }

  /** Two lists of distinct rows have the same total if they hold the same rows, zero amounts aside. */
  lemma {:induction false} SumOfSameRows(table: Table, a: seq<nat>, b: seq<nat>)
    requires NoDup(a) && NoDup(b)
    requires forall id :: AmountOf(table, id) != 0 ==> (id in a <==> id in b)
    ensures Sum(table, a) == Sum(table, b)
  {
    if a == [] {
      SumOfZeros(table, b);
    } else {
      var front, last := a[..|a| - 1], a[|a| - 1];
      forall id ensures id in a <==> id in front || id == last {
        LastOfDistinct(a, id);
      }
      LastOfDistinct(a, last);
      if AmountOf(table, last) == 0 {
        SumOfSameRows(table, front, b);
      } else {
        SumRemoveFirst(table, b, last);
        RemoveFirstOfDistinct(b, last);
        WithoutKeepsNoDup(b, {last});
        SumOfSameRows(table, front, RemoveFirst(b, last));
      }
    }
  }

  lemma {:induction false} SumOfZeros(table: Table, ids: seq<nat>)
    requires forall id :: id in ids ==> AmountOf(table, id) == 0
    ensures Sum(table, ids) == 0
  {
    if ids == [] {
    } else {
      assert ids[|ids| - 1] in ids;
      SumOfZeros(table, ids[..|ids| - 1]);
    }
  }
}
