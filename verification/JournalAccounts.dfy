/** Which accounts and entities a journal entry debits and credits, and which lines each item becomes. */
module JournalAccounts {
  import opened Common
  import opened Expenses
  import opened Tax
  import opened Journal

  // ---------------------------------------------------------------- what the items ask for

  /** The amounts of the items spent on an account for an entity. */
  function SpentOn(items: seq<Item>, account: string, entity: string): int {
    if items == [] then 0
    else
      var item := items[|items| - 1];
      SpentOn(items[..|items| - 1], account, entity)
      + if item.account == account && item.entity == entity then item.amount else 0
  }

  /** The amounts of the items paid from an account for an entity. */
  function PaidFrom(items: seq<Item>, account: string, entity: string): int {
    if items == [] then 0
    else
      var item := items[|items| - 1];
      PaidFrom(items[..|items| - 1], account, entity)
      + if item.debitAccount == account && item.entity == entity then item.amount else 0
  }

  // ---------------------------------------------------------------- what the lines do

  /** The debits and taxes of the lines on an account and entity. */
  function DebitedTo(lines: seq<Line>, account: string, entity: string): int {
    if lines == [] then 0
    else
      var line := lines[|lines| - 1];
      DebitedTo(lines[..|lines| - 1], account, entity)
      + if line.account == account && line.entity == entity then OrZero(line.debit) + OrZero(line.tax1) else 0
  }

  function CreditedTo(lines: seq<Line>, account: string, entity: string): int {
    if lines == [] then 0
    else
      var line := lines[|lines| - 1];
      CreditedTo(lines[..|lines| - 1], account, entity)
      + if line.account == account && line.entity == entity then OrZero(line.credit) else 0
  }

  lemma {:induction false} DebitedConcat(a: seq<Line>, b: seq<Line>, account: string, entity: string)
    ensures DebitedTo(a + b, account, entity) == DebitedTo(a, account, entity) + DebitedTo(b, account, entity)
    ensures CreditedTo(a + b, account, entity) == CreditedTo(a, account, entity) + CreditedTo(b, account, entity)
  {
    if b == [] {
      assert a + b == a;
    } else {
      assert (a + b)[..|a + b| - 1] == a + b[..|b| - 1];
      DebitedConcat(a, b[..|b| - 1], account, entity);
    }
  }

  /** Lines of one account and entity: everything they debit goes there, and they credit nothing. */
  lemma {:induction false} DebitedOfOne(lines: seq<Line>, of: Line, account: string, entity: string)
    requires forall k :: 0 <= k < |lines| ==>
               lines[k].account == of.account && lines[k].entity == of.entity && lines[k].credit == None
    ensures DebitedTo(lines, account, entity) ==
              if of.account == account && of.entity == entity then Total(lines, Debit) + Total(lines, Tax1) else 0
    ensures CreditedTo(lines, account, entity) == 0
  {
    if lines == [] {
    } else {
      DebitedOfOne(lines[..|lines| - 1], of, account, entity);
    }
  }

  // ---------------------------------------------------------------- the lines of one item

  predicate IsTaxed(item: Item) {
    item.taxCode.Some? && item.tax.Some?
  }

  /**
   The debit lines of an item: on its own account and entity, with nothing but debit, gross and tax. An untaxed one is a
   single line without code; a taxed one starts with a line of its code and tax, and a second one has the default code
   and no tax. Debits and taxes make up the amount.
   */
  ghost predicate LinesOfItem(item: Item, defaultCode: Option<string>, lines: seq<Line>) {
    && (forall k :: 0 <= k < |lines| ==>
          && lines[k].account == item.account && lines[k].entity == item.entity
          && lines[k].credit == None && lines[k].amount == None && lines[k].debit.Some?)
    && Total(lines, Debit) + Total(lines, Tax1) == item.amount
    && if !IsTaxed(item) then |lines| == 1 && lines[0].taxCode == None && lines[0].tax1 == None
       else
         && 1 <= |lines| <= 2 && lines[0].taxCode == item.taxCode && lines[0].tax1 == item.tax
         && (|lines| == 2 ==> lines[1].taxCode == defaultCode && lines[1].tax1 == None)
  }

  lemma DebitPartIsLinesOfItem(item: Item, setup: Setup)
    requires DebitPart(item, setup).Success?
    ensures LinesOfItem(item, setup.defaultCode, DebitPart(item, setup).value)
  {
    var lines := DebitPart(item, setup).value;
    DebitPartTotals(item, setup);
    if IsTaxed(item) {
      TaxGoesWithItsCode(BaseLine(item, item.account), item.amount, item.tax.value, setup.rates[item.taxCode.value],
                         setup.balancing, item.taxCode.value, setup.defaultCode, JOURNAL_ENTRY);
    }
  }

  function Flat(parts: seq<seq<Line>>): seq<Line> {
    if parts == [] then [] else Flat(parts[..|parts| - 1]) + parts[|parts| - 1]
  }

  /** One part for each item, in their order. */
  ghost predicate PartsOfItems(items: seq<Item>, defaultCode: Option<string>, parts: seq<seq<Line>>) {
    |parts| == |items| && forall i :: 0 <= i < |items| ==> LinesOfItem(items[i], defaultCode, parts[i])
  }

  lemma {:induction false} DebitLinesAreThoseOfItems(items: seq<Item>, setup: Setup) returns (parts: seq<seq<Line>>)
    requires DebitLines(items, setup).Success?
    ensures PartsOfItems(items, setup.defaultCode, parts) && DebitLines(items, setup).value == Flat(parts)
  {
    if items == [] {
      parts := [];
    } else {
      var front, last := items[..|items| - 1], items[|items| - 1];
      var before := DebitLinesAreThoseOfItems(front, setup);
      DebitPartIsLinesOfItem(last, setup);
      parts := before + [DebitPart(last, setup).value];
      assert parts[..|parts| - 1] == before;
    }
  }

  lemma ItemDebits(item: Item, defaultCode: Option<string>, lines: seq<Line>, account: string, entity: string)
    requires LinesOfItem(item, defaultCode, lines)
    ensures DebitedTo(lines, account, entity) ==
              if item.account == account && item.entity == entity then item.amount else 0
    ensures CreditedTo(lines, account, entity) == 0
  {
    DebitedOfOne(lines, lines[0], account, entity);
  }

  lemma {:induction false} PartsDebit(items: seq<Item>, defaultCode: Option<string>, parts: seq<seq<Line>>,
                                      account: string, entity: string)
    requires PartsOfItems(items, defaultCode, parts)
    ensures DebitedTo(Flat(parts), account, entity) == SpentOn(items, account, entity)
    ensures CreditedTo(Flat(parts), account, entity) == 0
  {
    if items == [] {
    } else {
      var n := |items| - 1;
      PartsDebit(items[..n], defaultCode, parts[..n], account, entity);
      ItemDebits(items[n], defaultCode, parts[n], account, entity);
      DebitedConcat(Flat(parts[..n]), parts[n], account, entity);
    }
  }

  // ---------------------------------------------------------------- the credits

  lemma {:induction false} ItemisedCredits(items: seq<Item>, account: string, entity: string)
    ensures CreditedTo(CreditLines(items), account, entity) == PaidFrom(items, account, entity)
    ensures DebitedTo(CreditLines(items), account, entity) == 0
  {
    if items == [] {
    } else {
      ItemisedCredits(items[..|items| - 1], account, entity);
      assert CreditLines(items)[..|items| - 1] == CreditLines(items[..|items| - 1]);
    }
  }

  lemma {:induction false} PairCreditIsPaidFrom(items: seq<Item>, account: string, entity: string)
    ensures PairCredit(CreditLines(items), (account, entity)) == PaidFrom(items, account, entity)
  {
    if items == [] {
    } else {
      PairCreditIsPaidFrom(items[..|items| - 1], account, entity);
      assert CreditLines(items)[..|items| - 1] == CreditLines(items[..|items| - 1]);
    }
  }

  lemma {:induction false} NoneFrom(items: seq<Item>, account: string, entity: string)
    requires (account, entity) !in Pairs(CreditLines(items))
    ensures PaidFrom(items, account, entity) == 0
  {
    if items == [] {
    } else {
      var front, last := items[..|items| - 1], items[|items| - 1];
      var pairs := Pairs(CreditLines(items));
      assert pairs[|items| - 1] in pairs && pairs[|items| - 1] == (last.debitAccount, last.entity);
      assert Pairs(CreditLines(front)) == pairs[..|items| - 1];
      NoneFrom(front, account, entity);
    }
  }

  /** Lines of distinct pairs, each crediting what the items ask for, and no debit. */
  lemma {:induction false} DistinctPairsCredit(items: seq<Item>, lines: seq<Line>, account: string, entity: string)
    requires NoDup(Pairs(lines)) && CreditOnly(lines)
    requires forall k :: 0 <= k < |lines| ==>
               lines[k].credit == Some(PaidFrom(items, lines[k].account, lines[k].entity))
    ensures CreditedTo(lines, account, entity) ==
              if (account, entity) in Pairs(lines) then PaidFrom(items, account, entity) else 0
    ensures DebitedTo(lines, account, entity) == 0
  {
    if lines == [] {
    } else {
      var n := |lines| - 1;
      assert Pairs(lines[..n]) == Pairs(lines)[..n];
      DistinctPairsCredit(items, lines[..n], account, entity);
      LastOfDistinct(Pairs(lines), (account, entity));
    }
  }

  lemma SingleCredits(items: seq<Item>, account: string, entity: string)
    requires AllSeparable(items)
    ensures SingleCreditLines(items).Success?
    ensures CreditedTo(SingleCreditLines(items).value, account, entity) == PaidFrom(items, account, entity)
    ensures DebitedTo(SingleCreditLines(items).value, account, entity) == 0
  {
    SingleRefinesItemised(items);
    var lines := SingleCreditLines(items).value;
    LinesOfIdsTotals(items, FirstSeen(Ids(items)));
    forall k | 0 <= k < |lines|
      ensures lines[k].credit == Some(PaidFrom(items, lines[k].account, lines[k].entity))
    {
      PairCreditIsPaidFrom(items, lines[k].account, lines[k].entity);
    }
    DistinctPairsCredit(items, lines, account, entity);
    if (account, entity) !in Pairs(lines) {
      NoneFrom(items, account, entity);
    }
  }

  // ---------------------------------------------------------------- the entry

  lemma DebitsHitTheAccounts(items: seq<Item>, setup: Setup, account: string, entity: string)
    requires DebitLines(items, setup).Success?
    ensures DebitedTo(DebitLines(items, setup).value, account, entity) == SpentOn(items, account, entity)
    ensures CreditedTo(DebitLines(items, setup).value, account, entity) == 0
  {
    var parts := DebitLinesAreThoseOfItems(items, setup);
    PartsDebit(items, setup.defaultCode, parts, account, entity);
  }

  /**
   A journal entry debits each account and entity with what the items spend there, taxes included, and credits each with
   what they are paid from there; with single lines provided that the ids can be split back.
   */
  lemma EntryHitsTheAccounts(items: seq<Item>, setup: Setup, single: bool, account: string, entity: string)
    requires JournalLines(items, setup, single).Success? && (single ==> AllSeparable(items))
    ensures var lines := JournalLines(items, setup, single).value;
            && DebitedTo(lines, account, entity) == SpentOn(items, account, entity)
            && CreditedTo(lines, account, entity) == PaidFrom(items, account, entity)
  {
    var debits := DebitLines(items, setup).value;
    DebitsHitTheAccounts(items, setup, account, entity);
    if single {
      SingleCredits(items, account, entity);
      DebitedConcat(SingleCreditLines(items).value, debits, account, entity);
    } else {
      ItemisedCredits(items, account, entity);
      DebitedConcat(CreditLines(items), debits, account, entity);
    }
  }

  lemma {:induction false} CreditOnlyDebitsNothing(lines: seq<Line>, account: string, entity: string)
    requires CreditOnly(lines)
    ensures DebitedTo(lines, account, entity) == 0
  {
    if lines == [] {
    } else {
      CreditOnlyDebitsNothing(lines[..|lines| - 1], account, entity);
    }
  }

  /** The debits of any entry that is built hit the accounts of the items, whatever the form of the credits. */
  lemma EntryDebitsTheAccounts(items: seq<Item>, setup: Setup, single: bool, account: string, entity: string)
    requires JournalLines(items, setup, single).Success?
    ensures DebitedTo(JournalLines(items, setup, single).value, account, entity) == SpentOn(items, account, entity)
  {
    var credits := if single then SingleCreditLines(items).value else CreditLines(items);
    DebitsHitTheAccounts(items, setup, account, entity);
    if single {
      LinesOfIdsTotals(items, FirstSeen(Ids(items)));
    }
    CreditOnlyDebitsNothing(credits, account, entity);
    DebitedConcat(credits, DebitLines(items, setup).value, account, entity);
  }

  /** The entry is its credit lines followed by the lines of each item, in their order. */
  lemma EntryHoldsTheItems(items: seq<Item>, setup: Setup, single: bool)
    returns (credits: seq<Line>, parts: seq<seq<Line>>)
    requires JournalLines(items, setup, single).Success?
    ensures JournalLines(items, setup, single).value == credits + Flat(parts)
    ensures PartsOfItems(items, setup.defaultCode, parts)
    ensures forall k :: 0 <= k < |credits| ==>
              && credits[k].credit.Some? && credits[k].debit == None && credits[k].tax1 == None
              && credits[k].taxCode == None
    ensures !single ==> |credits| == |items|
  {
    credits := if single then SingleCreditLines(items).value else CreditLines(items);
    parts := DebitLinesAreThoseOfItems(items, setup);
    if single {
      SingleLinesCredit(items, FirstSeen(Ids(items)));
    }
  }

  lemma {:induction false} SingleLinesCredit(items: seq<Item>, ids: seq<string>)
    requires LinesOfIds(items, ids).Success?
    ensures forall k :: 0 <= k < |LinesOfIds(items, ids).value| ==>
              var line := LinesOfIds(items, ids).value[k];
              line.credit.Some? && line.debit == None && line.tax1 == None && line.taxCode == None
  {
    if ids == [] {
    } else {
      SingleLinesCredit(items, ids[..|ids| - 1]);
    }
  }

  /** The debit side fails exactly when the tax item of a taxed line has no stored rate. */
  lemma {:induction false} DebitFailsExactly(items: seq<Item>, setup: Setup)
    ensures DebitLines(items, setup).Failure? <==>
              exists i :: 0 <= i < |items| && IsTaxed(items[i]) && items[i].taxCode.value !in setup.rates
  {
    if items == [] {
    } else {
      var front, last := items[..|items| - 1], items[|items| - 1];
      DebitFailsExactly(front, setup);
      if DebitLines(front, setup).Failure? {
        var i :| 0 <= i < |front| && IsTaxed(front[i]) && front[i].taxCode.value !in setup.rates;
        assert items[i] == front[i];
      }
      if i :| 0 <= i < |items| && IsTaxed(items[i]) && items[i].taxCode.value !in setup.rates {
        assert i < |front| ==> front[i] == items[i];
      }
    }
  }
}
