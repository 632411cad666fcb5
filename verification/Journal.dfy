/** Journal entries: debit lines, itemised or single credit lines, and their balance. */
module Journal {
  import opened Common
  import opened Expenses
  import opened Tax

  /** A stored line item; taxCode and tax are null for untaxed lines. */
  datatype Item = Item(
    account: string,
    debitAccount: string,
    entity: string,
    amount: int,
    taxCode: Option<string>,
    tax: Option<int>)

  /** What the lines are built with: the rates of the tax items and the general mapping. */
  datatype Setup = Setup(rates: map<string, Rate>, balancing: bool, defaultCode: Option<string>)

  function BaseLine(item: Item, account: string): Line {
    Line(account, item.entity, None, None, Some(item.amount), None, None, None)
  }

  // ---------------------------------------------------------------- debit and itemised credit lines

  /** The debit lines of one item; a tax item without a stored rate is a failure. */
  function DebitPart(item: Item, setup: Setup): Result<seq<Line>> {
    var base := BaseLine(item, item.account);
    if item.taxCode == None || item.tax == None then Success([base])
    else if item.taxCode.value !in setup.rates then Failure
    else Success(Handled(base, item.amount, item.tax.value, setup.rates[item.taxCode.value], setup.balancing,
                         item.taxCode.value, setup.defaultCode, JOURNAL_ENTRY))
  }

  function DebitLines(items: seq<Item>, setup: Setup): Result<seq<Line>> {
    if items == [] then Success([])
    else
      var before, part := DebitLines(items[..|items| - 1], setup), DebitPart(items[|items| - 1], setup);
      if before.Failure? || part.Failure? then Failure else Success(before.value + part.value)
  }

  function CreditPart(item: Item): Line {
    BaseLine(item, item.debitAccount).(credit := Some(item.amount), debit := None)
  }

  function CreditLines(items: seq<Item>): seq<Line> {
    seq(|items|, i requires 0 <= i < |items| => CreditPart(items[i]))
  }

  lemma DebitLinesFailEarly(items: seq<Item>, setup: Setup, i: nat)
    requires i <= |items| && DebitLines(items[..i], setup).Failure?
    ensures DebitLines(items, setup).Failure?
    decreases |items| - i
  {
    if i < |items| {
      assert items[..i + 1][..i] == items[..i];
      DebitLinesFailEarly(items, setup, i + 1);
    } else {
      assert items[..i] == items;
    }
  }

  /** construct_journal_entry_lineitems for the debit side. */
  method ConstructDebitLines(items: seq<Item>, setup: Setup) returns (r: Result<seq<Line>>)
    ensures r == DebitLines(items, setup)
  {
    var lines: seq<Line> := [];
    for i := 0 to |items|
      invariant DebitLines(items[..i], setup) == Success(lines)
    {
      var item := items[i];
      var base := BaseLine(item, item.account);
      assert items[..i + 1][..i] == items[..i];
      if item.taxCode == None || item.tax == None {
        lines := lines + [base];
      } else {
        if item.taxCode.value !in setup.rates {
          DebitLinesFailEarly(items, setup, i + 1);
          return Failure;
        }
        var handled := HandleTaxedLineItems(base, item.amount, item.tax.value, setup.rates[item.taxCode.value],
                                            setup.balancing, item.taxCode.value, setup.defaultCode, JOURNAL_ENTRY);
        lines := lines + handled;
      }
    }
    assert items[..|items|] == items;
    r := Success(lines);
  }

  /** construct_journal_entry_lineitems for the credit side. */
  method ConstructCreditLines(items: seq<Item>) returns (lines: seq<Line>)
    ensures lines == CreditLines(items)
  {
    lines := [];
    for i := 0 to |items|
      invariant lines == CreditLines(items)[..i]
    {
      var line := BaseLine(items[i], items[i].debitAccount);
      line := line.(credit := Some(items[i].amount));
      line := line.(debit := None);
      lines := lines + [line];
    }
  }

  // ---------------------------------------------------------------- the line id and its split

  function JoinId(account: string, entity: string): string {
    account + "::::" + entity
  }

  predicate SepAt(s: string, i: int) {
    0 <= i && i + 4 <= |s| && s[i..i + 4] == "::::"
  }

  /** The place of the leftmost separator. */
  function FindSep(s: string): (r: Option<nat>)
    ensures r.Some? ==> SepAt(s, r.value) && forall i :: i < r.value ==> !SepAt(s, i)
    ensures r.None? ==> forall i :: !SepAt(s, i)
  {
    if |s| < 4 then None
    else if s[..4] == "::::" then Some(0)
    else
      var rest := FindSep(s[1..]);
      assert forall i :: i > 0 ==> SepAt(s, i) == SepAt(s[1..], i - 1) by { Shift(s); }
      assert s[0..4] == s[..4];
      if rest.Some? then Some(rest.value + 1) else None
  }

  lemma Shift(s: string)
    requires |s| > 0
    ensures forall i :: i > 0 ==> SepAt(s, i) == SepAt(s[1..], i - 1)
  {
    forall i | i > 0
      ensures SepAt(s, i) == SepAt(s[1..], i - 1)
    {
      if i + 4 <= |s| {
        assert s[i..i + 4] == s[1..][i - 1..i + 3];
      }
    }
  }

  /** Splitting the id and unpacking exactly two parts. */
  function SplitId(s: string): Option<(string, string)> {
    var at := FindSep(s);
    if at == None || FindSep(s[at.value + 4..]).Some? then None
    else Some((s[..at.value], s[at.value + 4..]))
  }

  /** The ids that survive the round trip: nothing in them can be mistaken for the separator. */
  ghost predicate Separable(account: string, entity: string) {
    && (forall i :: !SepAt(account, i))
    && (|account| > 0 ==> account[|account| - 1] != ':')
    && (forall i :: !SepAt(entity, i))
  }

  lemma SepInJoin(account: string, entity: string, i: nat)
    ensures SepAt(JoinId(account, entity), |account|)
    ensures JoinId(account, entity)[..|account|] == account && JoinId(account, entity)[|account| + 4..] == entity
    ensures i + 4 <= |account| ==> (SepAt(JoinId(account, entity), i) <==> SepAt(account, i))
    ensures i < |account| < i + 4 && SepAt(JoinId(account, entity), i) ==> account[|account| - 1] == ':'
  {
    var s := JoinId(account, entity);
    assert s[|account|..|account| + 4] == "::::";
    if i + 4 <= |account| {
      assert s[i..i + 4] == account[i..i + 4];
    } else if i < |account| && SepAt(s, i) {
      var part := s[i..i + 4];
      assert part[|account| - 1 - i] == s[|account| - 1] == account[|account| - 1];
    }
  }

  lemma EndsInColon(account: string, entity: string)
    requires |account| > 0 && account[|account| - 1] == ':'
    ensures SepAt(JoinId(account, entity), |account| - 1)
  {
    var s := JoinId(account, entity);
    assert s[|account| - 1] == ':';
    assert s[|account|..|account| + 4] == "::::";
    assert s[|account|] == ':' && s[|account| + 1] == ':' && s[|account| + 2] == ':';
    assert s[|account| - 1..|account| + 3] == "::::";
  }

  /** Join, then split: the same pair comes back exactly for separable ids. */
  lemma SplitOfJoin(account: string, entity: string)
    ensures SplitId(JoinId(account, entity)) == Some((account, entity)) <==> Separable(account, entity)
  {
    var s := JoinId(account, entity);
    var at := FindSep(s);
    SepInJoin(account, entity, 0);
    if Separable(account, entity) {
      forall i: nat | i < |account|
        ensures !SepAt(s, i)
      {
        SepInJoin(account, entity, i);
      }
    } else if SplitId(s) == Some((account, entity)) {
      assert at.value == |account|;
      if |account| > 0 && account[|account| - 1] == ':' {
        EndsInColon(account, entity);
      } else {
        var i :| SepAt(account, i);
        SepInJoin(account, entity, i);
      }
    }
  }

  /** Split, then join: every id that splits is the join of its parts. */
  lemma JoinOfSplit(s: string)
    requires SplitId(s).Some?
    ensures JoinId(SplitId(s).value.0, SplitId(s).value.1) == s
  {
    var at := FindSep(s).value;
    assert s == s[..at] + s[at..at + 4] + s[at + 4..];
  }

  /** Two different pairs share a line id when an account ends in a colon. */
  lemma JoinCollides()
    ensures JoinId("a:", "b") == JoinId("a", ":b") && SplitId(JoinId("a:", "b")) != Some(("a:", "b"))
  {
    SplitOfJoin("a:", "b");
  }

  // ---------------------------------------------------------------- single credit lines

  function Ids(items: seq<Item>): seq<string> {
    seq(|items|, i requires 0 <= i < |items| => JoinId(items[i].debitAccount, items[i].entity))
  }

  /** The amount gathered under one line id. */
  function IdTotal(items: seq<Item>, id: string): int {
    if items == [] then 0
    else
      var item := items[|items| - 1];
      IdTotal(items[..|items| - 1], id) + if JoinId(item.debitAccount, item.entity) == id then item.amount else 0
  }

  function SingleLine(account: string, entity: string, amount: int): Line {
    Line(account, entity, None, Some(amount), None, None, None, None)
  }

  /** One credit line for each of the ids, or a failure when one of them does not split in two. */
  function LinesOfIds(items: seq<Item>, ids: seq<string>): Result<seq<Line>> {
    if ids == [] then Success([])
    else
      var before, id := LinesOfIds(items, ids[..|ids| - 1]), ids[|ids| - 1];
      if before.Failure? || SplitId(id) == None then Failure
      else Success(before.value + [SingleLine(SplitId(id).value.0, SplitId(id).value.1, IdTotal(items, id))])
  }

  function SingleCreditLines(items: seq<Item>): Result<seq<Line>> {
    LinesOfIds(items, FirstSeen(Ids(items)))
  }

  lemma LinesOfIdsFailEarly(items: seq<Item>, ids: seq<string>, i: nat)
    requires i <= |ids| && LinesOfIds(items, ids[..i]).Failure?
    ensures LinesOfIds(items, ids).Failure?
    decreases |ids| - i
  {
    if i < |ids| {
      assert ids[..i + 1][..i] == ids[..i];
      LinesOfIdsFailEarly(items, ids, i + 1);
    } else {
      assert ids[..i] == ids;
    }
  }

  lemma IdsSnoc(items: seq<Item>, i: nat)
    requires i < |items|
    ensures Ids(items[..i + 1]) == Ids(items[..i]) + [JoinId(items[i].debitAccount, items[i].entity)]
    ensures FirstSeen(Ids(items[..i + 1])) ==
              (if JoinId(items[i].debitAccount, items[i].entity) in FirstSeen(Ids(items[..i]))
               then FirstSeen(Ids(items[..i]))
               else FirstSeen(Ids(items[..i])) + [JoinId(items[i].debitAccount, items[i].entity)])
    ensures items[..i + 1][..i] == items[..i]
  {
    var ids := Ids(items[..i + 1]);
    assert ids == Ids(items[..i]) + [JoinId(items[i].debitAccount, items[i].entity)];
    assert ids[..|ids| - 1] == Ids(items[..i]);
  }

  lemma {:induction false} UnseenIdHasNoTotal(items: seq<Item>, id: string)
    requires id !in Ids(items)
    ensures IdTotal(items, id) == 0
  {
    if items == [] {
    } else {
      var n := |items| - 1;
      assert items[..n + 1] == items;
      IdsSnoc(items, n);
      assert Ids(items)[n] in Ids(items);
      UnseenIdHasNoTotal(items[..n], id);
    }
  }

  /** totals holds the total of every distinct id of items; keys is its insertion order. */
  ghost predicate Gathered(items: seq<Item>, keys: seq<string>, totals: map<string, int>) {
    && keys == FirstSeen(Ids(items))
    && (forall id :: id in totals <==> id in keys)
    && (forall id :: id in totals ==> totals[id] == IdTotal(items, id))
  }

  lemma GatherOld(items: seq<Item>, i: nat, keys: seq<string>, totals: map<string, int>, id: string)
    requires i < |items| && id == JoinId(items[i].debitAccount, items[i].entity)
    requires Gathered(items[..i], keys, totals) && id in totals
    ensures Gathered(items[..i + 1], keys, totals[id := totals[id] + items[i].amount])
  {
    IdsSnoc(items, i);
  }

  lemma GatherNew(items: seq<Item>, i: nat, keys: seq<string>, totals: map<string, int>, id: string)
    requires i < |items| && id == JoinId(items[i].debitAccount, items[i].entity)
    requires Gathered(items[..i], keys, totals) && id !in totals
    ensures Gathered(items[..i + 1], keys + [id], totals[id := items[i].amount])
  {
    IdsSnoc(items, i);
    UnseenIdHasNoTotal(items[..i], id);
  }

  /** The first loop of __construct_single_itemized_credit_line: a dictionary of totals in insertion order. */
  method GatherTotals(items: seq<Item>) returns (keys: seq<string>, totals: map<string, int>)
    ensures Gathered(items, keys, totals)
  {
    keys, totals := [], map[];
    for i := 0 to |items|
      invariant Gathered(items[..i], keys, totals)
    {
      var id := JoinId(items[i].debitAccount, items[i].entity);
      if id in totals {
        GatherOld(items, i, keys, totals, id);
        totals := totals[id := totals[id] + items[i].amount];
      } else {
        GatherNew(items, i, keys, totals, id);
        keys := keys + [id];
        totals := totals[id := items[i].amount];
      }
    }
    assert items[..|items|] == items;
  }

  lemma LinesOfIdsStep(items: seq<Item>, ids: seq<string>, i: nat)
    requires i < |ids| && LinesOfIds(items, ids[..i]).Success?
    ensures LinesOfIds(items, ids[..i + 1]) ==
              var parts := SplitId(ids[i]);
              if parts == None then Failure
              else Success(LinesOfIds(items, ids[..i]).value
                  + [SingleLine(parts.value.0, parts.value.1, IdTotal(items, ids[i]))])
  {
    assert ids[..i + 1][..i] == ids[..i];
  }

  /** __construct_single_itemized_credit_line: one line per key of the dictionary. */
  method ConstructSingleCreditLines(items: seq<Item>) returns (r: Result<seq<Line>>)
    ensures r == SingleCreditLines(items)
  {
    var keys, totals := GatherTotals(items);
    var lines: seq<Line> := [];
    for i := 0 to |keys|
      invariant LinesOfIds(items, keys[..i]) == Success(lines)
    {
      LinesOfIdsStep(items, keys, i);
      assert keys[i] in keys;
      var parts := SplitId(keys[i]);
      if parts == None {
        LinesOfIdsFailEarly(items, keys, i + 1);
        return Failure;
      }
      lines := lines + [SingleLine(parts.value.0, parts.value.1, totals[keys[i]])];
    }
    assert keys[..|keys|] == keys;
    r := Success(lines);
  }

  // ---------------------------------------------------------------- the single form refines the itemised one

  function PairOf(line: Line): (string, string) {
    (line.account, line.entity)
  }

  function Pairs(lines: seq<Line>): seq<(string, string)> {
    seq(|lines|, i requires 0 <= i < |lines| => PairOf(lines[i]))
  }

  /** What the lines credit to one account and entity. */
  function PairCredit(lines: seq<Line>, pair: (string, string)): int {
    if lines == [] then 0
    else
      var line := lines[|lines| - 1];
      PairCredit(lines[..|lines| - 1], pair) + if PairOf(line) == pair then OrZero(line.credit) else 0
  }

  ghost predicate AllSeparable(items: seq<Item>) {
    forall i :: 0 <= i < |items| ==> Separable(items[i].debitAccount, items[i].entity)
  }

  /** The joins of a list of pairs; on separable pairs the join is one to one. */
  function Joins(pairs: seq<(string, string)>): seq<string> {
    seq(|pairs|, i requires 0 <= i < |pairs| => JoinId(pairs[i].0, pairs[i].1))
  }

  lemma {:induction false} FirstSeenOfJoins(pairs: seq<(string, string)>)
    requires forall i :: 0 <= i < |pairs| ==> Separable(pairs[i].0, pairs[i].1)
    ensures FirstSeen(Joins(pairs)) == Joins(FirstSeen(pairs))
  {
    if pairs == [] {
    } else {
      var front, last := pairs[..|pairs| - 1], pairs[|pairs| - 1];
      FirstSeenOfJoins(front);
      assert Joins(pairs)[..|pairs| - 1] == Joins(front);
      var seen, id := FirstSeen(front), JoinId(last.0, last.1);
      SplitOfJoin(last.0, last.1);
      forall i | 0 <= i < |seen|
        ensures Joins(seen)[i] == id ==> seen[i] == last
      {
        assert seen[i] in front;
        SplitOfJoin(seen[i].0, seen[i].1);
      }
      if last in seen {
        var i :| 0 <= i < |seen| && seen[i] == last;
        assert Joins(seen)[i] == id;
      } else {
        assert Joins(seen + [last]) == Joins(seen) + [id];
      }
    }
  }

  lemma {:induction false} IdTotalIsPairCredit(items: seq<Item>, pair: (string, string))
    requires AllSeparable(items) && Separable(pair.0, pair.1)
    ensures IdTotal(items, JoinId(pair.0, pair.1)) == PairCredit(CreditLines(items), pair)
  {
    if items == [] {
    } else {
      var front, last := items[..|items| - 1], items[|items| - 1];
      IdTotalIsPairCredit(front, pair);
      assert CreditLines(items)[..|items| - 1] == CreditLines(front);
      SplitOfJoin(pair.0, pair.1);
      SplitOfJoin(last.debitAccount, last.entity);
    }
  }

  /** The line crediting a pair with what the itemised lines credit to it. */
  function PairLine(items: seq<Item>, pair: (string, string)): Line {
    SingleLine(pair.0, pair.1, PairCredit(CreditLines(items), pair))
  }

  function PairLines(items: seq<Item>, pairs: seq<(string, string)>): seq<Line> {
    seq(|pairs|, i requires 0 <= i < |pairs| => PairLine(items, pairs[i]))
  }

  lemma PairLinesSnoc(items: seq<Item>, pairs: seq<(string, string)>, n: nat)
    requires |pairs| == n + 1
    ensures PairLines(items, pairs) == PairLines(items, pairs[..n]) + [PairLine(items, pairs[n])]
  {
  }

  lemma LineOfPair(items: seq<Item>, ids: seq<string>, i: nat, pair: (string, string))
    requires AllSeparable(items) && Separable(pair.0, pair.1)
    requires i < |ids| && ids[i] == JoinId(pair.0, pair.1) && LinesOfIds(items, ids[..i]).Success?
    ensures LinesOfIds(items, ids[..i + 1]) == Success(LinesOfIds(items, ids[..i]).value + [PairLine(items, pair)])
  {
    LinesOfIdsStep(items, ids, i);
    SplitOfJoin(pair.0, pair.1);
    IdTotalIsPairCredit(items, pair);
  }

  lemma {:induction false} LinesOfPairs(items: seq<Item>, pairs: seq<(string, string)>)
    requires AllSeparable(items) && forall i :: 0 <= i < |pairs| ==> Separable(pairs[i].0, pairs[i].1)
    ensures LinesOfIds(items, Joins(pairs)) == Success(PairLines(items, pairs))
  {
    if pairs != [] {
      var n := |pairs| - 1;
      LinesOfPairs(items, pairs[..n]);
      assert Joins(pairs)[..n] == Joins(pairs[..n]) && Joins(pairs)[..n + 1] == Joins(pairs);
      LineOfPair(items, Joins(pairs), n, pairs[n]);
      PairLinesSnoc(items, pairs, n);
    } else {
      assert PairLines(items, pairs) == [];
    }
  }

  /**
   The single form refines the itemised one: one line per distinct account and entity, at its first place,
   crediting what the itemised lines credit to that pair.
   */
  lemma SingleRefinesItemised(items: seq<Item>)
    requires AllSeparable(items)
    ensures var r, itemised := SingleCreditLines(items), CreditLines(items);
            && r.Success?
            && Pairs(r.value) == FirstSeen(Pairs(itemised))
            && forall k :: 0 <= k < |r.value| ==>
                 r.value[k].credit == Some(PairCredit(itemised, PairOf(r.value[k])))
  {
    var pairs := Pairs(CreditLines(items));
    assert Joins(pairs) == Ids(items);
    FirstSeenOfJoins(pairs);
    forall i | 0 <= i < |FirstSeen(pairs)|
      ensures Separable(FirstSeen(pairs)[i].0, FirstSeen(pairs)[i].1)
    {
      assert FirstSeen(pairs)[i] in pairs;
    }
    LinesOfPairs(items, FirstSeen(pairs));
    assert Pairs(SingleCreditLines(items).value) == FirstSeen(pairs);
  }

  /** Each single line stems from an id that splits into its account and entity. */
  lemma {:induction false} LineHasItsId(items: seq<Item>, ids: seq<string>, k: nat)
    requires LinesOfIds(items, ids).Success?
    ensures |LinesOfIds(items, ids).value| == |ids|
    ensures k < |ids| ==> SplitId(ids[k]) == Some(PairOf(LinesOfIds(items, ids).value[k]))
  {
    if ids == [] {
    } else {
      LineHasItsId(items, ids[..|ids| - 1], if k < |ids| - 1 then k else 0);
      if k != 0 {
        LineHasItsId(items, ids[..|ids| - 1], 0);
      }
    }
  }

  /** And only then: with an id that does not survive the round trip the single form fails or misses a pair. */
  lemma SingleRefinesOnlySeparable(items: seq<Item>)
    requires var r := SingleCreditLines(items);
             r.Success? && Pairs(r.value) == FirstSeen(Pairs(CreditLines(items)))
    ensures AllSeparable(items)
  {
    var lines, pairs := SingleCreditLines(items).value, Pairs(CreditLines(items));
    forall i | 0 <= i < |items|
      ensures Separable(items[i].debitAccount, items[i].entity)
    {
      assert pairs[i] in FirstSeen(pairs);
      var k :| 0 <= k < |lines| && Pairs(lines)[k] == pairs[i];
      var ids := FirstSeen(Ids(items));
      LineHasItsId(items, ids, k);
      JoinOfSplit(ids[k]);
      SplitOfJoin(items[i].debitAccount, items[i].entity);
    }
  }

  // ---------------------------------------------------------------- the journal entry balances

  /** The lines of the payload: credits first, in the configured form. */
  function JournalLines(items: seq<Item>, setup: Setup, single: bool): Result<seq<Line>> {
    var credits := if single then SingleCreditLines(items) else Success(CreditLines(items));
    var debits := DebitLines(items, setup);
    if credits.Failure? || debits.Failure? then Failure else Success(credits.value + debits.value)
  }

  method ConstructJournalEntry(items: seq<Item>, setup: Setup, single: bool) returns (r: Result<seq<Line>>)
    ensures r == JournalLines(items, setup, single)
  {
    var credits: seq<Line>;
    if single {
      var c := ConstructSingleCreditLines(items);
      if c.Failure? {
        return Failure;
      }
      credits := c.value;
    } else {
      credits := ConstructCreditLines(items);
    }
    var debits := ConstructDebitLines(items, setup);
    if debits.Failure? {
      return Failure;
    }
    var lines: seq<Line> := [];
    lines := lines + credits;
    lines := lines + debits.value;
    assert lines == credits + debits.value;
    r := Success(lines);
  }

  function AmountOfItems(items: seq<Item>): int {
    if items == [] then 0 else AmountOfItems(items[..|items| - 1]) + items[|items| - 1].amount
  }

  lemma {:induction false} TotalConcat(a: seq<Line>, b: seq<Line>, c: Column)
    ensures Total(a + b, c) == Total(a, c) + Total(b, c)
  {
    if b == [] {
      assert a + b == a;
    } else {
      assert (a + b)[..|a + b| - 1] == a + b[..|b| - 1];
      TotalConcat(a, b[..|b| - 1], c);
    }
  }

  lemma DebitPartTotals(item: Item, setup: Setup)
    requires DebitPart(item, setup).Success?
    ensures var lines := DebitPart(item, setup).value;
            Total(lines, Debit) + Total(lines, Tax1) == item.amount && Total(lines, Credit) == 0
  {
    var lines, base := DebitPart(item, setup).value, BaseLine(item, item.account);
    if item.taxCode == None || item.tax == None {
      TotalOfFew(lines, Debit);
      TotalOfFew(lines, Tax1);
      TotalOfFew(lines, Credit);
    } else {
      HandlingConserves(base, item.amount, item.tax.value, setup.rates[item.taxCode.value], setup.balancing,
                        item.taxCode.value, setup.defaultCode, JOURNAL_ENTRY);
      TotalOfFew(lines, Amount);
    }
  }

  lemma {:induction false} DebitTotals(items: seq<Item>, setup: Setup)
    requires DebitLines(items, setup).Success?
    ensures var lines := DebitLines(items, setup).value;
            Total(lines, Debit) + Total(lines, Tax1) == AmountOfItems(items) && Total(lines, Credit) == 0
  {
    if items == [] {
    } else {
      var front, last := items[..|items| - 1], items[|items| - 1];
      var before, part := DebitLines(front, setup).value, DebitPart(last, setup).value;
      DebitTotals(front, setup);
      DebitPartTotals(last, setup);
      TotalConcat(before, part, Debit);
      TotalConcat(before, part, Tax1);
      TotalConcat(before, part, Credit);
    }
  }

  /** Lines that carry nothing but a credit. */
  predicate CreditOnly(lines: seq<Line>) {
    forall i :: 0 <= i < |lines| ==> lines[i].debit == None && lines[i].tax1 == None
  }

  lemma {:induction false} CreditOnlyTotals(lines: seq<Line>)
    requires CreditOnly(lines)
    ensures Total(lines, Debit) == 0 && Total(lines, Tax1) == 0
  {
    if lines == [] {
    } else {
      CreditOnlyTotals(lines[..|lines| - 1]);
    }
  }

  lemma {:induction false} CreditTotals(items: seq<Item>)
    ensures Total(CreditLines(items), Credit) == AmountOfItems(items)
  {
    if items == [] {
    } else {
      CreditTotals(items[..|items| - 1]);
      assert CreditLines(items)[..|items| - 1] == CreditLines(items[..|items| - 1]);
    }
  }

  function TotalOfIds(items: seq<Item>, ids: seq<string>): int {
    if ids == [] then 0 else TotalOfIds(items, ids[..|ids| - 1]) + IdTotal(items, ids[|ids| - 1])
  }

  lemma {:induction false} LinesOfIdsTotals(items: seq<Item>, ids: seq<string>)
    requires LinesOfIds(items, ids).Success?
    ensures Total(LinesOfIds(items, ids).value, Credit) == TotalOfIds(items, ids)
    ensures CreditOnly(LinesOfIds(items, ids).value)
  {
    if ids == [] {
    } else {
      LinesOfIdsTotals(items, ids[..|ids| - 1]);
      var lines := LinesOfIds(items, ids).value;
      assert lines[..|lines| - 1] == LinesOfIds(items, ids[..|ids| - 1]).value;
    }
  }

  /** One more item adds its amount to the total of its own id only. */
  lemma {:induction false} TotalOfIdsGrows(items: seq<Item>, item: Item, ids: seq<string>)
    requires NoDup(ids)
    ensures TotalOfIds(items + [item], ids)
         == TotalOfIds(items, ids) + if JoinId(item.debitAccount, item.entity) in ids then item.amount else 0
  {
    if ids == [] {
    } else {
      TotalOfIdsGrows(items, item, ids[..|ids| - 1]);
      assert (items + [item])[..|items|] == items;
    }
  }

  /** The distinct ids gather every amount once, whether or not the ids split back. */
  lemma {:induction false} DistinctIdsGatherAll(items: seq<Item>)
    ensures TotalOfIds(items, FirstSeen(Ids(items))) == AmountOfItems(items)
  {
    if items == [] {
    } else {
      var n := |items| - 1;
      var front, item := items[..n], items[n];
      var seen, id := FirstSeen(Ids(front)), JoinId(item.debitAccount, item.entity);
      DistinctIdsGatherAll(front);
      assert items[..n + 1] == items == front + [item];
      IdsSnoc(items, n);
      TotalOfIdsGrows(front, item, seen);
      if id !in seen {
        UnseenIdHasNoTotal(front, id);
        assert (seen + [id])[..|seen|] == seen;
      }
    }
  }

  /**
   A journal entry that is built balances: credits equal debits plus taxes, over any mix of taxed, split and
   untaxed lines, with single or itemised credit lines.
   */
  lemma JournalEntryBalances(items: seq<Item>, setup: Setup, single: bool)
    requires JournalLines(items, setup, single).Success?
    ensures var lines := JournalLines(items, setup, single).value;
            Total(lines, Credit) == Total(lines, Debit) + Total(lines, Tax1) == AmountOfItems(items)
  {
    var credits := if single then SingleCreditLines(items).value else CreditLines(items);
    var debits := DebitLines(items, setup).value;
    DebitTotals(items, setup);
    if single {
      LinesOfIdsTotals(items, FirstSeen(Ids(items)));
      DistinctIdsGatherAll(items);
    } else {
      CreditTotals(items);
    }
    CreditOnlyTotals(credits);
    TotalConcat(credits, debits, Credit);
    TotalConcat(credits, debits, Debit);
    TotalConcat(credits, debits, Tax1);
  }
}
