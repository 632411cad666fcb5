/** The tax split of one export line. Money is in cents and a tax rate is a fraction of a percentage. */
module Tax {
  import opened Common
  import opened Expenses

  type Divisor = n: int | n > 0 witness 1

  /** p/q percent. */
  datatype Rate = Rate(p: nat, q: Divisor)

  /** The fields of a payload line that the handler or the journal entry sets; a missing or null field is None. */
  datatype Line = Line(
    account: string,
    entity: string,
    amount: Option<int>,
    credit: Option<int>,
    debit: Option<int>,
    gross: Option<int>,
    tax1: Option<int>,
    taxCode: Option<string>)

  function OrZero(x: Option<int>): int {
    if x.Some? then x.value else 0
  }

  function Abs(x: int): nat {
    if x < 0 then -x else x
  }

  // ---------------------------------------------------------------- rounding

  /** c is a nearest cent to n/d. */
  predicate Nearest(c: int, n: int, d: Divisor) {
    2 * Abs(c * d - n) <= d
  }

  /** n/d to the nearest cent, ties to the even one. */
  function Round(n: int, d: Divisor): int {
    var down := n / d;
    if 2 * (n % d) < d || (2 * (n % d) == d && down % 2 == 0) then down else down + 1
  }

  lemma RoundIsNearest(n: int, d: Divisor)
    ensures Nearest(Round(n, d), n, d)
  {
    var down := n / d;
    assert n == down * d + n % d;
    assert (down + 1) * d == down * d + d;
  }

  /** Of two nearest cents it is the even one. */
  lemma TieGoesToEven(n: int, d: Divisor)
    requires 2 * Abs(Round(n, d) * d - n) == d
    ensures Round(n, d) % 2 == 0
  {
    var down := n / d;
    assert n == down * d + n % d;
    assert (down + 1) * d == down * d + d;
  }

  lemma {:induction false} Apart(c: int, e: int, d: Divisor)
    ensures c < e ==> e * d - c * d >= d
    decreases e - c
  {
    if c + 1 < e {
      Apart(c, e - 1, d);
      assert e * d == (e - 1) * d + d;
    } else if c + 1 == e {
      assert e * d == c * d + d;
    }
  }

  /** Strictly less than half a cent away there is no other nearest cent. */
  lemma NearestIsUnique(c: int, e: int, n: int, d: Divisor)
    requires 2 * Abs(c * d - n) < d && Nearest(e, n, d)
    ensures c == e
  {
    Apart(c, e, d);
    Apart(e, c, d);
  }

  /** A positive nearest cent is far from being one with the opposite sign. */
  lemma FarFromNegation(e: int, n: int, d: Divisor)
    requires e > 0 && Nearest(e, n, d)
    ensures 2 * Abs(n - (-e) * d) > d
  {
    Apart(0, e, d);
    assert (-e) * d == -(e * d);
  }

  // ---------------------------------------------------------------- the split

  /** The tax contained in a gross amount at the rate. */
  function ExpectedTax(amount: int, rate: Rate): int {
    Round(amount * rate.p, 100 * rate.q + rate.p)
  }

  /** The net amount the stated tax belongs to at the rate. */
  function TaxedNet(tax: int, rate: Rate): int {
    if rate.p == 0 then 0 else Round(100 * tax * rate.q, rate.p)
  }

  predicate IsSplit(amount: int, tax: int, rate: Rate, balancing: bool) {
    balancing && Abs(tax) != ExpectedTax(amount, rate)
  }

  /** The line without its amount key, and the amount under the key of the export module. */
  function Priced(line: Line, net: int, m: ExportType): Line {
    if m == JOURNAL_ENTRY then line.(debit := Some(net), amount := None) else line.(amount := Some(net))
  }

  /** The lines that replace a taxed base line. */
  function Handled(base: Line, amount: int, tax: int, rate: Rate, balancing: bool, code: string,
                   defaultCode: Option<string>, m: ExportType): seq<Line> {
    var stated := if m == JOURNAL_ENTRY || m == EXPENSE_REPORT then Some(tax) else base.tax1;
    if IsSplit(amount, tax, rate, balancing) then
      var net := TaxedNet(tax, rate);
      var rest := amount - net - tax;
      var taxed := Priced(base, net, m).(taxCode := Some(code), tax1 := stated);
      var untaxed := Priced(base, rest, m).(taxCode := defaultCode);
      if m == JOURNAL_ENTRY then [taxed.(gross := Some(net + tax)), untaxed.(gross := Some(rest))] else [taxed, untaxed]
    else
      var line := Priced(base, amount - tax, m).(taxCode := Some(code), tax1 := stated);
      if m == JOURNAL_ENTRY then [line.(gross := Some(amount))] else [line]
  }

  /** handle_taxed_line_items. Both lines of a split start as copies of the base line. */
  method HandleTaxedLineItems(base: Line, amount: int, tax: int, rate: Rate, balancing: bool, code: string,
                              defaultCode: Option<string>, m: ExportType) returns (lines: seq<Line>)
    ensures lines == Handled(base, amount, tax, rate, balancing, code, defaultCode, m)
  {
    lines := [];
    var expected := Round(amount * rate.p, 100 * rate.q + rate.p);
    if balancing && Abs(tax) != expected {
      var net := if rate.p != 0 then Round(tax * 100 * rate.q, rate.p) else 0;
      var rest := amount - net - tax;
      var taxable := base;
      taxable := taxable.(amount := Some(net));
      taxable := taxable.(taxCode := Some(code));
      var untaxed := base;
      untaxed := untaxed.(amount := Some(rest));
      untaxed := untaxed.(taxCode := defaultCode);
      if m == JOURNAL_ENTRY {
        taxable := taxable.(gross := Some(net + tax));
        taxable := taxable.(debit := Some(net));
        taxable := taxable.(amount := None);
        untaxed := untaxed.(gross := Some(rest));
        untaxed := untaxed.(debit := Some(rest));
        untaxed := untaxed.(amount := None);
        taxable := taxable.(tax1 := Some(tax));
      }
      if m == EXPENSE_REPORT {
        taxable := taxable.(tax1 := Some(tax));
      }
      assert untaxed.gross == if m == JOURNAL_ENTRY then Some(rest) else base.gross;
      lines := lines + [taxable];
      lines := lines + [untaxed];
    } else {
      var line := base;
      line := line.(amount := Some(amount - tax));
      line := line.(taxCode := Some(code));
      if m == EXPENSE_REPORT {
        line := line.(tax1 := Some(tax));
      }
      if m == JOURNAL_ENTRY {
        line := line.(tax1 := Some(tax));
        line := line.(gross := Some(amount));
        line := line.(debit := Some(amount - tax));
        line := line.(amount := None);
      }
      lines := lines + [line];
    }
  }

  // ---------------------------------------------------------------- what it keeps

  datatype Column = Amount | Credit | Debit | Gross | Tax1

  /** The number in a column of the line, 0 where there is none. */
  function Entry(line: Line, c: Column): int {
    match c
    case Amount => OrZero(line.amount)
    case Credit => OrZero(line.credit)
    case Debit => OrZero(line.debit)
    case Gross => OrZero(line.gross)
    case Tax1 => OrZero(line.tax1)
  }

  function Total(lines: seq<Line>, c: Column): int {
    if lines == [] then 0 else Total(lines[..|lines| - 1], c) + Entry(lines[|lines| - 1], c)
  }

  lemma TotalOfFew(lines: seq<Line>, c: Column)
    requires 1 <= |lines| <= 2
    ensures Total(lines, c) == Entry(lines[0], c) + if |lines| == 2 then Entry(lines[1], c) else 0
  {
    if |lines| == 2 {
      TotalOfFew(lines[..1], c);
    } else {
      assert lines[..0] == [];
    }
  }

  /** No cent is lost or invented: the nets of the handled lines and the stated tax make up the amount. */
  lemma HandlingConserves(base: Line, amount: int, tax: int, rate: Rate, balancing: bool, code: string,
                          defaultCode: Option<string>, m: ExportType)
    requires base.tax1 == None
    requires base.credit == None && (m != JOURNAL_ENTRY ==> base.debit == None)
    ensures var lines := Handled(base, amount, tax, rate, balancing, code, defaultCode, m);
            && Total(lines, Amount) + Total(lines, Debit) + tax == amount
            && Total(lines, Credit) == 0
            && Total(lines, Tax1) == (if m == JOURNAL_ENTRY || m == EXPENSE_REPORT then tax else 0)
  {
    var lines := Handled(base, amount, tax, rate, balancing, code, defaultCode, m);
    TotalOfFew(lines, Amount);
    TotalOfFew(lines, Credit);
    TotalOfFew(lines, Debit);
    TotalOfFew(lines, Tax1);
  }

  /**
   The tax goes with the item's code and the rest with the default one: the first line has the code of the tax
   item and, where the export states it, the tax; a second line has the default code and no tax.
   */
  lemma TaxGoesWithItsCode(base: Line, amount: int, tax: int, rate: Rate, balancing: bool, code: string,
                           defaultCode: Option<string>, m: ExportType)
    requires base.tax1 == None
    ensures var lines := Handled(base, amount, tax, rate, balancing, code, defaultCode, m);
            && (|lines| == 2 <==> balancing && Abs(tax) != ExpectedTax(amount, rate))
            && 1 <= |lines| <= 2
            && lines[0].taxCode == Some(code)
            && (lines[0].tax1 == Some(tax) <==> m == JOURNAL_ENTRY || m == EXPENSE_REPORT)
            && (|lines| == 2 ==> lines[1].taxCode == defaultCode && lines[1].tax1 == None)
            && forall k :: 0 <= k < |lines| ==>
                 lines[k].account == base.account && lines[k].entity == base.entity && lines[k].credit == base.credit
                 && (m == JOURNAL_ENTRY ==> lines[k].amount == None)
                 && (m != JOURNAL_ENTRY ==> lines[k].gross == base.gross)
  {
  }

  /** A line that carries this net and this tax: in debit and gross on a journal entry, in amount otherwise. */
  predicate Carries(line: Line, base: Line, net: int, tax: int, m: ExportType) {
    if m == JOURNAL_ENTRY then line.amount == None && line.debit == Some(net) && line.gross == Some(net + tax)
    else line.amount == Some(net) && line.debit == base.debit && line.gross == base.gross
  }

  /**
   The numbers on the handled lines. A line left whole carries the amount without the tax. Of a split the first line
   carries the net to which the rate adds the tax, to the nearest cent, or nothing at a rate of zero; and the second
   carries the rest without tax.
   */
  lemma HandledCarry(base: Line, amount: int, tax: int, rate: Rate, balancing: bool, code: string,
                     defaultCode: Option<string>, m: ExportType) returns (net: int)
    ensures var lines := Handled(base, amount, tax, rate, balancing, code, defaultCode, m);
            && 1 <= |lines| <= 2 && Carries(lines[0], base, net, tax, m)
            && (|lines| == 1 ==> net == amount - tax)
            && (|lines| == 2 ==>
                  && Carries(lines[1], base, amount - net - tax, 0, m)
                  && if rate.p == 0 then net == 0 else Nearest(net, 100 * tax * rate.q, rate.p))
  {
    net := if IsSplit(amount, tax, rate, balancing) then TaxedNet(tax, rate) else amount - tax;
    if rate.p > 0 {
      RoundIsNearest(100 * tax * rate.q, rate.p);
    }
  }

  /** On a journal entry every handled line is consistent in itself and the gross amounts make up the amount. */
  lemma JournalGrossConserves(base: Line, amount: int, tax: int, rate: Rate, balancing: bool, code: string,
                              defaultCode: Option<string>)
    requires base.tax1 == None
    ensures var lines := Handled(base, amount, tax, rate, balancing, code, defaultCode, JOURNAL_ENTRY);
            && (forall k :: 0 <= k < |lines| ==>
                  lines[k].gross.Some? && Entry(lines[k], Gross) == Entry(lines[k], Debit) + Entry(lines[k], Tax1))
            && Total(lines, Gross) == amount
  {
    var lines := Handled(base, amount, tax, rate, balancing, code, defaultCode, JOURNAL_ENTRY);
    TotalOfFew(lines, Gross);
  }

  // ---------------------------------------------------------------- how far the stated tax may be off

  /** Twice the distance, in units of 1/(100 q) cent, of the tax from the rate applied to the net. */
  function Mismatch(net: int, tax: int, rate: Rate): nat {
    2 * Abs(net * rate.p - 100 * tax * rate.q)
  }

  /** What a line carries without its tax, wherever it is stored. */
  function Net(line: Line): int {
    Entry(line, Amount) + Entry(line, Debit)
  }

  /** The taxed line of a split carries its tax to within half the rate: |net r/100 - tax| <= r/200 cent. */
  lemma SplitTaxIsExact(base: Line, amount: int, tax: int, rate: Rate, code: string, defaultCode: Option<string>,
                        m: ExportType)
    requires rate.p > 0 && IsSplit(amount, tax, rate, true)
    requires if m == JOURNAL_ENTRY then base.amount == None else base.debit == None
    ensures var lines := Handled(base, amount, tax, rate, true, code, defaultCode, m);
            Mismatch(Net(lines[0]), tax, rate) <= rate.p
  {
    RoundIsNearest(100 * tax * rate.q, rate.p);
  }

  /** The rate applied to the taxed net falls short of the tax by as much as the amount's tax share does. */
  lemma MismatchOfNet(amount: int, tax: int, rate: Rate)
    ensures (amount - tax) * rate.p - 100 * tax * rate.q == amount * rate.p - tax * (100 * rate.q + rate.p)
  {
    assert (amount - tax) * rate.p == amount * rate.p - tax * rate.p;
    assert tax * (100 * rate.q + rate.p) == 100 * tax * rate.q + tax * rate.p;
  }

  /**
   With balancing on, a line left whole carries its tax to within |net r/100 - tax| <= (100 + r)/200 cent exactly
   when the stated tax is not negative: the comparison drops the sign of the tax but keeps that of the amount.
   */
  lemma WholeTaxIsCloseExactly(base: Line, amount: int, tax: int, rate: Rate, code: string, defaultCode: Option<string>,
                               m: ExportType)
    requires !IsSplit(amount, tax, rate, true)
    requires if m == JOURNAL_ENTRY then base.amount == None else base.debit == None
    ensures var lines := Handled(base, amount, tax, rate, true, code, defaultCode, m);
            Mismatch(Net(lines[0]), tax, rate) <= 100 * rate.q + rate.p <==> tax >= 0
  {
    assert Net(Handled(base, amount, tax, rate, true, code, defaultCode, m)[0]) == amount - tax;
    var n, d := amount * rate.p, 100 * rate.q + rate.p;
    RoundIsNearest(n, d);
    MismatchOfNet(amount, tax, rate);
    if tax < 0 {
      FarFromNegation(-tax, n, d);
    }
  }

  /** A charge of 1.10 with a tax of -0.10 at 10 percent is left whole, 0.22 away from the tax of its net. */
  lemma NegativeTaxIsLeftWhole()
    ensures !IsSplit(110, -10, Rate(10, 1), true) && Mismatch(120, -10, Rate(10, 1)) == 2 * 2200
  {
    assert 110 * 10 == 10 * 110;
    assert Round(1100, 110) == 10;
  }

  /** The other way round: a non-negative tax within that distance, not on it, is never split. */
  lemma CloseTaxIsNotSplit(amount: int, tax: int, rate: Rate)
    requires tax >= 0 && Mismatch(amount - tax, tax, rate) < 100 * rate.q + rate.p
    ensures !IsSplit(amount, tax, rate, true)
  {
    var d := 100 * rate.q + rate.p;
    RoundIsNearest(amount * rate.p, d);
    MismatchOfNet(amount, tax, rate);
    NearestIsUnique(tax, ExpectedTax(amount, rate), amount * rate.p, d);
  }

  /** A refund states a negative tax for a negative amount; it is split unless the tax rounds to nothing. */
  lemma RefundIsSplitExactly(amount: int, tax: int, rate: Rate)
    requires amount <= 0
    ensures IsSplit(amount, tax, rate, true) <==> !(tax == 0 && ExpectedTax(amount, rate) == 0)
  {
    var d := 100 * rate.q + rate.p;
    RoundIsNearest(amount * rate.p, d);
    var e := ExpectedTax(amount, rate);
    assert amount * rate.p <= 0;
    Apart(0, e, d);
  }
}
