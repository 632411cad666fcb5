/** Vendor payments: which exported documents one run pays together, and that no expense group is paid twice. */
module Payments {
  import opened Common
  import opened PaymentIds

  /** A row of the table of bills or of the table of expense reports. */
  datatype Ref = Ref(kind: Kind, id: nat)

  /** A bill or expense report; email is the employee's, from the description of its group. */
  datatype Doc = Doc(group: nat, email: string, entity: string, synced: bool, paidOnNetsuite: bool, retired: bool)

  /** Both tables, with every row: a late check looks one up by its id alone. */
  type Docs = map<Ref, Doc>

  /** payments holds the groups of each committed payment. */
  datatype Books = Books(docs: Docs, payments: seq<seq<nat>>)

  /**
   What the throttle and NetSuite answer for the bucket of an entity. Late is a log older than two months; Fault is a
   SOAP fault while that many errors of the workspace have no group.
   */
  datatype Answer = Skip | Late | Refuse | Fault(groupless: nat) | Accept

  /** A run so far; one that raised does nothing more. */
  datatype Run = Run(books: Books, raised: bool)

  /**
   What the pass over one table depends on: its query, the documents for which Fyle answers, those whose group has a
   complete log, those that are payable, and the answers for the buckets.
   */
  datatype Pass = Pass(listing: seq<Ref>, answered: set<Ref>, logged: set<Ref>, payable: set<Ref>,
                       answers: map<string, Answer>)

  // ---------------------------------------------------------------- the pass over one table

  predicate Open(docs: Docs, kind: Kind, row: Ref) {
    row in docs && row.kind == kind && !docs[row].synced && !docs[row].retired
  }

  /**
   The query of the run: the open documents of the kind, each once, among the listed ones, which are those of
   exported reimbursable groups of the workspace in the order of the query.
   */
  function Query(docs: Docs, kind: Kind, listing: seq<Ref>): (r: seq<Ref>)
    ensures NoDup(r)
    ensures forall row :: row in r <==> row in listing && Open(docs, kind, row)
  {
    if listing == [] then []
    else
      var before, row := Query(docs, kind, listing[..|listing| - 1]), listing[|listing| - 1];
      if Open(docs, kind, row) && row !in before then before + [row] else before
  }

  /** payable: open on NetSuite and reimbursed in Fyle. */
  predicate Eligible(docs: Docs, payable: set<Ref>, row: Ref) {
    row in docs && row in payable
  }

  function EntitiesOf(docs: Docs, payable: set<Ref>, rows: seq<Ref>): seq<string> {
    if rows == [] then []
    else
      var before, row := EntitiesOf(docs, payable, rows[..|rows| - 1]), rows[|rows| - 1];
      if Eligible(docs, payable, row) then before + [docs[row].entity] else before
  }

  /** The lines of one entity's payment. */
  function LinesOf(docs: Docs, payable: set<Ref>, rows: seq<Ref>, entity: string): (r: seq<Ref>)
    ensures forall row :: row in r <==> row in rows && Eligible(docs, payable, row) && docs[row].entity == entity
  {
    if rows == [] then []
    else
      var before, row := LinesOf(docs, payable, rows[..|rows| - 1], entity), rows[|rows| - 1];
      if Eligible(docs, payable, row) && docs[row].entity == entity then before + [row] else before
  }

  /** The entities of a pass in the order of their first documents. */
  function Entities(docs: Docs, kind: Kind, pass: Pass): seq<string> {
    FirstSeen(EntitiesOf(docs, pass.payable, Query(docs, kind, pass.listing)))
  }

  function Lines(docs: Docs, kind: Kind, pass: Pass, entity: string): seq<Ref> {
    LinesOf(docs, pass.payable, Query(docs, kind, pass.listing), entity)
  }

  function DocumentOf(docs: Docs, row: Ref): Document
    requires row in docs
  {
    Document(row.kind, docs[row].group, docs[row].email, row.id)
  }

  /** unique_id of a bucket, made of its first document. */
  function BucketId(docs: Docs, lines: seq<Ref>): string {
    if lines == [] || lines[0] !in docs then "" else UniqueId(DocumentOf(docs, lines[0]))
  }

  /** The row a late check goes for. */
  function PickedRow(kind: Kind, uniqueId: string): Option<Ref> {
    var id := PickedId(uniqueId);
    if id == None then None else Some(Ref(kind, id.value))
  }

  /** The groups of the documents; a document that does not exist has none. */
  function GroupsOf(docs: Docs, rows: seq<Ref>): seq<nat> {
    if rows == [] then []
    else
      var before, row := GroupsOf(docs, rows[..|rows| - 1]), rows[|rows| - 1];
      if row in docs then before + [docs[row].group] else before
  }

  /** The transaction of an accepted payment. */
  function Commit(b: Books, kind: Kind, lines: seq<Ref>): Books {
    var groups := GroupsOf(b.docs, lines);
    Books(map row | row in b.docs :: if row.kind == kind && b.docs[row].group in groups
                                     then b.docs[row].(synced := true, paidOnNetsuite := true) else b.docs[row],
          b.payments + [groups])
  }

  function RetireDoc(b: Books, row: Ref): Books {
    if row in b.docs then b.(docs := b.docs[row := b.docs[row].(retired := true)]) else b
  }

  /** A late check whose id picks no existing row raises, which ends the run. */
  predicate Unreadable(docs: Docs, kind: Kind, uniqueId: string) {
    var row := PickedRow(kind, uniqueId);
    row == None || row.value !in docs
  }

  /** The handler of a fault upserts the one error without a group, which raises when there are several. */
  predicate Ambiguous(groupless: nat) {
    groupless >= 2
  }

  function PayBucket(r: Run, kind: Kind, lines: seq<Ref>, uniqueId: string, answer: Answer): Run {
    if r.raised || lines == [] then r
    else
      match answer
      case Accept => Run(Commit(r.books, kind, lines), false)
      case Late =>
        if Unreadable(r.books.docs, kind, uniqueId) then Run(r.books, true)
        else Run(RetireDoc(r.books, PickedRow(kind, uniqueId).value), false)
      case Fault(groupless) => Run(r.books, Ambiguous(groupless))
      case _ => r
  }

  function AnswerFor(answers: map<string, Answer>, entity: string): Answer {
    if entity in answers then answers[entity] else Refuse
  }

  /** The buckets of the entities in turn; lines and ids were gathered from docs before the first one is paid. */
  function PayBuckets(b: Books, kind: Kind, docs: Docs, pass: Pass, entities: seq<string>): Run {
    if entities == [] then Run(b, false)
    else
      var e := entities[|entities| - 1];
      var lines := Lines(docs, kind, pass, e);
      PayBucket(PayBuckets(b, kind, docs, pass, entities[..|entities| - 1]), kind, lines, BucketId(docs, lines),
                AnswerFor(pass.answers, e))
  }

  /** Every listed document is asked for in Fyle, and its complete log is read; if either is missing this raises. */
  predicate Gatherable(pass: Pass, row: Ref) {
    row in pass.answered && row in pass.logged
  }

  predicate AllGatherable(pass: Pass, rows: seq<Ref>) {
    forall row :: row in rows ==> Gatherable(pass, row)
  }

  /** The buckets are gathered first, so that a document that raises is one before anything is paid. */
  function PayKind(b: Books, kind: Kind, pass: Pass): Run {
    if !AllGatherable(pass, Query(b.docs, kind, pass.listing)) then Run(b, true)
    else PayBuckets(b, kind, b.docs, pass, Entities(b.docs, kind, pass))
  }

  /** The bills, then the expense reports, unless the pass over the bills raised. */
  function PayRun(b: Books, bills: Pass, reports: Pass): Run {
    var first := PayKind(b, BILL, bills);
    if first.raised then first else PayKind(first.books, EXPENSE_REPORT, reports)
  }

  // ---------------------------------------------------------------- the buckets partition the eligible documents

  lemma {:induction false} EntityIsListed(docs: Docs, payable: set<Ref>, rows: seq<Ref>, e: string)
    ensures e in EntitiesOf(docs, payable, rows) <==> LinesOf(docs, payable, rows, e) != []
  {
    if rows == [] {
    } else {
      EntityIsListed(docs, payable, rows[..|rows| - 1], e);
    }
  }

  lemma {:induction false} LinesOnce(docs: Docs, payable: set<Ref>, rows: seq<Ref>, e: string)
    requires NoDup(rows)
    ensures NoDup(LinesOf(docs, payable, rows, e))
  {
    if rows == [] {
    } else {
      LinesOnce(docs, payable, rows[..|rows| - 1], e);
    }
  }

  /**
   Each eligible document of the query is a line of exactly one bucket, once: that of its own entity. Any other
   document is in none, and no bucket is empty.
   */
  lemma BucketsPartition(docs: Docs, kind: Kind, pass: Pass, row: Ref, e: string)
    ensures var lines, entities := Lines(docs, kind, pass, e), Entities(docs, kind, pass);
            && (row in lines <==>
                  row in pass.listing && Open(docs, kind, row) && row in pass.payable && docs[row].entity == e)
            && (row in lines ==> e in entities)
            && (e in entities <==> lines != [])
            && NoDup(lines) && NoDup(entities)
  {
    var rows := Query(docs, kind, pass.listing);
    EntityIsListed(docs, pass.payable, rows, e);
    LinesOnce(docs, pass.payable, rows, e);
  }

  // ---------------------------------------------------------------- no group is paid twice

  predicate OneDocEach(docs: Docs) {
    forall a, b :: a in docs && b in docs && docs[a].group == docs[b].group ==> a == b
  }

  predicate PaidOnce(payments: seq<seq<nat>>) {
    && (forall i :: 0 <= i < |payments| ==> NoDup(payments[i]))
    && (forall i, j, g :: 0 <= i < j < |payments| && g in payments[i] ==> g !in payments[j])
  }

  predicate IsPaid(b: Books, g: nat) {
    exists i :: 0 <= i < |b.payments| && g in b.payments[i]
  }

  /** A paid group's document is synced, so that no later query finds it. */
  ghost predicate PaidIsSynced(b: Books) {
    forall id :: id in b.docs && IsPaid(b, b.docs[id].group) ==> b.docs[id].synced
  }

  /** A paid group has its document, so that no other one takes its place. */
  ghost predicate PaidIsKept(b: Books) {
    forall g: nat :: IsPaid(b, g) ==> exists id :: id in b.docs && b.docs[id].group == g
  }

  ghost predicate Inv(b: Books) {
    OneDocEach(b.docs) && PaidOnce(b.payments) && PaidIsSynced(b) && PaidIsKept(b)
  }

  lemma {:induction false} InGroupsOf(docs: Docs, rows: seq<Ref>, g: nat)
    ensures g in GroupsOf(docs, rows) <==> exists id :: id in rows && id in docs && docs[id].group == g
  {
    if rows == [] {
    } else {
      var front, last := rows[..|rows| - 1], rows[|rows| - 1];
      InGroupsOf(docs, front, g);
      if id :| id in rows && id in docs && docs[id].group == g {
        assert id in front || id == last;
      }
      if g in GroupsOf(docs, rows) {
        if g in GroupsOf(docs, front) {
          var id :| id in front && id in docs && docs[id].group == g;
          assert id in rows;
        } else {
          assert last in rows;
        }
      }
    }
  }

  lemma {:induction false} GroupsOnce(docs: Docs, rows: seq<Ref>)
    requires OneDocEach(docs) && NoDup(rows)
    ensures NoDup(GroupsOf(docs, rows))
  {
    if rows == [] {
    } else {
      var front, last := rows[..|rows| - 1], rows[|rows| - 1];
      GroupsOnce(docs, front);
      if last in docs {
        InGroupsOf(docs, front, docs[last].group);
      }
    }
  }

  /** A committed payment marks exactly the documents of its lines. */
  lemma CommitSyncsExactly(b: Books, kind: Kind, lines: seq<Ref>, id: Ref)
    requires OneDocEach(b.docs) && id in b.docs
    requires forall l :: l in lines ==> l in b.docs && l.kind == kind
    ensures id in Commit(b, kind, lines).docs
    ensures Commit(b, kind, lines).docs[id] ==
              if id in lines then b.docs[id].(synced := true, paidOnNetsuite := true) else b.docs[id]
  {
    InGroupsOf(b.docs, lines, b.docs[id].group);
  }

  /** Lines that may be paid: unsynced documents of the kind, each once, whose groups no payment names yet. */
  ghost predicate Unpaid(b: Books, kind: Kind, lines: seq<Ref>) {
    && NoDup(lines)
    && forall l :: l in lines ==> l in b.docs && l.kind == kind && !b.docs[l].synced && !IsPaid(b, b.docs[l].group)
  }

  lemma PaidAfterCommit(b: Books, kind: Kind, lines: seq<Ref>, g: nat)
    ensures IsPaid(Commit(b, kind, lines), g) <==> IsPaid(b, g) || g in GroupsOf(b.docs, lines)
  {
    var after := Commit(b, kind, lines).payments;
    var n := |b.payments|;
    assert forall i :: 0 <= i < n ==> after[i] == b.payments[i];
    assert after[n] == GroupsOf(b.docs, lines);
  }

  lemma CommitKeepsInv(b: Books, kind: Kind, lines: seq<Ref>)
    requires Inv(b) && Unpaid(b, kind, lines)
    ensures Inv(Commit(b, kind, lines))
  {
    var after, groups := Commit(b, kind, lines), GroupsOf(b.docs, lines);
    GroupsOnce(b.docs, lines);
    forall g: nat
      ensures IsPaid(after, g) <==> IsPaid(b, g) || g in groups
      ensures g in groups <==> exists id :: id in lines && id in b.docs && b.docs[id].group == g
    {
      PaidAfterCommit(b, kind, lines, g);
      InGroupsOf(b.docs, lines, g);
    }
    NewPaymentIsNew(b, groups);
    forall g: nat | IsPaid(after, g) ensures exists id :: id in after.docs && after.docs[id].group == g {
      if IsPaid(b, g) {
        var id :| id in b.docs && b.docs[id].group == g;
        assert id in after.docs;
      } else {
        var id :| id in lines && id in b.docs && b.docs[id].group == g;
        assert id in after.docs;
      }
    }
  }

  lemma NewPaymentIsNew(b: Books, groups: seq<nat>)
    requires PaidOnce(b.payments) && NoDup(groups) && forall g :: g in groups ==> !IsPaid(b, g)
    ensures PaidOnce(b.payments + [groups])
  {
  }

  lemma RetireKeepsInv(b: Books, id: Ref)
    requires Inv(b)
    ensures Inv(RetireDoc(b, id))
  {
    var after := RetireDoc(b, id);
    forall g: nat ensures IsPaid(after, g) <==> IsPaid(b, g) {
    }
    forall g: nat | IsPaid(after, g) ensures exists d :: d in after.docs && after.docs[d].group == g {
      var d :| d in b.docs && b.docs[d].group == g;
      assert d in after.docs;
    }
  }

  /** Paying one bucket leaves the lines of the others payable. */
  lemma PayingLeavesOthers(b: Books, kind: Kind, lines: seq<Ref>, uniqueId: string, answer: Answer, others: seq<Ref>)
    requires OneDocEach(b.docs) && Unpaid(b, kind, others) && Unpaid(b, kind, lines)
    requires forall l :: l in lines ==> l !in others
    ensures Unpaid(PayBucket(Run(b, false), kind, lines, uniqueId, answer).books, kind, others)
  {
    var after := PayBucket(Run(b, false), kind, lines, uniqueId, answer).books;
    if lines != [] && answer == Accept {
      forall l | l in others
        ensures l in after.docs && l.kind == kind && !after.docs[l].synced && !IsPaid(after, after.docs[l].group)
      {
        PaidAfterCommit(b, kind, lines, b.docs[l].group);
        InGroupsOf(b.docs, lines, b.docs[l].group);
      }
    } else {
      forall l | l in others
        ensures l in after.docs && l.kind == kind && !after.docs[l].synced && !IsPaid(after, after.docs[l].group)
      {
      }
    }
  }

  lemma BucketKeepsInv(b: Books, kind: Kind, lines: seq<Ref>, uniqueId: string, answer: Answer)
    requires Inv(b) && Unpaid(b, kind, lines)
    ensures Inv(PayBucket(Run(b, false), kind, lines, uniqueId, answer).books)
  {
    if lines == [] {
    } else if answer == Accept {
      CommitKeepsInv(b, kind, lines);
    } else if answer == Late && !Unreadable(b.docs, kind, uniqueId) {
      RetireKeepsInv(b, PickedRow(kind, uniqueId).value);
    }
  }

  lemma GatheredIsUnpaid(b: Books, kind: Kind, pass: Pass, e: string)
    requires Inv(b)
    ensures Unpaid(b, kind, Lines(b.docs, kind, pass, e))
  {
    LinesOnce(b.docs, pass.payable, Query(b.docs, kind, pass.listing), e);
  }

  /** While a run works through its buckets the books are in order and every bucket still to come is payable. */
  lemma {:induction false} PayBucketsKeepsInv(b: Books, kind: Kind, pass: Pass, entities: seq<string>)
    requires Inv(b) && NoDup(entities)
    ensures var after := PayBuckets(b, kind, b.docs, pass, entities).books;
            Inv(after) && forall e :: e !in entities ==> Unpaid(after, kind, Lines(b.docs, kind, pass, e))
  {
    if entities == [] {
      forall e ensures Unpaid(b, kind, Lines(b.docs, kind, pass, e)) {
        GatheredIsUnpaid(b, kind, pass, e);
      }
    } else {
      var front, last := entities[..|entities| - 1], entities[|entities| - 1];
      PayBucketsKeepsInv(b, kind, pass, front);
      var mid := PayBuckets(b, kind, b.docs, pass, front);
      var lines, answer := Lines(b.docs, kind, pass, last), AnswerFor(pass.answers, last);
      if !mid.raised {
        BucketKeepsInv(mid.books, kind, lines, BucketId(b.docs, lines), answer);
        forall e | e !in entities
          ensures Unpaid(PayBuckets(b, kind, b.docs, pass, entities).books, kind, Lines(b.docs, kind, pass, e))
        {
          PayingLeavesOthers(mid.books, kind, lines, BucketId(b.docs, lines), answer, Lines(b.docs, kind, pass, e));
        }
      }
    }
  }

  lemma PayKindKeepsInv(b: Books, kind: Kind, pass: Pass)
    requires Inv(b)
    ensures Inv(PayKind(b, kind, pass).books)
  {
    PayBucketsKeepsInv(b, kind, pass, Entities(b.docs, kind, pass));
  }

  /** Also a run that ends early keeps the books in order. */
  lemma PayRunKeepsInv(b: Books, bills: Pass, reports: Pass)
    requires Inv(b)
    ensures Inv(PayRun(b, bills, reports).books)
  {
    PayKindKeepsInv(b, BILL, bills);
    PayKindKeepsInv(PayKind(b, BILL, bills).books, EXPENSE_REPORT, reports);
  }

  // ---------------------------------------------------------------- late checks

  /** The same documents of the same groups, employees and entities; no synced or retired one is reopened. */
  ghost predicate Advances(before: Docs, after: Docs) {
    && before.Keys == after.Keys
    && (forall row :: row in before ==> AdvancesAt(before[row], after[row]))
  }

  predicate AdvancesAt(before: Doc, after: Doc) {
    && before.group == after.group && before.email == after.email && before.entity == after.entity
    && (before.synced ==> after.synced) && (before.retired ==> after.retired)
  }

  lemma BucketAdvances(r: Run, kind: Kind, lines: seq<Ref>, uniqueId: string, answer: Answer)
    ensures Advances(r.books.docs, PayBucket(r, kind, lines, uniqueId, answer).books.docs)
  {
  }

  lemma AdvancesOn(a: Docs, b: Docs, c: Docs)
    requires Advances(a, b) && Advances(b, c)
    ensures Advances(a, c)
  {
    forall row | row in a ensures AdvancesAt(a[row], c[row]) {
      assert row in b && AdvancesAt(a[row], b[row]) && AdvancesAt(b[row], c[row]);
    }
  }

  lemma {:induction false} BucketsAdvance(b: Books, kind: Kind, pass: Pass, entities: seq<string>)
    ensures Advances(b.docs, PayBuckets(b, kind, b.docs, pass, entities).books.docs)
  {
    if entities == [] {
    } else {
      var front, last := entities[..|entities| - 1], entities[|entities| - 1];
      var mid, lines := PayBuckets(b, kind, b.docs, pass, front), Lines(b.docs, kind, pass, last);
      BucketsAdvance(b, kind, pass, front);
      BucketAdvances(mid, kind, lines, BucketId(b.docs, lines), AnswerFor(pass.answers, last));
      AdvancesOn(b.docs, mid.books.docs, PayBuckets(b, kind, b.docs, pass, entities).books.docs);
    }
  }

  lemma SameRowsSameUnreadable(a: Docs, b: Docs, kind: Kind, uniqueId: string)
    requires a.Keys == b.Keys
    ensures Unreadable(a, kind, uniqueId) <==> Unreadable(b, kind, uniqueId)
  {
    var row := PickedRow(kind, uniqueId);
    assert row.Some? ==> (row.value in a.Keys <==> row.value in b.Keys);
  }

  /** The bucket of the entity is found late. */
  predicate IsLate(docs: Docs, kind: Kind, pass: Pass, e: string) {
    Lines(docs, kind, pass, e) != [] && AnswerFor(pass.answers, e) == Late
  }

  /** The bucket of the entity ends the pass. */
  predicate Stops(docs: Docs, kind: Kind, pass: Pass, e: string) {
    || (IsLate(docs, kind, pass, e) && Unreadable(docs, kind, BucketId(docs, Lines(docs, kind, pass, e))))
    || IsAmbiguous(docs, kind, pass, e)
  }

  /** The bucket of the entity meets a fault whose handler raises. */
  predicate IsAmbiguous(docs: Docs, kind: Kind, pass: Pass, e: string) {
    var answer := AnswerFor(pass.answers, e);
    Lines(docs, kind, pass, e) != [] && answer.Fault? && Ambiguous(answer.groupless)
  }

  /** A bucket of one of the entities ends the pass. */
  ghost predicate SomeStops(docs: Docs, kind: Kind, pass: Pass, entities: seq<string>) {
    exists e :: e in entities && Stops(docs, kind, pass, e)
  }

  lemma StopsSnoc(docs: Docs, kind: Kind, pass: Pass, entities: seq<string>)
    requires entities != []
    ensures SomeStops(docs, kind, pass, entities) <==>
            || SomeStops(docs, kind, pass, entities[..|entities| - 1])
            || Stops(docs, kind, pass, entities[|entities| - 1])
  {
    assert forall e :: e in entities <==> e in entities[..|entities| - 1] || e == entities[|entities| - 1];
  }

  lemma BucketStops(r: Run, docs: Docs, kind: Kind, pass: Pass, e: string)
    requires r.books.docs.Keys == docs.Keys
    ensures var lines := Lines(docs, kind, pass, e);
            PayBucket(r, kind, lines, BucketId(docs, lines), AnswerFor(pass.answers, e)).raised <==>
            r.raised || Stops(docs, kind, pass, e)
  {
    SameRowsSameUnreadable(r.books.docs, docs, kind, BucketId(docs, Lines(docs, kind, pass, e)));
  }

  lemma {:induction false} BucketsStopExactly(b: Books, kind: Kind, pass: Pass, entities: seq<string>)
    ensures PayBuckets(b, kind, b.docs, pass, entities).raised <==> SomeStops(b.docs, kind, pass, entities)
  {
    if entities == [] {
    } else {
      var front, last := entities[..|entities| - 1], entities[|entities| - 1];
      BucketsStopExactly(b, kind, pass, front);
      BucketsAdvance(b, kind, pass, front);
      BucketStops(PayBuckets(b, kind, b.docs, pass, front), b.docs, kind, pass, last);
      StopsSnoc(b.docs, kind, pass, entities);
    }
  }

  /**
   A pass raises exactly when a document of its query cannot be gathered, the id of a late bucket names no row of the
   table, or a bucket meets a fault while several errors have no group.
   */
  lemma PassRaisesExactly(b: Books, kind: Kind, pass: Pass)
    ensures PayKind(b, kind, pass).raised <==>
            || !AllGatherable(pass, Query(b.docs, kind, pass.listing))
            || SomeStops(b.docs, kind, pass, Entities(b.docs, kind, pass))
  {
    BucketsStopExactly(b, kind, pass, Entities(b.docs, kind, pass));
  }

  /** A single open bill without a complete log keeps every run from paying anything, a report every report. */
  lemma IncompleteLogBlocks(b: Books, bills: Pass, reports: Pass, row: Ref)
    requires row.kind == BILL && row in bills.listing && Open(b.docs, BILL, row) && row !in bills.logged
    ensures PayRun(b, bills, reports) == Run(b, true)
  {
    assert row in Query(b.docs, BILL, bills.listing) && !Gatherable(bills, row);
  }

  lemma IncompleteReportBlocks(b: Books, bills: Pass, reports: Pass, row: Ref)
    requires var mid := PayKind(b, BILL, bills).books;
             row in reports.listing && Open(mid.docs, EXPENSE_REPORT, row) && row !in reports.logged
    ensures PayRun(b, bills, reports) == Run(PayKind(b, BILL, bills).books, true)
  {
    var mid := PayKind(b, BILL, bills).books;
    assert row in Query(mid.docs, EXPENSE_REPORT, reports.listing) && !Gatherable(reports, row);
  }

  lemma {:induction false} NothingAfterStop(b: Books, kind: Kind, pass: Pass, entities: seq<string>, i: nat)
    requires i < |entities| && Stops(b.docs, kind, pass, entities[i])
    ensures PayBuckets(b, kind, b.docs, pass, entities) ==
            Run(PayBuckets(b, kind, b.docs, pass, entities[..i]).books, true)
  {
    var front, last := entities[..|entities| - 1], entities[|entities| - 1];
    if i == |entities| - 1 {
      BucketsAdvance(b, kind, pass, front);
      BucketStops(PayBuckets(b, kind, b.docs, pass, front), b.docs, kind, pass, last);
    } else {
      assert front[..i] == entities[..i];
      NothingAfterStop(b, kind, pass, front, i);
    }
  }

  /** No bucket behind one that stops the pass is paid: its documents stay unsynced and in no payment. */
  lemma StoppedPassLeavesRest(b: Books, kind: Kind, pass: Pass, i: nat, j: nat)
    requires Inv(b) && i <= j < |Entities(b.docs, kind, pass)|
    requires Stops(b.docs, kind, pass, Entities(b.docs, kind, pass)[i])
    ensures var entities, after := Entities(b.docs, kind, pass), PayKind(b, kind, pass);
            after.raised && Unpaid(after.books, kind, Lines(b.docs, kind, pass, entities[j]))
  {
    var entities := Entities(b.docs, kind, pass);
    NothingAfterStop(b, kind, pass, entities, i);
    PayBucketsKeepsInv(b, kind, pass, entities[..i]);
    GatheredIsUnpaid(b, kind, pass, entities[j]);
    assert entities[j] !in entities[..i];
  }

  /** A run whose first bucket of bills stops it changes nothing, however often it is repeated. */
  lemma FirstBucketBlocks(b: Books, bills: Pass, reports: Pass)
    requires Entities(b.docs, BILL, bills) != [] && Stops(b.docs, BILL, bills, Entities(b.docs, BILL, bills)[0])
    ensures PayRun(b, bills, reports) == Run(b, true)
  {
    NothingAfterStop(b, BILL, bills, Entities(b.docs, BILL, bills), 0);
  }

  predicate Picks(docs: Docs, kind: Kind, pass: Pass, e: string, row: Ref) {
    IsLate(docs, kind, pass, e) && PickedRow(kind, BucketId(docs, Lines(docs, kind, pass, e))) == Some(row)
  }

  lemma BucketRetires(r: Run, kind: Kind, lines: seq<Ref>, uniqueId: string, answer: Answer, row: Ref)
    requires !PayBucket(r, kind, lines, uniqueId, answer).raised && row in r.books.docs
    ensures row in PayBucket(r, kind, lines, uniqueId, answer).books.docs
    ensures PayBucket(r, kind, lines, uniqueId, answer).books.docs[row].retired <==>
            r.books.docs[row].retired || (lines != [] && answer == Late && PickedRow(kind, uniqueId) == Some(row))
  {
  }

  /** A late bucket of one of the entities names the row. */
  ghost predicate Named(docs: Docs, kind: Kind, pass: Pass, entities: seq<string>, row: Ref) {
    exists e :: e in entities && Picks(docs, kind, pass, e, row)
  }

  lemma NamedSnoc(docs: Docs, kind: Kind, pass: Pass, entities: seq<string>, row: Ref)
    requires entities != []
    ensures Named(docs, kind, pass, entities, row) <==>
            || Named(docs, kind, pass, entities[..|entities| - 1], row)
            || Picks(docs, kind, pass, entities[|entities| - 1], row)
  {
    assert forall e :: e in entities <==> e in entities[..|entities| - 1] || e == entities[|entities| - 1];
  }

  lemma {:induction false} BucketsRetireExactly(b: Books, kind: Kind, pass: Pass, entities: seq<string>, row: Ref)
    requires row in b.docs && !PayBuckets(b, kind, b.docs, pass, entities).raised
    ensures row in PayBuckets(b, kind, b.docs, pass, entities).books.docs
    ensures PayBuckets(b, kind, b.docs, pass, entities).books.docs[row].retired <==>
            b.docs[row].retired || Named(b.docs, kind, pass, entities, row)
  {
    if entities == [] {
    } else {
      var front, last := entities[..|entities| - 1], entities[|entities| - 1];
      var lines := Lines(b.docs, kind, pass, last);
      BucketsRetireExactly(b, kind, pass, front, row);
      BucketRetires(PayBuckets(b, kind, b.docs, pass, front), kind, lines, BucketId(b.docs, lines),
                    AnswerFor(pass.answers, last), row);
      NamedSnoc(b.docs, kind, pass, entities, row);
    }
  }

  /** A pass that does not raise retires exactly the rows that the ids of its late buckets name. */
  lemma PassRetiresExactly(b: Books, kind: Kind, pass: Pass, row: Ref)
    requires row in b.docs && !PayKind(b, kind, pass).raised
    ensures row in PayKind(b, kind, pass).books.docs
    ensures PayKind(b, kind, pass).books.docs[row].retired <==>
            b.docs[row].retired || Named(b.docs, kind, pass, Entities(b.docs, kind, pass), row)
  {
    BucketsRetireExactly(b, kind, pass, Entities(b.docs, kind, pass), row);
  }

  predicate IsLine(docs: Docs, kind: Kind, payable: set<Ref>, row: Ref, e: string) {
    Open(docs, kind, row) && row in payable && docs[row].entity == e
  }

  lemma QueriedLines(docs: Docs, kind: Kind, payable: set<Ref>, listing: seq<Ref>, e: string)
    requires listing != []
    ensures var front, last := listing[..|listing| - 1], listing[|listing| - 1];
            var lines := LinesOf(docs, payable, Query(docs, kind, front), e);
            LinesOf(docs, payable, Query(docs, kind, listing), e) ==
              if IsLine(docs, kind, payable, last, e) && last !in lines then lines + [last] else lines
  {
    var front, last := listing[..|listing| - 1], listing[|listing| - 1];
    LinesSnoc(docs, payable, Query(docs, kind, front), last, e);
  }

  /** An entity whose documents stay open keeps its bucket. */
  lemma {:induction false} OpenBucketStays(before: Docs, after: Docs, kind: Kind, payable: set<Ref>,
                                           listing: seq<Ref>, e: string)
    requires forall row :: row in listing ==>
               (IsLine(before, kind, payable, row, e) <==> IsLine(after, kind, payable, row, e))
    ensures LinesOf(before, payable, Query(before, kind, listing), e) ==
            LinesOf(after, payable, Query(after, kind, listing), e)
  {
    if listing == [] {
    } else {
      QueriedLines(before, kind, payable, listing, e);
      QueriedLines(after, kind, payable, listing, e);
      OpenBucketStays(before, after, kind, payable, listing[..|listing| - 1], e);
    }
  }

  /** A line of a bucket to come that no late bucket so far names is still a line of it, and nothing joins. */
  lemma LineStays(b: Books, kind: Kind, pass: Pass, i: nat, row: Ref)
    requires Inv(b) && i < |Entities(b.docs, kind, pass)| && row in pass.listing
    requires !PayBuckets(b, kind, b.docs, pass, Entities(b.docs, kind, pass)[..i]).raised
    requires var entities := Entities(b.docs, kind, pass);
             row in Lines(b.docs, kind, pass, entities[i]) ==> !Named(b.docs, kind, pass, entities[..i], row)
    ensures var entities := Entities(b.docs, kind, pass);
            var after := PayBuckets(b, kind, b.docs, pass, entities[..i]).books.docs;
            IsLine(b.docs, kind, pass.payable, row, entities[i]) <==>
            IsLine(after, kind, pass.payable, row, entities[i])
  {
    var entities := Entities(b.docs, kind, pass);
    var front, e := entities[..i], entities[i];
    var after := PayBuckets(b, kind, b.docs, pass, front).books.docs;
    BucketsAdvance(b, kind, pass, front);
    if row in b.docs {
      assert AdvancesAt(b.docs[row], after[row]);
      BucketsPartition(b.docs, kind, pass, row, e);
      if IsLine(b.docs, kind, pass.payable, row, e) {
        BucketsRetireExactly(b, kind, pass, front, row);
        PayBucketsKeepsInv(b, kind, pass, front);
        assert e !in front;
        assert row in Lines(b.docs, kind, pass, e);
      }
    } else {
      assert row !in after.Keys;
    }
  }

  /**
   The first bucket that stops a pass stops every repetition of it, unless a late bucket before it names one of the
   documents of its entity.
   */
  lemma StopRepeats(b: Books, kind: Kind, pass: Pass, i: nat)
    requires Inv(b) && i < |Entities(b.docs, kind, pass)|
    requires Stops(b.docs, kind, pass, Entities(b.docs, kind, pass)[i])
    requires forall k :: 0 <= k < i ==> !Stops(b.docs, kind, pass, Entities(b.docs, kind, pass)[k])
    requires var entities := Entities(b.docs, kind, pass);
             forall row :: row in Lines(b.docs, kind, pass, entities[i]) ==>
                             !Named(b.docs, kind, pass, entities[..i], row)
    ensures var after := PayKind(b, kind, pass).books;
            Stops(after.docs, kind, pass, Entities(b.docs, kind, pass)[i]) && PayKind(after, kind, pass).raised
  {
    var entities := Entities(b.docs, kind, pass);
    var front, e := entities[..i], entities[i];
    if !AllGatherable(pass, Query(b.docs, kind, pass.listing)) {
      return;
    }
    NothingAfterStop(b, kind, pass, entities, i);
    BucketsStopExactly(b, kind, pass, front);
    BucketsAdvance(b, kind, pass, front);
    var after := PayBuckets(b, kind, b.docs, pass, front).books;
    forall row | row in pass.listing
      ensures IsLine(b.docs, kind, pass.payable, row, e) <==> IsLine(after.docs, kind, pass.payable, row, e)
    {
      LineStays(b, kind, pass, i, row);
    }
    OpenBucketStays(b.docs, after.docs, kind, pass.payable, pass.listing, e);
    StopsAgain(b.docs, after.docs, kind, pass, e);
    PassRaisesExactly(after, kind, pass);
    BucketsPartition(after.docs, kind, pass, Lines(after.docs, kind, pass, e)[0], e);
  }

  lemma StopsAgain(before: Docs, after: Docs, kind: Kind, pass: Pass, e: string)
    requires Advances(before, after) && Stops(before, kind, pass, e)
    requires Lines(before, kind, pass, e) == Lines(after, kind, pass, e)
    ensures Stops(after, kind, pass, e)
  {
    var first := Lines(before, kind, pass, e)[0];
    assert first in Lines(before, kind, pass, e);
    assert AdvancesAt(before[first], after[first]);
    SameRowsSameUnreadable(before, after, kind, BucketId(before, Lines(before, kind, pass, e)));
  }

  /** A late bucket names its own first document exactly under the condition on the e-mail of that document. */
  lemma LateBucketPicksItsOwn(docs: Docs, kind: Kind, pass: Pass, e: string)
    requires IsLate(docs, kind, pass, e)
    ensures Lines(docs, kind, pass, e)[0] in docs
    ensures var first := Lines(docs, kind, pass, e)[0];
            && (Picks(docs, kind, pass, e, first) <==> NamesItself(DocumentOf(docs, first)))
            && ('-' !in docs[first].email ==> Picks(docs, kind, pass, e, first) && !Stops(docs, kind, pass, e))
  {
    assert !IsAmbiguous(docs, kind, pass, e);
    var lines := Lines(docs, kind, pass, e);
    assert lines[0] in lines;
    PicksItselfExactly(DocumentOf(docs, lines[0]));
  }

  /** Without hyphens in the e-mails late checks never end a pass: what is left is a document or a fault. */
  lemma HyphenFreePassCompletes(b: Books, kind: Kind, pass: Pass)
    requires forall row :: row in b.docs ==> '-' !in b.docs[row].email
    ensures PayKind(b, kind, pass).raised <==>
            || !AllGatherable(pass, Query(b.docs, kind, pass.listing))
            || exists e :: e in Entities(b.docs, kind, pass) && IsAmbiguous(b.docs, kind, pass, e)
  {
    PassRaisesExactly(b, kind, pass);
    forall e ensures Stops(b.docs, kind, pass, e) <==> IsAmbiguous(b.docs, kind, pass, e) {
      if IsLate(b.docs, kind, pass, e) {
        LateBucketPicksItsOwn(b.docs, kind, pass, e);
      }
    }
  }

  // ---------------------------------------------------------------- sequences of runs

  /** A new export, a payment run, or a document found paid on NetSuite by the status check. */
  datatype Event =
    | Export(row: Ref, group: nat, email: string, entity: string)
    | Pay(bills: Pass, reports: Pass)
    | FoundPaid(row: Ref)

  function Step(b: Books, e: Event): Books {
    match e
    case Export(row, group, email, entity) =>
      if row in b.docs || exists d :: d in b.docs && b.docs[d].group == group then b
      else b.(docs := b.docs[row := Doc(group, email, entity, false, false, false)])
    case Pay(bills, reports) => PayRun(b, bills, reports).books
    case FoundPaid(row) =>
      if row in b.docs && !b.docs[row].paidOnNetsuite
      then b.(docs := b.docs[row := b.docs[row].(synced := true, paidOnNetsuite := true)]) else b
  }

  function RunAll(events: seq<Event>): Books {
    if events == [] then Books(map[], []) else Step(RunAll(events[..|events| - 1]), events[|events| - 1])
  }

  lemma DocChangeKeepsInv(b: Books, e: Event)
    requires Inv(b) && !e.Pay?
    ensures Inv(Step(b, e))
  {
    var after := Step(b, e);
    forall g: nat ensures IsPaid(after, g) <==> IsPaid(b, g) {
    }
    forall g: nat | IsPaid(after, g) ensures exists d :: d in after.docs && after.docs[d].group == g {
      var d :| d in b.docs && b.docs[d].group == g;
      assert d in after.docs && after.docs[d].group == g;
    }
  }

  lemma {:induction false} RunsKeepInv(events: seq<Event>)
    ensures Inv(RunAll(events))
  {
    if events == [] {
    } else {
      var b, e := RunAll(events[..|events| - 1]), events[|events| - 1];
      RunsKeepInv(events[..|events| - 1]);
      if e.Pay? {
        PayRunKeepsInv(b, e.bills, e.reports);
      } else {
        DocChangeKeepsInv(b, e);
      }
    }
  }

  /**
   Over any sequence of runs, also of runs that end early, an expense group is a line of at most one vendor payment,
   and of that one once.
   */
  lemma EachGroupIsPaidOnce(events: seq<Event>, i: nat, j: nat, k: nat, l: nat)
    requires var p := RunAll(events).payments;
             i < |p| && j < |p| && k < |p[i]| && l < |p[j]| && p[i][k] == p[j][l]
    ensures i == j && k == l
  {
    RunsKeepInv(events);
    var p := RunAll(events).payments;
    assert p[i][k] in p[i] && p[j][l] in p[j];
  }

  // ---------------------------------------------------------------- the run in place

  /** What the dictionary of the buckets holds for an entity. */
  ghost predicate Held(docs: Docs, payable: set<Ref>, rows: seq<Ref>, e: string, ids: map<string, string>,
                       lines: map<string, seq<Ref>>) {
    var bucket := LinesOf(docs, payable, rows, e);
    && (e in lines <==> bucket != []) && (e in ids <==> bucket != [])
    && (bucket != [] ==> lines[e] == bucket && ids[e] == BucketId(docs, bucket))
  }

  /** entities is the insertion order of the dictionary. */
  ghost predicate Gathered(docs: Docs, payable: set<Ref>, rows: seq<Ref>, entities: seq<string>,
                           ids: map<string, string>, lines: map<string, seq<Ref>>) {
    && entities == FirstSeen(EntitiesOf(docs, payable, rows))
    && (forall e :: Held(docs, payable, rows, e, ids, lines))
  }

  lemma LinesSnoc(docs: Docs, payable: set<Ref>, rows: seq<Ref>, row: Ref, e: string)
    ensures LinesOf(docs, payable, rows + [row], e) == LinesOf(docs, payable, rows, e) +
              if Eligible(docs, payable, row) && docs[row].entity == e then [row] else []
  {
    assert (rows + [row])[..|rows|] == rows;
  }

  lemma EntitiesSnoc(docs: Docs, payable: set<Ref>, rows: seq<Ref>, row: Ref)
    ensures EntitiesOf(docs, payable, rows + [row]) == EntitiesOf(docs, payable, rows) +
              if Eligible(docs, payable, row) then [docs[row].entity] else []
  {
    assert (rows + [row])[..|rows|] == rows;
  }

  lemma GatherNone(docs: Docs, payable: set<Ref>, rows: seq<Ref>, row: Ref, entities: seq<string>,
                   ids: map<string, string>, lines: map<string, seq<Ref>>)
    requires Gathered(docs, payable, rows, entities, ids, lines) && !Eligible(docs, payable, row)
    ensures Gathered(docs, payable, rows + [row], entities, ids, lines)
  {
    EntitiesSnoc(docs, payable, rows, row);
    forall e ensures Held(docs, payable, rows + [row], e, ids, lines) {
      LinesSnoc(docs, payable, rows, row, e);
      assert Held(docs, payable, rows, e, ids, lines);
    }
  }

  lemma GatherNew(docs: Docs, payable: set<Ref>, rows: seq<Ref>, row: Ref, entities: seq<string>,
                  ids: map<string, string>, lines: map<string, seq<Ref>>)
    requires Gathered(docs, payable, rows, entities, ids, lines)
    requires Eligible(docs, payable, row) && docs[row].entity !in lines
    ensures var e := docs[row].entity;
            Gathered(docs, payable, rows + [row], entities + [e], ids[e := UniqueId(DocumentOf(docs, row))],
                     lines[e := [row]])
  {
    var e := docs[row].entity;
    assert Held(docs, payable, rows, e, ids, lines);
    EntityIsListed(docs, payable, rows, e);
    EntitiesSnoc(docs, payable, rows, row);
    var known := EntitiesOf(docs, payable, rows);
    assert (known + [e])[..|known|] == known;
    var more, newIds, newLines := rows + [row], ids[e := UniqueId(DocumentOf(docs, row))], lines[e := [row]];
    forall f ensures Held(docs, payable, more, f, newIds, newLines) {
      LinesSnoc(docs, payable, rows, row, f);
      assert Held(docs, payable, rows, f, ids, lines);
    }
  }

  lemma GatherMore(docs: Docs, payable: set<Ref>, rows: seq<Ref>, row: Ref, entities: seq<string>,
                   ids: map<string, string>, lines: map<string, seq<Ref>>)
    requires Gathered(docs, payable, rows, entities, ids, lines)
    requires Eligible(docs, payable, row) && docs[row].entity in lines
    ensures var e := docs[row].entity;
            Gathered(docs, payable, rows + [row], entities, ids, lines[e := lines[e] + [row]])
  {
    var e := docs[row].entity;
    assert Held(docs, payable, rows, e, ids, lines);
    EntityIsListed(docs, payable, rows, e);
    EntitiesSnoc(docs, payable, rows, row);
    var known := EntitiesOf(docs, payable, rows);
    assert (known + [e])[..|known|] == known;
    var more, newLines := rows + [row], lines[e := lines[e] + [row]];
    forall f ensures Held(docs, payable, more, f, ids, newLines) {
      LinesSnoc(docs, payable, rows, row, f);
      assert Held(docs, payable, rows, f, ids, lines);
    }
  }

  lemma BucketOf(docs: Docs, payable: set<Ref>, rows: seq<Ref>, entities: seq<string>, ids: map<string, string>,
                 lines: map<string, seq<Ref>>, i: nat)
    requires Gathered(docs, payable, rows, entities, ids, lines) && i < |entities|
    ensures entities[i] in lines && lines[entities[i]] == LinesOf(docs, payable, rows, entities[i]) != []
    ensures entities[i] in ids && ids[entities[i]] == BucketId(docs, lines[entities[i]])
  {
    assert entities[i] in entities;
    EntityIsListed(docs, payable, rows, entities[i]);
    assert Held(docs, payable, rows, entities[i], ids, lines);
  }

  lemma PayBucketsStep(b: Books, kind: Kind, pass: Pass, entities: seq<string>, i: nat)
    requires i < |entities|
    ensures var lines := Lines(b.docs, kind, pass, entities[i]);
            PayBuckets(b, kind, b.docs, pass, entities[..i + 1]) ==
            PayBucket(PayBuckets(b, kind, b.docs, pass, entities[..i]), kind, lines, BucketId(b.docs, lines),
                      AnswerFor(pass.answers, entities[i]))
  {
    assert entities[..i + 1][..i] == entities[..i];
  }

  /** What one bucket does to the books, by its answer. */
  ghost predicate Settled(b: Books, kind: Kind, lines: seq<Ref>, uniqueId: string, answer: Answer, after: Books,
                          raised: bool) {
    var picked := PickedId(uniqueId);
    && (raised <==> || (answer == Late && (picked == None || Ref(kind, picked.value) !in b.docs))
                    || (answer.Fault? && answer.groupless >= 2))
    && after.docs.Keys == b.docs.Keys
    && (forall row :: row in b.docs ==>
          SettledAt(b.docs[row], after.docs[row], answer == Accept && row.kind == kind && Shares(b.docs, lines, row),
                    answer == Late && picked == Some(row.id) && row.kind == kind))
    && (answer != Accept ==> after.payments == b.payments)
    && (answer == Accept ==>
          && |after.payments| == |b.payments| + 1 && b.payments <= after.payments
          && forall row :: row in b.docs ==>
               (b.docs[row].group in after.payments[|b.payments|] <==> Shares(b.docs, lines, row)))
  }

  /** A document of its group is among the lines. */
  ghost predicate Shares(docs: Docs, lines: seq<Ref>, row: Ref) {
    row in docs && exists l :: l in lines && l in docs && docs[l].group == docs[row].group
  }

  predicate SettledAt(before: Doc, after: Doc, paid: bool, retired: bool) {
    && before.group == after.group && before.email == after.email && before.entity == after.entity
    && (after.synced <==> before.synced || paid) && (after.paidOnNetsuite <==> before.paidOnNetsuite || paid)
    && (after.retired <==> before.retired || retired)
  }

  lemma RowSettles(b: Books, kind: Kind, lines: seq<Ref>, uniqueId: string, answer: Answer, row: Ref)
    requires lines != [] && row in b.docs
    ensures var after := PayBucket(Run(b, false), kind, lines, uniqueId, answer).books.docs;
            && row in after
            && SettledAt(b.docs[row], after[row], answer == Accept && row.kind == kind && Shares(b.docs, lines, row),
                         answer == Late && PickedId(uniqueId) == Some(row.id) && row.kind == kind)
  {
    InGroupsOf(b.docs, lines, b.docs[row].group);
  }

  lemma AcceptSettles(b: Books, kind: Kind, lines: seq<Ref>)
    ensures forall row :: row in b.docs ==>
              (b.docs[row].group in GroupsOf(b.docs, lines) <==> Shares(b.docs, lines, row))
  {
    forall row | row in b.docs
      ensures b.docs[row].group in GroupsOf(b.docs, lines) <==> Shares(b.docs, lines, row)
    {
      InGroupsOf(b.docs, lines, b.docs[row].group);
    }
  }

  lemma BucketSettles(b: Books, kind: Kind, lines: seq<Ref>, uniqueId: string, answer: Answer)
    requires lines != []
    ensures var after := PayBucket(Run(b, false), kind, lines, uniqueId, answer);
            Settled(b, kind, lines, uniqueId, answer, after.books, after.raised)
  {
    var after := PayBucket(Run(b, false), kind, lines, uniqueId, answer).books;
    forall row | row in b.docs
      ensures row in after.docs
              && SettledAt(b.docs[row], after.docs[row],
                           answer == Accept && row.kind == kind && Shares(b.docs, lines, row),
                           answer == Late && PickedId(uniqueId) == Some(row.id) && row.kind == kind)
    {
      RowSettles(b, kind, lines, uniqueId, answer, row);
    }
    AcceptSettles(b, kind, lines);
  }

  class PaymentStore {
    var docs: Docs
    var payments: seq<seq<nat>>

    function Now(): Books
      reads this
    {
      Books(docs, payments)
    }

    /**
     create_netsuite_payment_objects: a dictionary by entity, in insertion order, with the id and lines of each, or an
     exception at a document that Fyle does not answer for or whose group has no complete log.
     */
    method CreatePaymentObjects(rows: seq<Ref>, pass: Pass)
      returns (raised: bool, entities: seq<string>, ids: map<string, string>, lines: map<string, seq<Ref>>)
      ensures raised <==> !AllGatherable(pass, rows)
      ensures !raised ==> Gathered(docs, pass.payable, rows, entities, ids, lines)
    {
      var payable := pass.payable;
      raised, entities, ids, lines := false, [], map[], map[];
      for i := 0 to |rows|
        invariant AllGatherable(pass, rows[..i])
        invariant Gathered(docs, payable, rows[..i], entities, ids, lines)
      {
        if rows[i] !in pass.answered || rows[i] !in pass.logged {
          assert rows[i] in rows;
          raised := true;
          return;
        }
        assert rows[..i + 1] == rows[..i] + [rows[i]];
        if Eligible(docs, payable, rows[i]) {
          var e := docs[rows[i]].entity;
          if e !in lines {
            GatherNew(docs, payable, rows[..i], rows[i], entities, ids, lines);
            entities := entities + [e];
            ids := ids[e := UniqueId(DocumentOf(docs, rows[i]))];
            lines := lines[e := [rows[i]]];
          } else {
            GatherMore(docs, payable, rows[..i], rows[i], entities, ids, lines);
            lines := lines[e := lines[e] + [rows[i]]];
          }
        } else {
          GatherNone(docs, payable, rows[..i], rows[i], entities, ids, lines);
        }
      }
      assert rows[..|rows|] == rows;
    }

    /** The transaction of process_vendor_payment: the line items, then every document of their groups. */
    method ProcessVendorPayment(kind: Kind, lines: seq<Ref>)
      modifies this
      ensures Now() == Commit(old(Now()), kind, lines)
    {
      var groups: seq<nat> := [];
      for i := 0 to |lines|
        invariant groups == GroupsOf(docs, lines[..i])
        invariant docs == old(docs) && payments == old(payments)
      {
        assert lines[..i + 1][..i] == lines[..i];
        if lines[i] in docs {
          groups := groups + [docs[lines[i]].group];
        }
      }
      assert lines[..|lines|] == lines;
      payments := payments + [groups];
      docs := map row | row in docs :: if row.kind == kind && docs[row].group in groups
                                       then docs[row].(synced := true, paidOnNetsuite := true) else docs[row];
    }

    method AnswerBucket(kind: Kind, lines: seq<Ref>, uniqueId: string, answer: Answer) returns (raised: bool)
      requires lines != []
      modifies this
      ensures Run(Now(), raised) == PayBucket(Run(old(Now()), false), kind, lines, uniqueId, answer)
    {
      raised := false;
      if answer == Late {
        var row := PickedRow(kind, uniqueId);
        if row == None || row.value !in docs {
          return true;
        }
        docs := docs[row.value := docs[row.value].(retired := true)];
      } else if answer == Accept {
        ProcessVendorPayment(kind, lines);
      } else if answer.Fault? {
        raised := answer.groupless >= 2;
      }
    }

    /**
     The loop body of run_create_vendor_payment: what the throttle and NetSuite answer for one bucket. It raises at an
     id that names no row and at a fault with several errors without a group only. An accepted payment is added, with
     the groups of its lines, and marks exactly their documents synced and paid; no other answer adds a payment or marks
     a document; a late check retires the row that the id picks; and a bucket that may be paid leaves the books in
     order.
     */
    method SettleBucket(kind: Kind, lines: seq<Ref>, uniqueId: string, answer: Answer) returns (raised: bool)
      requires lines != []
      modifies this
      ensures Run(Now(), raised) == PayBucket(Run(old(Now()), false), kind, lines, uniqueId, answer)
      ensures Settled(old(Now()), kind, lines, uniqueId, answer, Now(), raised)
      ensures old(Inv(Now()) && Unpaid(Now(), kind, lines)) ==> Inv(Now())
    {
      if old(Inv(Now()) && Unpaid(Now(), kind, lines)) {
        BucketKeepsInv(Now(), kind, lines, uniqueId, answer);
      }
      BucketSettles(Now(), kind, lines, uniqueId, answer);
      raised := AnswerBucket(kind, lines, uniqueId, answer);
    }

    /** The loop of run_create_vendor_payment over the buckets of one table. */
    method PayTable(kind: Kind, pass: Pass) returns (raised: bool)
      modifies this
      ensures Run(Now(), raised) == PayKind(old(Now()), kind, pass)
    {
      ghost var b := Now();
      var rows := Query(docs, kind, pass.listing);
      var entities, ids, lines;
      raised, entities, ids, lines := CreatePaymentObjects(rows, pass);
      if raised {
        return;
      }
      for i := 0 to |entities|
        invariant !raised && Run(Now(), raised) == PayBuckets(b, kind, b.docs, pass, entities[..i])
      {
        var e := entities[i];
        BucketOf(b.docs, pass.payable, rows, entities, ids, lines, i);
        PayBucketsStep(b, kind, pass, entities, i);
        raised := SettleBucket(kind, lines[e], ids[e], AnswerFor(pass.answers, e));
        if raised {
          RaisedStays(b, kind, b.docs, pass, entities, i + 1);
          return;
        }
      }
      assert entities[..|entities|] == entities;
    }

    /** run_create_vendor_payment; the answers of a pass stand for the throttle and NetSuite. */
    method RunCreateVendorPayment(bills: Pass, reports: Pass) returns (raised: bool)
      modifies this
      ensures Run(Now(), raised) == PayRun(old(Now()), bills, reports)
      ensures old(Inv(Now())) ==> Inv(Now())
    {
      if old(Inv(Now())) {
        PayRunKeepsInv(old(Now()), bills, reports);
      }
      raised := PayTable(BILL, bills);
      if !raised {
        raised := PayTable(EXPENSE_REPORT, reports);
      }
    }
  }

  lemma {:induction false} RaisedStays(b: Books, kind: Kind, docs: Docs, pass: Pass, entities: seq<string>, i: nat)
    requires i <= |entities| && PayBuckets(b, kind, docs, pass, entities[..i]).raised
    ensures PayBuckets(b, kind, docs, pass, entities) == PayBuckets(b, kind, docs, pass, entities[..i])
  {
    if i == |entities| {
      assert entities[..i] == entities;
    } else {
      var front := entities[..|entities| - 1];
      assert front[..i] == entities[..i];
      RaisedStays(b, kind, docs, pass, front, i);
    }
  }
}
