/** What a payment run records: which documents it marks paid, and which payments it adds. */
module PaymentOutcome {
  import opened Common
  import opened PaymentIds
  import opened Payments

  /** An open document of the table that the pass lists and may pay, of this entity. */
  predicate IsDue(docs: Docs, kind: Kind, pass: Pass, row: Ref, entity: string) {
    && row in docs && row.kind == kind && !docs[row].synced && !docs[row].retired && docs[row].entity == entity
    && row in pass.listing && row in pass.payable
  }

  lemma LinesAreDue(docs: Docs, kind: Kind, pass: Pass, row: Ref, e: string)
    ensures row in Lines(docs, kind, pass, e) <==> IsDue(docs, kind, pass, row, e)
    ensures NoDup(Lines(docs, kind, pass, e))
  {
    BucketsPartition(docs, kind, pass, row, e);
  }

  predicate IsAccepted(pass: Pass, e: string) {
    e in pass.answers && pass.answers[e] == Accept
  }

  /** The bucket of the entity is reached and its payment accepted. */
  ghost predicate IsPaidFor(docs: Docs, kind: Kind, pass: Pass, entities: seq<string>, e: string) {
    exists i :: 0 <= i < |entities| && entities[i] == e && IsAccepted(pass, e)
                && forall j :: 0 <= j < i ==> !Stops(docs, kind, pass, entities[j])
  }

  /**
   A bucket stops the pass exactly when it has a due document, and its answer is late with an id that picks no row of
   the table, or a fault while two or more errors have no group.
   */
  lemma StopsExactly(docs: Docs, kind: Kind, pass: Pass, e: string)
    ensures var picked := PickedId(BucketId(docs, Lines(docs, kind, pass, e)));
            Stops(docs, kind, pass, e) <==>
              && (exists row :: IsDue(docs, kind, pass, row, e)) && e in pass.answers
              && ((pass.answers[e] == Late && (picked == None || Ref(kind, picked.value) !in docs))
                  || (pass.answers[e].Fault? && pass.answers[e].groupless >= 2))
  {
    var lines := Lines(docs, kind, pass, e);
    if lines != [] {
      assert lines[0] in lines;
      LinesAreDue(docs, kind, pass, lines[0], e);
    }
    if row :| IsDue(docs, kind, pass, row, e) {
      LinesAreDue(docs, kind, pass, row, e);
    }
  }

  // ---------------------------------------------------------------- the order of the buckets

  lemma EntitiesStep(docs: Docs, kind: Kind, pass: Pass, row: Ref)
    ensures var more := pass.(listing := pass.listing + [row]);
            Entities(docs, kind, more) ==
              if row in docs && IsDue(docs, kind, more, row, docs[row].entity)
                 && docs[row].entity !in Entities(docs, kind, pass)
              then Entities(docs, kind, pass) + [docs[row].entity] else Entities(docs, kind, pass)
  {
    var listing := pass.listing + [row];
    var rows := Query(docs, kind, pass.listing);
    assert listing[..|listing| - 1] == pass.listing;
    if Open(docs, kind, row) {
      if row in rows {
        if row in pass.payable {
          EntityOfLine(docs, pass.payable, rows, row);
        }
      } else {
        EntitiesSnoc(docs, pass.payable, rows, row);
        assert Query(docs, kind, listing) == rows + [row];
      }
    }
  }

  lemma EntityOfLine(docs: Docs, payable: set<Ref>, rows: seq<Ref>, row: Ref)
    requires row in rows && Eligible(docs, payable, row)
    ensures docs[row].entity in EntitiesOf(docs, payable, rows)
  {
    EntityIsListed(docs, payable, rows, docs[row].entity);
    assert row in LinesOf(docs, payable, rows, docs[row].entity);
  }

  lemma {:induction false} EntitiesPrefix(docs: Docs, kind: Kind, pass: Pass, k: nat)
    requires k <= |pass.listing|
    ensures Entities(docs, kind, pass.(listing := pass.listing[..k])) <= Entities(docs, kind, pass)
    decreases |pass.listing|
  {
    var n := |pass.listing|;
    if k == n {
      assert pass.listing[..k] == pass.listing;
    } else {
      var front := pass.(listing := pass.listing[..n - 1]);
      assert front.listing[..k] == pass.listing[..k];
      assert pass == front.(listing := front.listing + [pass.listing[n - 1]]);
      EntitiesPrefix(docs, kind, front, k);
      EntitiesStep(docs, kind, front, pass.listing[n - 1]);
    }
  }

  /** The buckets come in the order in which the listing has their first due documents. */
  lemma BucketsInOrder(docs: Docs, kind: Kind, pass: Pass, i: nat, j: nat, k: nat) returns (l: nat)
    requires i < j < |Entities(docs, kind, pass)| && k < |pass.listing|
    requires IsDue(docs, kind, pass, pass.listing[k], Entities(docs, kind, pass)[j])
    ensures l < k && IsDue(docs, kind, pass, pass.listing[l], Entities(docs, kind, pass)[i])
  {
    var entities, listing := Entities(docs, kind, pass), pass.listing;
    var before := pass.(listing := listing[..k]);
    var upTo := pass.(listing := listing[..k + 1]);
    assert listing[..k + 1] == listing[..k] + [listing[k]];
    EntitiesStep(docs, kind, before, listing[k]);
    EntitiesPrefix(docs, kind, pass, k);
    EntitiesPrefix(docs, kind, pass, k + 1);
    assert IsDue(docs, kind, upTo, listing[k], entities[j]);
    var e := entities[i];
    PrefixHolds(docs, kind, before, entities, i, j);
    var row := Lines(docs, kind, before, e)[0];
    assert row in Lines(docs, kind, before, e);
    LinesAreDue(docs, kind, before, row, e);
    l :| 0 <= l < k && listing[l] == row;
  }

  lemma PrefixHolds(docs: Docs, kind: Kind, before: Pass, entities: seq<string>, i: nat, j: nat)
    requires i < j < |entities| && NoDup(entities) && Entities(docs, kind, before) <= entities
    requires entities[j] in Entities(docs, kind, before)
             || (Entities(docs, kind, before) + [entities[j]] <= entities)
    ensures Lines(docs, kind, before, entities[i]) != []
  {
    var es := Entities(docs, kind, before);
    assert i < |es| by {
      if entities[j] in es {
        var p :| 0 <= p < |es| && es[p] == entities[j];
        assert entities[p] == entities[j];
      } else {
        assert (es + [entities[j]])[|es|] == entities[|es|];
      }
    }
    assert es[i] == entities[i] && entities[i] in es;
    EntityIsListed(docs, before.payable, Query(docs, kind, before.listing), entities[i]);
  }

  // ---------------------------------------------------------------- one bucket

  lemma {:induction false} GroupsOfLines(docs: Docs, lines: seq<Ref>)
    requires forall l :: l in lines ==> l in docs
    ensures |GroupsOf(docs, lines)| == |lines|
    ensures forall k :: 0 <= k < |lines| ==> GroupsOf(docs, lines)[k] == docs[lines[k]].group
  {
    if lines == [] {
    } else {
      assert lines[|lines| - 1] in lines;
      GroupsOfLines(docs, lines[..|lines| - 1]);
    }
  }

  /** The groups of a payment, as the lines had them when the pass started. */
  ghost predicate Lists(docs: Docs, lines: seq<Ref>, payment: seq<nat>) {
    && |payment| == |lines|
    && forall k :: 0 <= k < |lines| ==> lines[k] in docs && payment[k] == docs[lines[k]].group
  }

  /** What the bucket of an entity does to a row: it marks it when it is a line and the payment accepted. */
  ghost predicate MarkedBy(before: Doc, after: Doc, marked: bool) {
    && (after.synced <==> before.synced || marked)
    && (after.paidOnNetsuite <==> before.paidOnNetsuite || marked)
  }

  lemma AcceptedBucket(r: Run, docs: Docs, kind: Kind, lines: seq<Ref>, uniqueId: string, row: Ref)
    requires !r.raised && lines != [] && OneDocEach(r.books.docs) && Advances(docs, r.books.docs) && row in docs
    requires forall l :: l in lines ==> l in docs && l.kind == kind
    ensures var q := PayBucket(r, kind, lines, uniqueId, Accept);
            && !q.raised && row in r.books.docs && row in q.books.docs
            && MarkedBy(r.books.docs[row], q.books.docs[row], row in lines)
            && |q.books.payments| == |r.books.payments| + 1 && r.books.payments <= q.books.payments
            && Lists(docs, lines, q.books.payments[|r.books.payments|])
  {
    CommitSyncsExactly(r.books, kind, lines, row);
    GroupsOfLines(r.books.docs, lines);
    forall k | 0 <= k < |lines| ensures r.books.docs[lines[k]].group == docs[lines[k]].group {
      assert lines[k] in lines && AdvancesAt(docs[lines[k]], r.books.docs[lines[k]]);
    }
  }

  lemma OtherBucket(r: Run, kind: Kind, lines: seq<Ref>, uniqueId: string, answer: Answer, row: Ref)
    requires answer != Accept && row in r.books.docs
    ensures var q := PayBucket(r, kind, lines, uniqueId, answer);
            && row in q.books.docs && MarkedBy(r.books.docs[row], q.books.docs[row], false)
            && q.books.payments == r.books.payments
  {
  }

  // ---------------------------------------------------------------- the buckets of a pass

  /** The entities paid so far, in order; each of the new payments lists the lines of one of them. */
  ghost predicate Recorded(b: Books, kind: Kind, pass: Pass, entities: seq<string>, paid: seq<string>, after: Books) {
    && NoDup(paid) && (forall e :: e in paid <==> IsPaidFor(b.docs, kind, pass, entities, e))
    && |after.payments| == |b.payments| + |paid| && b.payments <= after.payments
    && forall p :: 0 <= p < |paid| ==>
         Lists(b.docs, Lines(b.docs, kind, pass, paid[p]), after.payments[|b.payments| + p])
  }

  /** The rows marked are the lines of the entities paid for. */
  ghost predicate Marked(b: Books, kind: Kind, pass: Pass, entities: seq<string>, row: Ref, after: Books) {
    && row in b.docs && row in after.docs
    && MarkedBy(b.docs[row], after.docs[row],
                IsDue(b.docs, kind, pass, row, b.docs[row].entity)
                && IsPaidFor(b.docs, kind, pass, entities, b.docs[row].entity))
  }

  lemma PaidForGrows(docs: Docs, kind: Kind, pass: Pass, entities: seq<string>, e: string)
    requires entities != [] && IsPaidFor(docs, kind, pass, entities[..|entities| - 1], e)
    ensures IsPaidFor(docs, kind, pass, entities, e)
  {
    var front := entities[..|entities| - 1];
    var i :| 0 <= i < |front| && front[i] == e && IsAccepted(pass, e)
             && forall j :: 0 <= j < i ==> !Stops(docs, kind, pass, front[j]);
    assert forall j :: 0 <= j < i ==> front[j] == entities[j];
    assert entities[i] == e;
  }

  lemma PaidForLast(docs: Docs, kind: Kind, pass: Pass, entities: seq<string>)
    requires entities != [] && IsAccepted(pass, entities[|entities| - 1])
    requires !SomeStops(docs, kind, pass, entities[..|entities| - 1])
    ensures IsPaidFor(docs, kind, pass, entities, entities[|entities| - 1])
  {
    var front := entities[..|entities| - 1];
    forall j | 0 <= j < |entities| - 1 ensures !Stops(docs, kind, pass, entities[j]) {
      assert front[j] in front;
    }
  }

  lemma PaidForDrops(docs: Docs, kind: Kind, pass: Pass, entities: seq<string>, e: string)
    requires entities != [] && IsPaidFor(docs, kind, pass, entities, e)
    ensures || IsPaidFor(docs, kind, pass, entities[..|entities| - 1], e)
            || (e == entities[|entities| - 1] && IsAccepted(pass, e)
                && !SomeStops(docs, kind, pass, entities[..|entities| - 1]))
  {
    var front := entities[..|entities| - 1];
    var i :| 0 <= i < |entities| && entities[i] == e && IsAccepted(pass, e)
             && forall j :: 0 <= j < i ==> !Stops(docs, kind, pass, entities[j]);
    assert forall j :: 0 <= j < |front| ==> front[j] == entities[j];
    if i < |front| {
      assert front[i] == e;
    }
  }

  lemma PaidForSnoc(docs: Docs, kind: Kind, pass: Pass, entities: seq<string>, e: string)
    requires entities != []
    ensures var front, last := entities[..|entities| - 1], entities[|entities| - 1];
            IsPaidFor(docs, kind, pass, entities, e) <==>
              || IsPaidFor(docs, kind, pass, front, e)
              || (e == last && IsAccepted(pass, e) && !SomeStops(docs, kind, pass, front))
  {
    var front, last := entities[..|entities| - 1], entities[|entities| - 1];
    if IsPaidFor(docs, kind, pass, front, e) {
      PaidForGrows(docs, kind, pass, entities, e);
    } else if e == last && IsAccepted(pass, e) && !SomeStops(docs, kind, pass, front) {
      PaidForLast(docs, kind, pass, entities);
    } else if IsPaidFor(docs, kind, pass, entities, e) {
      PaidForDrops(docs, kind, pass, entities, e);
    }
  }

  /** A bucket adds a payment exactly when it is reached and accepted. */
  ghost predicate PaysLast(b: Books, kind: Kind, pass: Pass, entities: seq<string>) {
    entities != [] && IsAccepted(pass, entities[|entities| - 1])
    && !SomeStops(b.docs, kind, pass, entities[..|entities| - 1])
  }

  lemma NotPaidYet(docs: Docs, kind: Kind, pass: Pass, entities: seq<string>)
    requires entities != [] && NoDup(entities)
    ensures !IsPaidFor(docs, kind, pass, entities[..|entities| - 1], entities[|entities| - 1])
  {
  }

  /** What the last bucket of a list does to the books left by those before it. */
  lemma LastBucket(b: Books, kind: Kind, pass: Pass, entities: seq<string>, row: Ref)
    requires Inv(b) && NoDup(entities) && entities != [] && row in b.docs
    requires forall e :: e in entities ==> Lines(b.docs, kind, pass, e) != []
    ensures var mid, after := PayBuckets(b, kind, b.docs, pass, entities[..|entities| - 1]).books,
                              PayBuckets(b, kind, b.docs, pass, entities).books;
            var lines := Lines(b.docs, kind, pass, entities[|entities| - 1]);
            && row in mid.docs && row in after.docs
            && MarkedBy(mid.docs[row], after.docs[row], PaysLast(b, kind, pass, entities) && row in lines)
            && if PaysLast(b, kind, pass, entities) then
                 && |after.payments| == |mid.payments| + 1 && mid.payments <= after.payments
                 && Lists(b.docs, lines, after.payments[|mid.payments|])
               else after.payments == mid.payments
  {
    var front, last := entities[..|entities| - 1], entities[|entities| - 1];
    var r, lines := PayBuckets(b, kind, b.docs, pass, front), Lines(b.docs, kind, pass, last);
    BucketsStopExactly(b, kind, pass, front);
    BucketsAdvance(b, kind, pass, front);
    PayBucketsKeepsInv(b, kind, pass, front);
    assert last in entities && row in r.books.docs.Keys;
    if PaysLast(b, kind, pass, entities) {
      forall l | l in lines ensures l in b.docs && l.kind == kind {
        LinesAreDue(b.docs, kind, pass, l, last);
      }
      AcceptedBucket(r, b.docs, kind, lines, BucketId(b.docs, lines), row);
    } else if !r.raised {
      OtherBucket(r, kind, lines, BucketId(b.docs, lines), AnswerFor(pass.answers, last), row);
    }
  }

  lemma {:induction false} BucketsMark(b: Books, kind: Kind, pass: Pass, entities: seq<string>, row: Ref)
    requires Inv(b) && NoDup(entities) && row in b.docs
    requires forall e :: e in entities ==> Lines(b.docs, kind, pass, e) != []
    ensures Marked(b, kind, pass, entities, row, PayBuckets(b, kind, b.docs, pass, entities).books)
  {
    if entities == [] {
    } else {
      var front, last := entities[..|entities| - 1], entities[|entities| - 1];
      BucketsMark(b, kind, pass, front, row);
      LastBucket(b, kind, pass, entities, row);
      PaidForSnoc(b.docs, kind, pass, entities, b.docs[row].entity);
      LinesAreDue(b.docs, kind, pass, row, last);
    }
  }

  lemma RecordedMore(b: Books, kind: Kind, pass: Pass, entities: seq<string>, paid: seq<string>, mid: Books,
                     after: Books)
    requires entities != [] && NoDup(entities)
    requires Recorded(b, kind, pass, entities[..|entities| - 1], paid, mid) && PaysLast(b, kind, pass, entities)
    requires |after.payments| == |mid.payments| + 1 && mid.payments <= after.payments
    requires Lists(b.docs, Lines(b.docs, kind, pass, entities[|entities| - 1]), after.payments[|mid.payments|])
    ensures Recorded(b, kind, pass, entities, paid + [entities[|entities| - 1]], after)
  {
    var last, more := entities[|entities| - 1], paid + [entities[|entities| - 1]];
    NotPaidYet(b.docs, kind, pass, entities);
    forall e ensures e in more <==> IsPaidFor(b.docs, kind, pass, entities, e) {
      PaidForSnoc(b.docs, kind, pass, entities, e);
    }
    forall p | 0 <= p < |more|
      ensures Lists(b.docs, Lines(b.docs, kind, pass, more[p]), after.payments[|b.payments| + p])
    {
      if p < |paid| {
        assert after.payments[|b.payments| + p] == mid.payments[|b.payments| + p];
      }
    }
  }

  lemma RecordedSame(b: Books, kind: Kind, pass: Pass, entities: seq<string>, paid: seq<string>, mid: Books,
                     after: Books)
    requires entities != [] && NoDup(entities)
    requires Recorded(b, kind, pass, entities[..|entities| - 1], paid, mid) && !PaysLast(b, kind, pass, entities)
    requires after.payments == mid.payments
    ensures Recorded(b, kind, pass, entities, paid, after)
  {
    forall e ensures e in paid <==> IsPaidFor(b.docs, kind, pass, entities, e) {
      PaidForSnoc(b.docs, kind, pass, entities, e);
    }
  }

  lemma {:induction false} BucketsRecord(b: Books, kind: Kind, pass: Pass, entities: seq<string>)
    returns (paid: seq<string>)
    requires Inv(b) && NoDup(entities)
    requires forall e :: e in entities ==> Lines(b.docs, kind, pass, e) != []
    ensures Recorded(b, kind, pass, entities, paid, PayBuckets(b, kind, b.docs, pass, entities).books)
  {
    if entities == [] {
      paid := [];
    } else {
      var front, last := entities[..|entities| - 1], entities[|entities| - 1];
      var mid, after := PayBuckets(b, kind, b.docs, pass, front).books,
                        PayBuckets(b, kind, b.docs, pass, entities).books;
      paid := BucketsRecord(b, kind, pass, front);
      assert last in entities;
      LastBucketPayments(b, kind, pass, entities);
      if PaysLast(b, kind, pass, entities) {
        RecordedMore(b, kind, pass, entities, paid, mid, after);
        paid := paid + [last];
      } else {
        RecordedSame(b, kind, pass, entities, paid, mid, after);
      }
    }
  }

  lemma LastBucketPayments(b: Books, kind: Kind, pass: Pass, entities: seq<string>)
    requires Inv(b) && NoDup(entities) && entities != []
    requires forall e :: e in entities ==> Lines(b.docs, kind, pass, e) != []
    ensures var mid, after := PayBuckets(b, kind, b.docs, pass, entities[..|entities| - 1]).books,
                              PayBuckets(b, kind, b.docs, pass, entities).books;
            if PaysLast(b, kind, pass, entities) then
              && |after.payments| == |mid.payments| + 1 && mid.payments <= after.payments
              && Lists(b.docs, Lines(b.docs, kind, pass, entities[|entities| - 1]), after.payments[|mid.payments|])
            else after.payments == mid.payments
  {
    var last := entities[|entities| - 1];
    assert last in entities;
    var row := Lines(b.docs, kind, pass, last)[0];
    assert row in Lines(b.docs, kind, pass, last);
    LinesAreDue(b.docs, kind, pass, row, last);
    LastBucket(b, kind, pass, entities, row);
  }

  // ---------------------------------------------------------------- a pass

  /** The pass gets past the gathering: every open listed document is answered for and has a complete log. */
  ghost predicate IsGathered(docs: Docs, kind: Kind, pass: Pass) {
    forall row :: row in docs && row.kind == kind && !docs[row].synced && !docs[row].retired && row in pass.listing ==>
      row in pass.answered && row in pass.logged
  }

  lemma GatheredExactly(docs: Docs, kind: Kind, pass: Pass)
    ensures AllGatherable(pass, Query(docs, kind, pass.listing)) <==> IsGathered(docs, kind, pass)
  {
    var rows := Query(docs, kind, pass.listing);
    forall row
      ensures row in rows <==> row in docs && row.kind == kind && !docs[row].synced && !docs[row].retired
                               && row in pass.listing
    {
      assert row in rows <==> row in pass.listing && Open(docs, kind, row);
    }
    if !AllGatherable(pass, rows) {
      var row :| row in rows && !Gatherable(pass, row);
      assert row in docs;
    }
    if AllGatherable(pass, rows) {
      assert forall row :: row in rows ==> Gatherable(pass, row);
    }
  }

  lemma EntitiesHaveLines(docs: Docs, kind: Kind, pass: Pass)
    ensures NoDup(Entities(docs, kind, pass))
    ensures forall e :: e in Entities(docs, kind, pass) ==> Lines(docs, kind, pass, e) != []
  {
    forall e | e in Entities(docs, kind, pass) ensures Lines(docs, kind, pass, e) != [] {
      EntityIsListed(docs, pass.payable, Query(docs, kind, pass.listing), e);
    }
  }

  /** The row is a document that the pass pays: due, its entity reached and accepted. */
  ghost predicate PaidInPass(docs: Docs, kind: Kind, pass: Pass, row: Ref) {
    && row in docs && IsGathered(docs, kind, pass) && IsDue(docs, kind, pass, row, docs[row].entity)
    && IsPaidFor(docs, kind, pass, Entities(docs, kind, pass), docs[row].entity)
  }

  /** A pass marks a document synced and paid exactly when it pays it; what was marked before stays so. */
  lemma PassMarksExactly(b: Books, kind: Kind, pass: Pass, row: Ref)
    requires Inv(b) && row in b.docs
    ensures var after := PayKind(b, kind, pass).books;
            row in after.docs && MarkedBy(b.docs[row], after.docs[row], PaidInPass(b.docs, kind, pass, row))
  {
    GatheredExactly(b.docs, kind, pass);
    if IsGathered(b.docs, kind, pass) {
      EntitiesHaveLines(b.docs, kind, pass);
      BucketsMark(b, kind, pass, Entities(b.docs, kind, pass), row);
    }
  }

  /**
   A pass adds one payment for each entity that is reached and accepted, and no other: it lists the groups of the due
   documents of that entity. A pass that does not get past the gathering adds none.
   */
  lemma PassRecordsExactly(b: Books, kind: Kind, pass: Pass) returns (paid: seq<string>)
    requires Inv(b)
    ensures IsGathered(b.docs, kind, pass) ==>
              Recorded(b, kind, pass, Entities(b.docs, kind, pass), paid, PayKind(b, kind, pass).books)
    ensures !IsGathered(b.docs, kind, pass) ==> PayKind(b, kind, pass).books == b
  {
    GatheredExactly(b.docs, kind, pass);
    paid := [];
    if IsGathered(b.docs, kind, pass) {
      EntitiesHaveLines(b.docs, kind, pass);
      paid := BucketsRecord(b, kind, pass, Entities(b.docs, kind, pass));
    }
  }

  lemma ListedGroup(docs: Docs, lines: seq<Ref>, payment: seq<nat>, row: Ref)
    requires Lists(docs, lines, payment) && row in lines
    ensures row in docs && docs[row].group in payment
  {
    var j :| 0 <= j < |lines| && lines[j] == row;
    assert payment[j] == docs[row].group;
  }

  lemma RecordedGroup(b: Books, kind: Kind, pass: Pass, entities: seq<string>, paid: seq<string>, after: Books,
                      row: Ref)
    returns (k: nat)
    requires Recorded(b, kind, pass, entities, paid, after)
    requires row in b.docs && IsPaidFor(b.docs, kind, pass, entities, b.docs[row].entity)
    requires row in Lines(b.docs, kind, pass, b.docs[row].entity)
    ensures |b.payments| <= k < |after.payments| && b.docs[row].group in after.payments[k]
  {
    var e := b.docs[row].entity;
    assert e in paid;
    var p :| 0 <= p < |paid| && paid[p] == e;
    k := |b.payments| + p;
    ListedGroup(b.docs, Lines(b.docs, kind, pass, paid[p]), after.payments[k], row);
  }

  lemma UnpaidLine(b: Books, kind: Kind, lines: seq<Ref>, row: Ref)
    requires Unpaid(b, kind, lines) && row in lines
    ensures row in b.docs && !IsPaid(b, b.docs[row].group)
  {
  }

  /** The group of a document that a pass pays is in a payment that the pass adds, and in no payment before. */
  lemma PaidGroupIsRecorded(b: Books, kind: Kind, pass: Pass, row: Ref) returns (k: nat)
    requires Inv(b) && PaidInPass(b.docs, kind, pass, row)
    ensures |b.payments| <= k < |PayKind(b, kind, pass).books.payments|
    ensures b.docs[row].group in PayKind(b, kind, pass).books.payments[k]
    ensures !IsPaid(b, b.docs[row].group)
  {
    var e := b.docs[row].entity;
    var paid := PassRecordsExactly(b, kind, pass);
    LinesAreDue(b.docs, kind, pass, row, e);
    k := RecordedGroup(b, kind, pass, Entities(b.docs, kind, pass), paid, PayKind(b, kind, pass).books, row);
    GatheredIsUnpaid(b, kind, pass, e);
    UnpaidLine(b, kind, Lines(b.docs, kind, pass, e), row);
  }

  // ---------------------------------------------------------------- a run

  /**
   A run marks a document exactly when the pass over its table pays it: the bills first, the expense reports only when
   the pass over the bills did not raise.
   */
  lemma RunMarksExactly(b: Books, bills: Pass, reports: Pass, row: Ref)
    requires Inv(b) && row in b.docs
    ensures var mid, after := PayKind(b, BILL, bills), PayRun(b, bills, reports).books;
            && row in after.docs
            && MarkedBy(b.docs[row], after.docs[row],
                        PaidInPass(b.docs, BILL, bills, row)
                        || (!mid.raised && PaidInPass(mid.books.docs, EXPENSE_REPORT, reports, row)))
  {
    PassMarksExactly(b, BILL, bills, row);
    PayKindKeepsInv(b, BILL, bills);
    PassMarksExactly(PayKind(b, BILL, bills).books, EXPENSE_REPORT, reports, row);
  }
}
