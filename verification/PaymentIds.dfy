/** The text that identifies a vendor payment, and the document that a late check reads out of it again. */
module PaymentIds {
  import opened Common
  import opened Text

  datatype Kind = BILL | EXPENSE_REPORT

  /** What the id of a payment takes from a document: its table, its group, the employee's e-mail and its row id. */
  datatype Document = Document(kind: Kind, group: nat, email: string, id: nat)

  function ExternalId(d: Document): string {
    (if d.kind == BILL then "bill " else "report ") + Digits(d.group) + " - " + d.email
  }

  /** unique_id of a bucket whose first document is d. */
  function UniqueId(d: Document): string {
    ExternalId(d) + "-" + Digits(d.id)
  }

  /** The row id a late check takes from a unique id: the third piece between hyphens, if it is a number. */
  function PickedId(uniqueId: string): Option<nat> {
    var pieces := Split(uniqueId, '-');
    if |pieces| < 3 then None else ParseInt(pieces[2])
  }

  /** What stands before the first hyphen of a unique id. */
  function Head(d: Document): string {
    (if d.kind == BILL then "bill " else "report ") + Digits(d.group) + " "
  }

  lemma PiecesOfId(d: Document)
    ensures UniqueId(d) == Head(d) + ['-'] + ((" " + d.email) + ['-'] + Digits(d.id))
    ensures '-' !in Head(d) && '-' !in Digits(d.id)
  {
    DigitsAreDigits(d.group);
    DigitsAreDigits(d.id);
    var start, n, end := if d.kind == BILL then "bill " else "report ", Digits(d.group), Digits(d.id);
    assert '-' !in start && '-' !in n;
    assert start + n + " - " + d.email + "-" + end == start + n + " " + ['-'] + (" " + d.email + ['-'] + end);
  }

  /** Of three pieces the outer ones without hyphen, the third is the last one or the second of the middle one. */
  lemma ThirdPiece(head: string, mail: string, tail: string)
    requires '-' !in head && '-' !in tail
    ensures '-' in mail ==> |Split(mail, '-')| > 1
    ensures var pieces := Split(head + ['-'] + ((" " + mail) + ['-'] + tail), '-');
            |pieces| > 2 && pieces[2] == if '-' in mail then Split(mail, '-')[1] else tail
  {
    var middle := " " + mail;
    SplitConcat(head, middle + ['-'] + tail, '-');
    SplitConcat(middle, tail, '-');
    SplitWhole(head, '-');
    SplitWhole(tail, '-');
    SplitWhole(mail, '-');
    assert middle[1..] == mail;
  }

  /** Which row that is: the own one for an e-mail without hyphen, else the number after its first hyphen, if any. */
  lemma PickedExactly(d: Document)
    ensures '-' in d.email ==> |Split(d.email, '-')| > 1
    ensures PickedId(UniqueId(d)) == if '-' in d.email then ParseInt(Split(d.email, '-')[1]) else Some(d.id)
  {
    PiecesOfId(d);
    ThirdPiece(Head(d), d.email, Digits(d.id));
    ParseOfDigits(d.id);
  }

  /** The e-mail has no hyphen, or the own row id stands after its first one. */
  predicate NamesItself(d: Document) {
    var mail := Split(d.email, '-');
    |mail| == 1 || ParseInt(mail[1]) == Some(d.id)
  }

  /** The id leads back to the document it was made of exactly under that condition on the e-mail. */
  lemma PicksItselfExactly(d: Document)
    ensures PickedId(UniqueId(d)) == Some(d.id) <==> NamesItself(d)
    ensures '-' !in d.email ==> NamesItself(d)
  {
    PickedExactly(d);
    SplitWhole(d.email, '-');
  }

  /** The second piece of a text of two or more pieces. */
  lemma SecondPiece(first: string, second: string, rest: string)
    requires '-' !in first && '-' !in second && (rest == "" || rest[0] == '-')
    ensures var mail := first + ['-'] + (second + rest);
            '-' in mail && |Split(mail, '-')| > 1 && Split(mail, '-')[1] == second
  {
    var mail := first + ['-'] + (second + rest);
    assert mail[|first|] == '-';
    SplitConcat(first, second + rest, '-');
    SplitWhole(first, '-');
    SplitWhole(second, '-');
    if rest == "" {
      assert second + rest == second;
    } else {
      assert second + rest == second + ['-'] + rest[1..];
      SplitConcat(second, rest[1..], '-');
    }
  }

  /** An e-mail with one hyphen names no document unless what follows the hyphen ends in a digit or a space. */
  lemma OneHyphenPicksNone(d: Document, user: string, domain: string)
    requires d.email == user + "-" + domain
    requires '-' !in user && '-' !in domain && domain != ""
    requires var last := domain[|domain| - 1]; !IsDigit(last) && !IsSpace(last)
    ensures PickedId(UniqueId(d)) == None
  {
    assert d.email == user + ['-'] + (domain + "");
    SecondPiece(user, domain, "");
    PickedExactly(d);
    NoNumber(domain);
  }

  lemma HyphenPicksNone()
    ensures PickedId(UniqueId(Document(BILL, 12, "ann@acme-corp.com", 34))) == None
  {
    assert "ann@acme-corp.com" == "ann@acme" + "-" + "corp.com";
    OneHyphenPicksNone(Document(BILL, 12, "ann@acme-corp.com", 34), "ann@acme", "corp.com");
  }

  /** A number between two hyphens of an e-mail names another document. */
  lemma HyphenPicksAnother()
    ensures PickedId(UniqueId(Document(BILL, 12, "a-5-b@x.com", 34))) == Some(5)
  {
    var mail := "a-5-b@x.com";
    assert mail == "a" + ['-'] + ("5" + "-b@x.com");
    SecondPiece("a", "5", "-b@x.com");
    PickedExactly(Document(BILL, 12, mail, 34));
    assert Digits(5) == "5";
    ParseOfDigits(5);
  }
}
