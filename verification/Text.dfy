/** Decimal numerals and the splitting of text at a character. */
module Text {
  import opened Common

  // ---------------------------------------------------------------- numerals

  function Digit(n: nat): char {
    ('0' as int + n % 10) as char
  }

  function Digits(n: nat): string {
    if n < 10 then [Digit(n)] else Digits(n / 10) + [Digit(n)]
  }

  predicate IsDigit(c: char) {
    '0' <= c <= '9'
  }

  predicate IsSpace(c: char) {
    c in {' ', '\t', '\n', '\r', '\U{0B}', '\U{0C}'}
  }

  /** The value of one or more digits; a single underscore may stand between two of them. */
  function Numeral(s: string): Option<nat> {
    if s == "" || !IsDigit(s[|s| - 1]) then None
    else
      var front, value := s[..|s| - 1], s[|s| - 1] as int - '0' as int;
      if front == "" then Some(value)
      else
        var high := Numeral(if front[|front| - 1] == '_' then front[..|front| - 1] else front);
        if high == None then None else Some(10 * high.value + value)
  }

  function Strip(s: string): string {
    if s == "" then s
    else if IsSpace(s[0]) then Strip(s[1..])
    else if IsSpace(s[|s| - 1]) then Strip(s[..|s| - 1])
    else s
  }

  /** Python's int on a text without a minus sign: spaces around and a plus sign are accepted. */
  function ParseInt(text: string): Option<nat> {
    var s := Strip(text);
    Numeral(if s != "" && s[0] == '+' then s[1..] else s)
  }

  lemma {:induction false} DigitsAreDigits(n: nat)
    ensures Digits(n) != "" && forall c :: c in Digits(n) ==> IsDigit(c)
  {
    if n < 10 {
    } else {
      DigitsAreDigits(n / 10);
    }
  }

  lemma {:induction false} NumeralOfDigits(n: nat)
    ensures Numeral(Digits(n)) == Some(n)
  {
    var s := Digits(n);
    assert s[|s| - 1] == Digit(n);
    if n < 10 {
      assert s[..|s| - 1] == "";
    } else {
      assert s[..|s| - 1] == Digits(n / 10);
      DigitsAreDigits(n / 10);
      var front := Digits(n / 10);
      assert front[|front| - 1] in front;
      NumeralOfDigits(n / 10);
    }
  }

  /** Printing a number and reading it gives the number back. */
  lemma ParseOfDigits(n: nat)
    ensures ParseInt(Digits(n)) == Some(n)
  {
    var s := Digits(n);
    DigitsAreDigits(n);
    assert s[0] in s && s[|s| - 1] in s;
    NumeralOfDigits(n);
  }

  lemma {:induction false} NoNumber(s: string)
    requires s != "" && !IsDigit(s[|s| - 1]) && !IsSpace(s[|s| - 1])
    ensures ParseInt(s) == None
  {
    if IsSpace(s[0]) {
      assert s[1..] != "" && s[1..][|s| - 2] == s[|s| - 1];
      NoNumber(s[1..]);
    }
  }

  // ---------------------------------------------------------------- splitting

  /** Python's s.split(sep) for a single character. */
  function Split(s: string, sep: char): (r: seq<string>)
    ensures r != []
  {
    if s == "" then [""]
    else
      var rest := Split(s[1..], sep);
      if s[0] == sep then [""] + rest else [[s[0]] + rest[0]] + rest[1..]
  }

  function Join(parts: seq<string>, sep: char): string
    requires parts != []
  {
    if |parts| == 1 then parts[0] else parts[0] + [sep] + Join(parts[1..], sep)
  }

  /** Splitting is the inverse of joining: the parts are free of the separator and make up the text. */
  lemma {:induction false} SplitJoins(s: string, sep: char)
    ensures Join(Split(s, sep), sep) == s
    ensures forall part :: part in Split(s, sep) ==> sep !in part
  {
    if s == "" {
    } else {
      var rest := Split(s[1..], sep);
      SplitJoins(s[1..], sep);
      assert rest[0] in rest && s == [s[0]] + s[1..];
      if s[0] == sep {
        assert ([""] + rest)[1..] == rest;
      } else {
        var parts := [[s[0]] + rest[0]] + rest[1..];
        assert parts[1..] == rest[1..];
        assert forall part :: part in parts[1..] ==> part in rest;
        if |rest| > 1 {
          assert [s[0]] + (rest[0] + [sep] + Join(rest[1..], sep)) == parts[0] + [sep] + Join(rest[1..], sep);
        }
      }
    }
  }

  lemma {:induction false} SplitConcat(s: string, t: string, sep: char)
    ensures Split(s + [sep] + t, sep) == Split(s, sep) + Split(t, sep)
  {
    var whole := s + [sep] + t;
    if s == "" {
      assert whole[1..] == t;
    } else {
      assert whole[1..] == s[1..] + [sep] + t;
      SplitConcat(s[1..], t, sep);
    }
  }

  lemma {:induction false} SplitWhole(s: string, sep: char)
    ensures |Split(s, sep)| == 1 <==> sep !in s
    ensures sep !in s ==> Split(s, sep) == [s]
  {
    if s == "" {
    } else {
      SplitWhole(s[1..], sep);
      assert s == [s[0]] + s[1..];
    }
  }
}
