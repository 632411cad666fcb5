/** Sequences and optional values shared by the other modules. */
module Common {

  datatype Option<+T> = None | Some(value: T)

  datatype Result<+T> = Success(value: T) | Failure

  predicate NoDup<T(==)>(s: seq<T>) {
    forall i, j :: 0 <= i < j < |s| ==> s[i] != s[j]
  }

  function Elems<T>(s: seq<T>): set<T> {
    set x | x in s
  }

  lemma LastOfDistinct<T>(s: seq<T>, x: T)
    requires s != [] && NoDup(s)
    ensures x in s <==> x in s[..|s| - 1] || x == s[|s| - 1]
    ensures x == s[|s| - 1] ==> x !in s[..|s| - 1]
  {
    assert s == s[..|s| - 1] + [s[|s| - 1]];
  }

  lemma DistinctConcat<T(!new)>(a: seq<T>, b: seq<T>)
    requires NoDup(a) && NoDup(b) && forall x :: x in a ==> x !in b
    ensures NoDup(a + b)
  {
    forall i, j | 0 <= i < j < |a + b| ensures (a + b)[i] != (a + b)[j] {
      if i < |a| <= j {
        assert a[i] in a && b[j - |a|] in b;
      }
    }
  }

  /** Every element of part occurs in it as often as in whole. */
  ghost predicate AsOften<T(!new)>(part: seq<T>, whole: seq<T>) {
    forall x :: x in part ==> multiset(part)[x] == multiset(whole)[x]
  }

  lemma AsOftenConcat<T(!new)>(a: seq<T>, b: seq<T>, whole: seq<T>)
    requires AsOften(a, whole) && AsOften(b, whole) && Elems(a) !! Elems(b)
    ensures AsOften(a + b, whole)
  {
    forall x | x in a + b ensures multiset(a + b)[x] == multiset(whole)[x] {
      assert x in Elems(a) ==> x !in Elems(b);
    }
  }

  lemma AsOftenTransitive<T(!new)>(a: seq<T>, b: seq<T>, c: seq<T>)
    requires AsOften(a, b) && AsOften(b, c)
    ensures AsOften(a, c)
  {
    forall x | x in a ensures multiset(a)[x] == multiset(c)[x] {
      assert multiset(a)[x] > 0 && multiset(b)[x] > 0;
      assert x in b;
    }
  }

  lemma {:induction false} OccursOnce<T(!new)>(s: seq<T>, x: T)
    requires NoDup(s)
    ensures multiset(s)[x] <= 1
  {
    if s == [] {
    } else {
      var front, last := s[..|s| - 1], s[|s| - 1];
      assert s == front + [last];
      OccursOnce(front, x);
    }
  }

  lemma OccursTwice<T>(s: seq<T>, i: nat, j: nat)
    requires i < j < |s| && s[i] == s[j]
    ensures multiset(s)[s[i]] >= 2
  {
    assert s == s[..j] + s[j..];
    assert s[..j][i] in s[..j] && s[j..][0] in s[j..];
  }

  /** A part of a list without duplicates has none. */
  lemma AsOftenOfDistinct<T(!new)>(part: seq<T>, whole: seq<T>)
    requires AsOften(part, whole) && NoDup(whole)
    ensures NoDup(part)
  {
    forall i, j | 0 <= i < j < |part| ensures part[i] != part[j] {
      assert part[i] in part;
      OccursOnce(whole, part[i]);
      if part[i] == part[j] {
        OccursTwice(part, i, j);
      }
    }
  }

  /** The distinct elements of s, each at the place of its first occurrence. */
  function FirstSeen<T(==,!new)>(s: seq<T>): (r: seq<T>)
    ensures NoDup(r)
    ensures forall x :: x in r <==> x in s
  {
    if s == [] then []
    else
      var r := FirstSeen(s[..|s| - 1]);
      if s[|s| - 1] in r then r else r + [s[|s| - 1]]
  }

  lemma FirstSeenSnoc<T(!new)>(s: seq<T>, x: T)
    ensures FirstSeen(s + [x]) == if x in s then FirstSeen(s) else FirstSeen(s) + [x]
  {
    assert (s + [x])[..|s|] == s;
  }

  /** Python's list(set(s)): the distinct elements in no particular order. */
  method DistinctInSomeOrder<T(==,!new)>(s: seq<T>) returns (r: seq<T>)
    ensures NoDup(r) && Elems(r) == Elems(s)
  {
    r := FirstSeen(s);
  }

  lemma {:induction false} FirstSeenOfDistinct<T(!new)>(s: seq<T>)
    requires NoDup(s)
    ensures FirstSeen(s) == s
  {
    if s == [] {
    } else {
      FirstSeenOfDistinct(s[..|s| - 1]);
    }
  }

  /** A sequence that repeats a single value has that value as its only distinct element. */
  lemma {:induction false} FirstSeenOfConstant<T(!new)>(s: seq<T>, v: T)
    requires |s| > 0 && forall i :: 0 <= i < |s| ==> s[i] == v
    ensures FirstSeen(s) == [v]
  {
    if |s| == 1 {
      assert s[..0] == [];
    } else {
      FirstSeenOfConstant(s[..|s| - 1], v);
    }
  }

  /** s without its first occurrence of x: Python's list.remove. */
  function RemoveFirst<T(==,!new)>(s: seq<T>, x: T): (r: seq<T>)
    requires x in s
    ensures |r| == |s| - 1
    ensures forall y :: y != x ==> (y in r <==> y in s)
  {
    if s[0] == x then s[1..] else [s[0]] + RemoveFirst(s[1..], x)
  }

  /** s without every element of gone. */
  function Without<T(==,!new)>(s: seq<T>, gone: set<T>): (r: seq<T>)
    ensures forall x :: x in r <==> x in s && x !in gone
  {
    if s == [] then []
    else if s[0] in gone then Without(s[1..], gone)
    else [s[0]] + Without(s[1..], gone)
  }

  lemma {:induction false} WithoutKeepsNoDup<T(!new)>(s: seq<T>, gone: set<T>)
    requires NoDup(s)
    ensures NoDup(Without(s, gone))
  {
    if s == [] {
    } else {
      WithoutKeepsNoDup(s[1..], gone);
    }
  }

  lemma {:induction false} WithoutNothing<T(!new)>(s: seq<T>, gone: set<T>)
    requires forall x :: x in s ==> x !in gone
    ensures Without(s, gone) == s
  {
    if s == [] {
    } else {
      WithoutNothing(s[1..], gone);
    }
  }

  /** Removing the first occurrence removes the element exactly from a duplicate-free sequence. */
  lemma {:induction false} RemoveFirstOfDistinct<T(!new)>(s: seq<T>, x: T)
    requires NoDup(s) && x in s
    ensures RemoveFirst(s, x) == Without(s, {x})
  {
    if s[0] == x {
      WithoutNothing(s[1..], {x});
    } else {
      RemoveFirstOfDistinct(s[1..], x);
    }
  }

  /** In general a value that occurs is gone after one removal exactly when it occurred once. */
  lemma {:induction false} RemoveFirstClears<T(!new)>(s: seq<T>, x: T)
    requires x in s
    ensures x !in RemoveFirst(s, x) <==> forall i, j :: 0 <= i < j < |s| && s[i] == x ==> s[j] != x
  {
    if s[0] != x {
      var r, rest := RemoveFirst(s[1..], x), s[1..];
      RemoveFirstClears(rest, x);
      assert x in [s[0]] + r <==> x in r;
      assert forall i, j :: 0 <= i < j < |s| ==>
          (s[i] == x && s[j] == x ==> i > 0 && rest[i - 1] == x && rest[j - 1] == x);
      assert forall i, j :: 0 <= i < j < |rest| ==> rest[i] == s[i + 1] && rest[j] == s[j + 1];
    } else {
      assert forall j :: 0 < j < |s| ==> s[j] == s[1..][j - 1];
    }
  }

  lemma {:induction false} WithoutConcat<T(!new)>(s: seq<T>, t: seq<T>, gone: set<T>)
    ensures Without(s + t, gone) == Without(s, gone) + Without(t, gone)
  {
    if s == [] {
      assert s + t == t;
    } else {
      assert (s + t)[1..] == s[1..] + t;
      WithoutConcat(s[1..], t, gone);
    }
  }

  /** The first occurrence is removed where it stands. */
  lemma {:induction false} RemoveFirstAt<T(!new)>(s: seq<T>, x: T, t: seq<T>)
    requires x !in s
    ensures x in s + [x] + t && RemoveFirst(s + [x] + t, x) == s + t
  {
    var whole := s + [x] + t;
    assert whole[|s|] == x;
    if s == [] {
      assert whole == [x] + t;
      assert whole[1..] == t;
    } else {
      assert whole[1..] == s[1..] + [x] + t;
      RemoveFirstAt(s[1..], x, t);
    }
  }

  lemma {:induction false} WithoutTwice<T(!new)>(s: seq<T>, a: set<T>, b: set<T>)
    ensures Without(Without(s, a), b) == Without(s, a + b)
  {
    if s == [] {
    } else {
      WithoutTwice(s[1..], a, b);
    }
  }
}
