/** Sums over sequences: the vocabulary every balance, log and sub-ledger law is stated in. */
module Sums {

  function SumBy<T>(s: seq<T>, f: T -> int): int {
    if |s| == 0 then 0 else SumBy(s[..|s| - 1], f) + f(s[|s| - 1])
  }

  lemma SumSnoc<T>(s: seq<T>, x: T, f: T -> int)
    ensures SumBy(s + [x], f) == SumBy(s, f) + f(x)
  {
    assert (s + [x])[..|s|] == s;
  }

  lemma SumPrefix<T>(s: seq<T>, i: nat, f: T -> int)
    requires i < |s|
    ensures SumBy(s[..i + 1], f) == SumBy(s[..i], f) + f(s[i])
  {
    assert s[..i + 1] == s[..i] + [s[i]];
    SumSnoc(s[..i], s[i], f);
  }

  lemma {:induction false} SumConcat<T>(a: seq<T>, b: seq<T>, f: T -> int)
    ensures SumBy(a + b, f) == SumBy(a, f) + SumBy(b, f)
  {
    if |b| == 0 {
      assert a + b == a;
    } else {
      var init, last := b[..|b| - 1], b[|b| - 1];
      assert a + b == (a + init) + [last];
      SumSnoc(a + init, last, f);
      SumConcat(a, init, f);
    }
  }

  lemma {:induction false} SumUpdate<T>(s: seq<T>, i: nat, x: T, f: T -> int)
    requires i < |s|
    ensures SumBy(s[i := x], f) == SumBy(s, f) - f(s[i]) + f(x)
  {
    var n := |s| - 1;
    if i == n {
      assert s[i := x][..n] == s[..n];
    } else {
      assert s[i := x][..n] == s[..n][i := x];
      SumUpdate(s[..n], i, x, f);
    }
  }

  lemma {:induction false} SumAdd<T>(s: seq<T>, f: T -> int, g: T -> int, h: T -> int)
    requires forall x :: x in s ==> f(x) == g(x) + h(x)
    ensures SumBy(s, f) == SumBy(s, g) + SumBy(s, h)
  {
    if |s| > 0 {
      SumAdd(s[..|s| - 1], f, g, h);
    }
  }

  lemma {:induction false} SumEqual<T>(s: seq<T>, f: T -> int, g: T -> int)
    requires forall x :: x in s ==> f(x) == g(x)
    ensures SumBy(s, f) == SumBy(s, g)
  {
    if |s| > 0 {
      SumEqual(s[..|s| - 1], f, g);
    }
  }

  lemma {:induction false} SumZero<T>(s: seq<T>, f: T -> int)
    requires forall x :: x in s ==> f(x) == 0
    ensures SumBy(s, f) == 0
  {
    if |s| > 0 {
      SumZero(s[..|s| - 1], f);
    }
  }

  lemma {:induction false} SumNonNegative<T>(s: seq<T>, f: T -> int)
    requires forall x :: x in s ==> f(x) >= 0
    ensures SumBy(s, f) >= 0
  {
    if |s| > 0 {
      SumNonNegative(s[..|s| - 1], f);
    }
  }

  /** A sum of non-negative terms is at least each of them, so a zero sum has only zero terms. */
  lemma {:induction false} SumBoundsTerm<T>(s: seq<T>, f: T -> int, i: nat)
    requires forall x :: x in s ==> f(x) >= 0
    requires i < |s|
    ensures 0 <= f(s[i]) <= SumBy(s, f)
  {
    var n := |s| - 1;
    SumNonNegative(s[..n], f);
    if i < n {
      SumBoundsTerm(s[..n], f, i);
    }
  }

  /** An indicator weight picks out exactly one element of a duplicate-free sequence. */
  lemma {:induction false} SumPick(order: seq<nat>, a: nat, f: nat -> int, v: int)
    requires forall i, j :: 0 <= i < j < |order| ==> order[i] != order[j]
    requires forall x: nat :: f(x) == if x == a then v else 0
    ensures SumBy(order, f) == if a in order then v else 0
  {
    if |order| > 0 {
      var init, last := order[..|order| - 1], order[|order| - 1];
      assert order == init + [last];
      SumPick(init, a, f, v);
    }
  }

  function Without<T>(s: seq<T>, i: nat): seq<T>
    requires i < |s|
  {
    s[..i] + s[i + 1..]
  }

  lemma {:induction false} SumWithout<T>(s: seq<T>, i: nat, f: T -> int)
    requires i < |s|
    ensures SumBy(s, f) == SumBy(Without(s, i), f) + f(s[i])
  {
    var n := |s| - 1;
    if i == n {
      assert Without(s, i) == s[..n];
    } else {
      SumWithout(s[..n], i, f);
      assert Without(s, i) == Without(s[..n], i) + [s[n]];
      SumSnoc(Without(s[..n], i), s[n], f);
    }
  }

  /** Each number at most once. */
  predicate EachOnce(listed: seq<nat>) {
    forall i, j :: 0 <= i < j < |listed| ==> listed[i] != listed[j]
  }

  predicate AllBelow(listed: seq<nat>, n: nat) {
    forall i :: 0 <= i < |listed| ==> listed[i] < n
  }

  /** Taking the greatest number out of a list of distinct ones. */
  lemma WithoutGreatest(listed: seq<nat>, i: nat, n: nat)
    requires i < |listed| && listed[i] == n && EachOnce(listed) && AllBelow(listed, n + 1)
    ensures EachOnce(Without(listed, i)) && AllBelow(Without(listed, i), n)
    ensures forall k :: k in Without(listed, i) <==> k in listed && k != n
  {
    var rest := Without(listed, i);
    assert forall j :: 0 <= j < |rest| ==> rest[j] == listed[if j < i then j else j + 1];
    forall k | k in listed && k != n
      ensures k in rest
    {
      var j :| 0 <= j < |listed| && listed[j] == k;
      assert rest[if j < i then j else j - 1] == k;
    }
  }

  lemma NotTheGreatest(listed: seq<nat>, n: nat)
    requires AllBelow(listed, n + 1) && n !in listed
    ensures AllBelow(listed, n)
  {
    forall i | 0 <= i < |listed|
      ensures listed[i] < n
    {
      assert listed[i] in listed;
    }
  }

  /** Adding up over positions listed in any order is adding up over the sequence, when the rest of it adds nothing. */
  lemma {:induction false} SumListed<T>(s: seq<T>, listed: seq<nat>, h: nat -> int, g: T -> int)
    requires EachOnce(listed) && AllBelow(listed, |s|)
    requires forall k :: 0 <= k < |s| ==> if k in listed then h(k) == g(s[k]) else g(s[k]) == 0
    ensures SumBy(listed, h) == SumBy(s, g)
    decreases |s|
  {
    if |s| > 0 {
      var n := |s| - 1;
      if n in listed {
        var i :| 0 <= i < |listed| && listed[i] == n;
        WithoutGreatest(listed, i, n);
        SumListed(s[..n], Without(listed, i), h, g);
        SumWithout(listed, i, h);
      } else {
        NotTheGreatest(listed, n);
        SumListed(s[..n], listed, h, g);
      }
    }
  }
}
