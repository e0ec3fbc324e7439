/** `sort.Strings`: names in increasing order of their code points. */
module Sorting {
  predicate Before(a: string, b: string) {
    if |b| == 0 then false
    else if |a| == 0 then true
    else if a[0] == b[0] then Before(a[1..], b[1..])
    else a[0] < b[0]
  }

  /** They agree up to some place where the first ends or has the smaller character. */
  predicate FirstDiffer(a: string, b: string, n: nat) {
    n <= |a| && n < |b| && a[..n] == b[..n] && (n == |a| || a[n] < b[n])
  }

  lemma {:induction false} BeforeIff(a: string, b: string)
    ensures Before(a, b) <==> exists n: nat :: FirstDiffer(a, b, n)
  {
    if |a| > 0 && |b| > 0 && a[0] == b[0] {
      BeforeIff(a[1..], b[1..]);
      if n: nat :| FirstDiffer(a[1..], b[1..], n) { SamePrefix(a, b, n); }
      if n: nat :| FirstDiffer(a, b, n) {
        SameHead(a, b, n);
        assert a[..n][1..] == a[1..][..n - 1] && b[..n][1..] == b[1..][..n - 1];
        assert FirstDiffer(a[1..], b[1..], n - 1);
      }
    } else if |a| > 0 && |b| > 0 {
      if n: nat :| FirstDiffer(a, b, n) { SameHead(a, b, n); }
      if a[0] < b[0] { assert FirstDiffer(a, b, 0); }
    } else if |b| > 0 {
      assert FirstDiffer(a, b, 0);
    }
  }

  lemma SameHead(a: string, b: string, n: nat)
    requires |a| > 0 && FirstDiffer(a, b, n)
    ensures n == 0 ==> a[0] < b[0]
    ensures n > 0 ==> a[0] == b[0]
  {
    assert n > 0 ==> a[..n][0] == b[..n][0];
  }

  lemma SamePrefix(a: string, b: string, n: nat)
    requires |a| > 0 && |b| > 0 && a[0] == b[0] && FirstDiffer(a[1..], b[1..], n)
    ensures FirstDiffer(a, b, n + 1)
  {
    assert a[..n + 1] == [a[0]] + a[1..][..n] && b[..n + 1] == [b[0]] + b[1..][..n];
  }

  lemma {:induction false} BeforeOrders(a: string, b: string, c: string)
    ensures !Before(a, a)
    ensures Before(a, b) && Before(b, c) ==> Before(a, c)
    ensures a != b ==> Before(a, b) || Before(b, a)
  {
    if |a| > 0 {
      BeforeOrders(a[1..], if |b| > 0 then b[1..] else "", if |c| > 0 then c[1..] else "");
      if |b| > 0 && a[0] == b[0] && a[1..] == b[1..] {
        assert a == [a[0]] + a[1..] && b == [b[0]] + b[1..];
      }
    }
  }

  ghost predicate Sorted(names: seq<string>) {
    forall i, j | 0 <= i < j < |names| :: Before(names[i], names[j])
  }

  /** The sorted order of a set of names is unique, so an iteration over it is determined by the set. */
  lemma {:induction false} SortedUnique(x: seq<string>, y: seq<string>)
    requires Sorted(x) && Sorted(y) && (forall n: string :: n in x <==> n in y)
    ensures x == y
  {
    assert |y| > 0 ==> y[0] in x;
    if |x| > 0 {
      assert x[0] in y;
      assert |y| > 0 && y[0] in x;
      HeadIsLeast(x, y);
      assert x[0] == y[0];
      forall n: string ensures n in x[1..] <==> n in y[1..] {
        TailMembers(x, n);
        TailMembers(y, n);
      }
      SortedUnique(x[1..], y[1..]);
      assert x == [x[0]] + x[1..] && y == [y[0]] + y[1..];
    }
  }

  lemma TailMembers(x: seq<string>, n: string)
    requires Sorted(x) && |x| > 0
    ensures n in x[1..] <==> n in x && n != x[0]
  {
    if n in x[1..] {
      var i :| 0 <= i < |x[1..]| && x[1..][i] == n;
      assert Before(x[0], x[i + 1]);
      BeforeOrders(n, n, n);
    }
    if n in x && n != x[0] {
      var i :| 0 <= i < |x| && x[i] == n;
      assert x[1..][i - 1] == n;
    }
  }

  lemma HeadIsLeast(x: seq<string>, y: seq<string>)
    requires Sorted(x) && Sorted(y) && |x| > 0 && |y| > 0 && x[0] in y && y[0] in x
    ensures x[0] == y[0]
  {
    var i :| 0 <= i < |y| && y[i] == x[0];
    var j :| 0 <= j < |x| && x[j] == y[0];
    if i > 0 && j > 0 {
      assert Before(y[0], y[i]) && Before(x[0], x[j]);
      BeforeOrders(x[0], y[0], x[0]);
    }
  }

  method SortNames(s: set<string>) returns (names: seq<string>)
    ensures Sorted(names) && forall n: string :: n in names <==> n in s
  {
    names := [];
    var rest := s;
    while rest != {}
      invariant Sorted(names) && rest <= s
      invariant forall n: string :: n in names <==> n in s && n !in rest
      decreases |rest|
    {
      var n :| n in rest;
      names := Insert(names, n);
      rest := rest - {n};
    }
  }

  method Insert(names: seq<string>, n: string) returns (r: seq<string>)
    requires Sorted(names) && n !in names
    ensures Sorted(r) && forall m: string :: m in r <==> m in names || m == n
  {
    var p := 0;
    while p < |names| && Before(names[p], n)
      invariant 0 <= p <= |names| && forall i | 0 <= i < p :: Before(names[i], n)
    {
      p := p + 1;
    }
    r := names[..p] + [n] + names[p..];
    InsertedHolds(names, p, n);
    forall i | p <= i < |names| ensures Before(n, names[i]) {
      assert names[p] in names;
      BeforeOrders(n, names[p], names[i]);
    }
  }

  lemma InsertedHolds(names: seq<string>, p: nat, n: string)
    requires p <= |names|
    ensures forall m: string :: m in names[..p] + [n] + names[p..] <==> m in names || m == n
  {
    forall m: string ensures m in names[..p] + [n] + names[p..] <==> m in names || m == n {
      assert names == names[..p] + names[p..];
    }
  }
}
