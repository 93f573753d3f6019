/** Facts about sequences of any element type: sums, folds and induction along them. */
module Sequences {

  lemma ConcatLast<T>(a: seq<T>, b: seq<T>)
    requires b != []
    ensures (a + b)[..|a + b| - 1] == a + b[..|b| - 1] && (a + b)[|a + b| - 1] == b[|b| - 1]
  {
  }

  lemma TakeOneMore<T>(s: seq<T>, i: nat)
    requires i < |s|
    ensures s[..i + 1] == s[..i] + [s[i]] && s[..i + 1][..i] == s[..i]
  {
  }

  lemma TakeAll<T>(s: seq<T>)
    ensures s[..|s|] == s
  {
  }

  lemma ConcatNothing<T>(a: seq<T>)
    ensures a + [] == a
  {
  }

  /** Induction over the numbers up to n. */
  lemma {:induction false} UpTo(at: nat -> bool, n: nat)
    requires at(0) && forall k: nat | k < n :: at(k) ==> at(k + 1)
    ensures at(n)
    decreases n
  {
    if n > 0 {
      var m: nat := n - 1;
      UpTo(at, m);
    }
  }

  /** What holds of a sequence as soon as one of its elements, after those before it, makes it hold. */
  lemma {:induction false} SomePrefix<T>(all: seq<T> -> bool, one: (seq<T>, T) -> bool, s: seq<T>)
    requires !all([]) && forall front, last :: all(front + [last]) <==> all(front) || one(front, last)
    ensures all(s) <==> exists i | 0 <= i < |s| :: one(s[..i], s[i])
    decreases |s|
  {
    if s != [] {
      var front, last := s[..|s| - 1], s[|s| - 1];
      SomePrefix(all, one, front);
      assert s == front + [last];
      assert forall i | 0 <= i < |front| :: s[i] == front[i] && s[..i] == front[..i];
    }
  }

  /** What holds from the number on at which one makes it hold. */
  lemma {:induction false} FromOneOn(all: nat -> bool, one: nat -> bool, n: nat)
    requires forall k: nat | k < n :: all(k + 1) <==> all(k) || one(k)
    ensures all(n) <==> all(0) || exists i: nat | i < n :: one(i)
    decreases n
  {
    if n > 0 {
      var m: nat := n - 1;
      FromOneOn(all, one, m);
      assert all(m + 1) <==> all(m) || one(m);
    }
  }

  /** The state after the first n elements. */
  function Fold<S, T>(s: S, items: seq<T>, n: nat, next: (S, T) -> S): S
    requires n <= |items|
  {
    if n == 0 then s else next(Fold(s, items, n - 1, next), items[n - 1])
  }

  lemma FoldNext<S, T>(s: S, items: seq<T>, n: nat, next: (S, T) -> S)
    requires n < |items|
    ensures Fold(s, items, n + 1, next) == next(Fold(s, items, n, next), items[n])
  {
  }

  /** A relation kept by every step relates the states of two folds. */
  lemma {:induction false} FoldsRelated<S, R, T>(
    related: (S, R) -> bool, s: S, r: R, items: seq<T>, n: nat, f: (S, T) -> S, g: (R, T) -> R
  )
    requires n <= |items| && related(s, r)
    requires forall a, b, x | related(a, b) :: related(f(a, x), g(b, x))
    ensures related(Fold(s, items, n, f), Fold(r, items, n, g))
  {
    if n > 0 {
      FoldsRelated(related, s, r, items, n - 1, f, g);
    }
  }

  function Sum<T>(s: seq<T>, f: T -> nat): nat {
    if s == [] then 0 else Sum(s[..|s| - 1], f) + f(s[|s| - 1])
  }

  lemma {:induction false} SumConcat<T>(a: seq<T>, b: seq<T>, f: T -> nat)
    ensures Sum(a + b, f) == Sum(a, f) + Sum(b, f)
  {
    if b == [] {
      ConcatNothing(a);
    } else {
      ConcatLast(a, b);
      SumConcat(a, b[..|b| - 1], f);
    }
  }

  lemma TakeOut<T>(t: seq<T>, x: T) returns (a: seq<T>, b: seq<T>)
    requires x in t
    ensures t == a + [x] + b && multiset(t) == multiset(a + b) + multiset{x}
  {
    var i :| 0 <= i < |t| && t[i] == x;
    a, b := t[..i], t[i + 1..];
    assert t == a + [x] + b;
  }

  lemma SumTakenOut<T>(t: seq<T>, x: T, f: T -> nat) returns (rest: seq<T>)
    requires x in t
    ensures multiset(t) == multiset(rest) + multiset{x} && Sum(t, f) == Sum(rest, f) + f(x)
  {
    var a, b := TakeOut(t, x);
    rest := a + b;
    SumConcat(a, b, f);
    SumConcat(a + [x], b, f);
    SumConcat(a, [x], f);
  }

  lemma {:induction false} SumPermuted<T>(s: seq<T>, t: seq<T>, f: T -> nat)
    requires multiset(s) == multiset(t)
    ensures Sum(s, f) == Sum(t, f)
  {
    if s == [] {
      assert |multiset(t)| == 0;
    } else {
      var front, last := s[..|s| - 1], s[|s| - 1];
      assert s == front + [last];
      assert last in multiset(s);
      var rest := SumTakenOut(t, last, f);
      assert multiset(s) == multiset(front) + multiset{last};
      assert multiset(front) == multiset(s) - multiset{last} == multiset(t) - multiset{last} == multiset(rest);
      SumPermuted(front, rest, f);
    }
  }

  lemma {:induction false} SumOfBoth<T>(s: seq<T>, f: T -> nat, g: T -> nat, h: T -> nat)
    requires forall x :: f(x) + g(x) == h(x)
    ensures Sum(s, f) + Sum(s, g) == Sum(s, h)
  {
    if s != [] {
      SumOfBoth(s[..|s| - 1], f, g, h);
    }
  }

  lemma {:induction false} SameSums<T>(s: seq<T>, f: T -> nat, g: T -> nat)
    requires forall x :: f(x) == g(x)
    ensures Sum(s, f) == Sum(s, g)
  {
    if s != [] {
      SameSums(s[..|s| - 1], f, g);
    }
  }

  lemma SameMembers<T>(s: seq<T>, t: seq<T>)
    requires multiset(s) == multiset(t)
    ensures forall x :: x in s <==> x in t
  {
    forall x ensures x in s <==> x in t {
      assert x in s <==> x in multiset(s);
      assert x in t <==> x in multiset(t);
    }
  }

  // ---------- picking elements ----------

  function Filter<T>(s: seq<T>, wanted: T -> bool): (kept: seq<T>)
    ensures (forall x | x in kept :: x in s && wanted(x)) && forall x | x in s && wanted(x) :: x in kept
  {
    if s == [] then []
    else
      assert s == [s[0]] + s[1..];
      (if wanted(s[0]) then [s[0]] else []) + Filter(s[1..], wanted)
  }

  function Map<T, R>(s: seq<T>, f: T -> R): (r: seq<R>)
    ensures |r| == |s| && forall i | 0 <= i < |s| :: r[i] == f(s[i])
  {
    seq(|s|, i requires 0 <= i < |s| => f(s[i]))
  }

  lemma {:induction false} FilterAppend<T>(s: seq<T>, x: T, wanted: T -> bool)
    ensures Filter(s + [x], wanted) == Filter(s, wanted) + if wanted(x) then [x] else []
    decreases |s|
  {
    if s == [] {
      assert s + [x] == [x];
      assert [x][1..] == [];
    } else {
      assert (s + [x])[1..] == s[1..] + [x];
      FilterAppend(s[1..], x, wanted);
    }
  }

  lemma FilterCons<T>(s: seq<T>, wanted: T -> bool)
    requires s != []
    ensures Filter(s, wanted) == (if wanted(s[0]) then [s[0]] else []) + Filter(s[1..], wanted)
  {
  }

  lemma MapConcat<T, R>(a: seq<T>, b: seq<T>, f: T -> R)
    ensures Map(a + b, f) == Map(a, f) + Map(b, f)
  {
  }

  lemma MapOne<T, R>(x: T, f: T -> R)
    ensures Map([x], f) == [f(x)] && Map([], f) == []
  {
  }

  /** All the elements that f takes from those of s, in order. */
  function Flat<T, R>(s: seq<T>, f: T -> seq<R>): seq<R> {
    if s == [] then [] else Flat(s[..|s| - 1], f) + f(s[|s| - 1])
  }

  lemma FlatNext<T, R>(front: seq<T>, last: T, f: T -> seq<R>)
    ensures Flat(front + [last], f) == Flat(front, f) + f(last)
  {
    assert (front + [last])[..|front|] == front;
  }
}
