/** Vocabulary shared by every component of the model. */
module Common {

  datatype Option<+T> = None | Some(value: T)

  /** A decision that either goes through or names why it was refused. */
  datatype Outcome<+T, +E> = Done(value: T) | Refused(error: E)

  /** Instants are integer milliseconds; the source keeps them as ISO strings of one fixed format. */
  type Instant = int
  const MINUTE: int := 60_000

  function Min(a: int, b: int): int { if a <= b then a else b }

  function Last<T>(s: seq<T>): T
    requires s != []
  {
    s[|s| - 1]
  }

  /** How many elements at the end of `s` equal its last one. */
  function TrailingRun<T(==)>(s: seq<T>): nat
  {
    if |s| <= 1 then |s|
    else if Last(s) == s[|s| - 2] then TrailingRun(s[..|s| - 1]) + 1
    else 1
  }

  /** The trailing run is the longest constant suffix: all of it equals the last element, and one more does not. */
  lemma {:induction false} TrailingRunIsLongestConstantSuffix<T>(s: seq<T>)
    requires s != []
    ensures 1 <= TrailingRun(s) <= |s|
    ensures forall i :: |s| - TrailingRun(s) <= i < |s| ==> s[i] == Last(s)
    ensures TrailingRun(s) < |s| ==> s[|s| - TrailingRun(s) - 1] != Last(s)
  {
    if |s| > 1 {
      TrailingRunIsLongestConstantSuffix(s[..|s| - 1]);
    }
  }

  /** The concatenation of `f` over `s`, in order. */
  function FlatMap<A, B>(f: A -> seq<B>, s: seq<A>): seq<B>
  {
    if s == [] then [] else FlatMap(f, s[..|s| - 1]) + f(Last(s))
  }

  function Count<A>(p: A -> bool, s: seq<A>): nat
  {
    if s == [] then 0 else Count(p, s[..|s| - 1]) + if p(Last(s)) then 1 else 0
  }

  /** One more element in a growing prefix. */
  lemma NextElement<A, B>(f: A -> seq<B>, s: seq<A>, i: nat)
    requires i < |s|
    ensures FlatMap(f, s[..i + 1]) == FlatMap(f, s[..i]) + f(s[i])
  {
    assert s[..i + 1][..i] == s[..i];
  }

  lemma FlatMapAppend<A, B>(f: A -> seq<B>, s: seq<A>, x: A)
    ensures FlatMap(f, s + [x]) == FlatMap(f, s) + f(x)
  {
    assert (s + [x])[..|s|] == s;
  }

  lemma {:induction false} FlatMapConcat<A, B>(f: A -> seq<B>, a: seq<A>, b: seq<A>)
    ensures FlatMap(f, a + b) == FlatMap(f, a) + FlatMap(f, b)
  {
    if b == [] {
      assert a + b == a;
    } else {
      var init := b[..|b| - 1];
      FlatMapConcat(f, a, init);
      assert (a + b)[..|a + b| - 1] == a + init && Last(a + b) == Last(b);
      assert FlatMap(f, a + b) == FlatMap(f, a + init) + f(Last(b));
      assert FlatMap(f, b) == FlatMap(f, init) + f(Last(b));
    }
  }

  lemma NextCount<A>(p: A -> bool, s: seq<A>, i: nat)
    requires i < |s|
    ensures Count(p, s[..i + 1]) == Count(p, s[..i]) + if p(s[i]) then 1 else 0
  {
    assert s[..i + 1][..i] == s[..i];
  }

  lemma {:induction false} FlatMapMember<A, B>(f: A -> seq<B>, s: seq<A>, x: B)
    ensures x in FlatMap(f, s) <==> exists i :: 0 <= i < |s| && x in f(s[i])
  {
    if s != [] {
      var init := s[..|s| - 1];
      FlatMapMember(f, init, x);
      assert forall i :: 0 <= i < |init| ==> init[i] == s[i];
    }
  }

  lemma FlatMapSource<A, B>(f: A -> seq<B>, s: seq<A>, x: B) returns (m: A)
    requires x in FlatMap(f, s)
    ensures m in s && x in f(m)
  {
    FlatMapMember(f, s, x);
    var i :| 0 <= i < |s| && x in f(s[i]);
    m := s[i];
  }

  /** When every element is kept or dropped as it is, an element stays exactly when it is kept. */
  lemma KeptMember<A>(f: A -> seq<A>, s: seq<A>, m: A)
    requires m in s && forall i :: 0 <= i < |s| ==> f(s[i]) == [] || f(s[i]) == [s[i]]
    ensures m in FlatMap(f, s) <==> f(m) != []
  {
    FlatMapMember(f, s, m);
    var k :| 0 <= k < |s| && s[k] == m;
    assert f(s[k]) != [] ==> m in f(s[k]);
  }

  lemma {:induction false} FlatMapEmpty<A, B>(f: A -> seq<B>, s: seq<A>)
    ensures FlatMap(f, s) == [] <==> forall i :: 0 <= i < |s| ==> f(s[i]) == []
  {
    if s != [] {
      var init := s[..|s| - 1];
      FlatMapEmpty(f, init);
      assert forall i :: 0 <= i < |init| ==> init[i] == s[i];
    }
  }

  /** The elements of `s` that satisfy `p`, in order. */
  function Filter<A(!new)>(s: seq<A>, p: A -> bool): (r: seq<A>)
    ensures forall x :: x in r <==> x in s && p(x)
  {
    if s == [] then []
    else if p(s[0]) then [s[0]] + Filter(s[1..], p)
    else Filter(s[1..], p)
  }

  lemma {:induction false} FilterAgrees<A(!new)>(s: seq<A>, p: A -> bool, q: A -> bool)
    requires forall x :: x in s ==> p(x) == q(x)
    ensures Filter(s, p) == Filter(s, q)
  {
    if s != [] { FilterAgrees(s[1..], p, q); }
  }

  lemma {:induction false} FilterConcat<A(!new)>(a: seq<A>, b: seq<A>, p: A -> bool)
    ensures Filter(a + b, p) == Filter(a, p) + Filter(b, p)
  {
    if a == [] {
      assert a + b == b;
    } else {
      assert (a + b)[1..] == a[1..] + b;
      FilterConcat(a[1..], b, p);
    }
  }

  /** Two filters that agree position by position keep the same elements. */
  lemma {:induction false} FilterPointwise<A(!new)>(a: seq<A>, b: seq<A>, p: A -> bool, q: A -> bool)
    requires |a| == |b|
    requires forall i :: 0 <= i < |a| ==> p(a[i]) == q(b[i]) && (p(a[i]) ==> a[i] == b[i])
    ensures Filter(a, p) == Filter(b, q)
  {
    if a != [] {
      assert forall i :: 0 <= i < |a[1..]| ==> a[1..][i] == a[i + 1] && b[1..][i] == b[i + 1];
      FilterPointwise(a[1..], b[1..], p, q);
    }
  }

  lemma {:induction false} FlatMapPointwise<A, B>(f: A -> seq<B>, g: A -> seq<B>, a: seq<A>, b: seq<A>)
    requires |a| == |b|
    requires forall i :: 0 <= i < |a| ==> f(a[i]) == g(b[i])
    ensures FlatMap(f, a) == FlatMap(g, b)
  {
    if a != [] {
      FlatMapPointwise(f, g, a[..|a| - 1], b[..|b| - 1]);
    }
  }

  function Sum<A>(f: A -> nat, s: seq<A>): nat
  {
    if s == [] then 0 else Sum(f, s[..|s| - 1]) + f(Last(s))
  }

  lemma {:induction false} SumConcat<A>(f: A -> nat, a: seq<A>, b: seq<A>)
    ensures Sum(f, a + b) == Sum(f, a) + Sum(f, b)
  {
    if b == [] {
      assert a + b == a;
    } else {
      var init := b[..|b| - 1];
      SumConcat(f, a, init);
      assert (a + b)[..|a + b| - 1] == a + init && Last(a + b) == Last(b);
      assert Sum(f, a + b) == Sum(f, a + init) + f(Last(b));
    }
  }

  lemma RemoveOne<T>(s: seq<T>, i: nat)
    requires i < |s|
    ensures multiset(s[..i] + s[i + 1..]) == multiset(s) - multiset{s[i]}
  {
    assert s == s[..i] + [s[i]] + s[i + 1..];
  }

  lemma SumOneMore<A>(f: A -> nat, s: seq<A>, x: A)
    ensures Sum(f, s + [x]) == Sum(f, s) + f(x)
  {
    assert (s + [x])[..|s|] == s;
  }

  lemma SumInserts<A>(f: A -> nat, a: seq<A>, x: A, b: seq<A>)
    ensures Sum(f, (a + [x]) + b) == Sum(f, a + b) + f(x)
  {
    SumConcat(f, a + [x], b);
    SumConcat(f, a, b);
    SumOneMore(f, a, x);
  }

  lemma SplitAt<A>(s: seq<A>, i: nat)
    requires i < |s|
    ensures s == (s[..i] + [s[i]]) + s[i + 1..]
  {
  }

  lemma SumRemovesOne<A>(f: A -> nat, s: seq<A>, i: nat)
    requires i < |s|
    ensures Sum(f, s) == Sum(f, s[..i] + s[i + 1..]) + f(s[i])
  {
    SplitAt(s, i);
    SumInserts(f, s[..i], s[i], s[i + 1..]);
  }

  /** A sum does not depend on the order of its terms. */
  lemma {:induction false} SumForgetsOrder<A>(f: A -> nat, a: seq<A>, b: seq<A>)
    requires multiset(a) == multiset(b)
    ensures Sum(f, a) == Sum(f, b)
  {
    if a == [] {
      assert |b| == |multiset(b)|;
    } else {
      var n := |a| - 1;
      assert a[n] in multiset(a);
      var i :| 0 <= i < |b| && b[i] == a[n];
      RemoveOne(a, n);
      RemoveOne(b, i);
      SumForgetsOrder(f, a[..n] + a[n + 1..], b[..i] + b[i + 1..]);
      SumRemovesOne(f, a, n);
      SumRemovesOne(f, b, i);
    }
  }

  lemma {:induction false} SumPointwise<A>(f: A -> nat, g: A -> nat, s: seq<A>)
    requires forall x :: x in s ==> f(x) == g(x)
    ensures Sum(f, s) == Sum(g, s)
  {
    if s != [] { SumPointwise(f, g, s[..|s| - 1]); }
  }

  predicate IsDigit(c: char) { '0' <= c <= '9' }

  /** The number that decimal digits write. */
  function ValueOf(s: string): nat
    requires forall i :: 0 <= i < |s| ==> IsDigit(s[i])
  {
    if s == [] then 0
    else
      assert IsDigit(s[|s| - 1]);
      ValueOf(s[..|s| - 1]) * 10 + (Last(s) as int - '0' as int)
  }
}
