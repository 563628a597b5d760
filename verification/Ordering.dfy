/** Code-unit ordering of strings, sorted lists, and the order in which an object keeps its names. */
module Ordering {
  import opened Common

  /** Where UTF-16 puts a character: those written as a surrogate pair come before the last ones of a single unit. */
  function Place(c: char): int
  {
    if 0xE000 <= c as int < 0x1_0000 then c as int + 0x11_0000 else c as int
  }

  predicate Leq(a: string, b: string)
    decreases |a|
  {
    a == [] || (b != [] && (Place(a[0]) < Place(b[0]) || (a[0] == b[0] && Leq(a[1..], b[1..]))))
  }

  lemma {:induction false} LeqTotal(a: string, b: string)
    ensures Leq(a, b) || Leq(b, a)
    decreases |a|
  {
    if a != [] && b != [] { LeqTotal(a[1..], b[1..]); }
  }

  lemma LeqReflexive(a: string)
    ensures Leq(a, a)
  {
    LeqTotal(a, a);
  }

  lemma {:induction false} LeqAntisymmetric(a: string, b: string)
    requires Leq(a, b) && Leq(b, a)
    ensures a == b
    decreases |a|
  {
    if a != [] {
      LeqAntisymmetric(a[1..], b[1..]);
      assert a == [a[0]] + a[1..] && b == [b[0]] + b[1..];
    }
  }

  lemma {:induction false} LeqTransitive(a: string, b: string, c: string)
    requires Leq(a, b) && Leq(b, c)
    ensures Leq(a, c)
    decreases |a|
  {
    if a != [] && a[0] == b[0] && b[0] == c[0] { LeqTransitive(a[1..], b[1..], c[1..]); }
  }

  predicate Sorted(s: seq<string>)
  {
    forall i, j :: 0 <= i < j < |s| ==> Leq(s[i], s[j])
  }

  predicate Distinct<T(==)>(s: seq<T>)
  {
    forall i, j :: 0 <= i < j < |s| ==> s[i] != s[j]
  }

  lemma HeadIsLeast(s: seq<string>, x: string)
    requires Sorted(s) && x in s
    ensures Leq(s[0], x)
  {
    var i :| 0 <= i < |s| && s[i] == x;
    LeqReflexive(x);
  }

  function Insert(x: string, s: seq<string>): seq<string>
  {
    if s == [] then [x]
    else if Leq(x, s[0]) then [x] + s
    else [s[0]] + Insert(x, s[1..])
  }

  function Sort(s: seq<string>): seq<string>
  {
    if s == [] then [] else Insert(s[0], Sort(s[1..]))
  }

  lemma {:induction false} InsertKeepsMultiset(x: string, s: seq<string>)
    ensures multiset(Insert(x, s)) == multiset(s) + multiset{x}
  {
    if s != [] {
      assert s == [s[0]] + s[1..];
      InsertKeepsMultiset(x, s[1..]);
    }
  }

  lemma SortedCons(x: string, s: seq<string>)
    requires Sorted(s)
    requires forall y :: y in s ==> Leq(x, y)
    ensures Sorted([x] + s)
  {
  }

  lemma {:induction false} InsertSorts(x: string, s: seq<string>)
    requires Sorted(s)
    ensures Sorted(Insert(x, s))
  {
    if s != [] {
      if Leq(x, s[0]) {
        forall y | y in s ensures Leq(x, y) { HeadIsLeast(s, y); LeqTransitive(x, s[0], y); }
        SortedCons(x, s);
      } else {
        InsertSorts(x, s[1..]);
        InsertKeepsMultiset(x, s[1..]);
        LeqTotal(x, s[0]);
        var rest := Insert(x, s[1..]);
        forall y | y in rest ensures Leq(s[0], y) {
          assert y in multiset(rest);
          assert y == x || y in s[1..];
        }
        SortedCons(s[0], rest);
      }
    }
  }

  lemma {:induction false} SortSorts(s: seq<string>)
    ensures Sorted(Sort(s))
    ensures multiset(Sort(s)) == multiset(s)
  {
    if s != [] {
      assert s == [s[0]] + s[1..];
      SortSorts(s[1..]);
      InsertSorts(s[0], Sort(s[1..]));
      InsertKeepsMultiset(s[0], Sort(s[1..]));
    }
  }

  lemma TailOf(s: seq<string>)
    requires s != []
    ensures s == [s[0]] + s[1..]
    ensures multiset(s[1..]) == multiset(s) - multiset{s[0]}
  {
    assert s == [s[0]] + s[1..];
  }

  predicate SortedBy(le: (string, string) -> bool, s: seq<string>)
  {
    forall i, j :: 0 <= i < j < |s| ==> le(s[i], s[j])
  }

  lemma HeadComesFirst(le: (string, string) -> bool, s: seq<string>, x: string)
    requires SortedBy(le, s) && x in multiset(s)
    ensures s[0] == x || le(s[0], x)
  {
    var i :| 0 <= i < |s| && s[i] == x;
  }

  ghost predicate Antisymmetric(le: (string, string) -> bool)
  {
    forall x, y :: le(x, y) && le(y, x) ==> x == y
  }

  lemma SameHead(le: (string, string) -> bool, a: seq<string>, b: seq<string>)
    requires SortedBy(le, a) && SortedBy(le, b) && a != [] && multiset(a) == multiset(b) && Antisymmetric(le)
    ensures b != [] && a[0] == b[0]
  {
    assert |b| == |multiset(b)| && |a| == |multiset(a)|;
    assert a[0] in multiset(b) && b[0] in multiset(a);
    HeadComesFirst(le, a, b[0]);
    HeadComesFirst(le, b, a[0]);
  }

  /** A list in order is determined by the strings it holds. */
  lemma {:induction false} OrderIsCanonical(le: (string, string) -> bool, a: seq<string>, b: seq<string>)
    requires SortedBy(le, a) && SortedBy(le, b) && multiset(a) == multiset(b)
    requires Antisymmetric(le)
    ensures a == b
  {
    if a == [] {
      assert |b| == |multiset(b)|;
    } else {
      SameHead(le, a, b);
      TailOf(a);
      TailOf(b);
      OrderIsCanonical(le, a[1..], b[1..]);
    }
  }

  lemma SortedIsCanonical(a: seq<string>, b: seq<string>)
    requires Sorted(a) && Sorted(b)
    requires multiset(a) == multiset(b)
    ensures a == b
  {
    forall x, y | Leq(x, y) && Leq(y, x) ensures x == y { LeqAntisymmetric(x, y); }
    OrderIsCanonical(Leq, a, b);
  }

  lemma SortForgetsOrder(a: seq<string>, b: seq<string>)
    requires multiset(a) == multiset(b)
    ensures Sort(a) == Sort(b)
  {
    SortSorts(a);
    SortSorts(b);
    SortedIsCanonical(Sort(a), Sort(b));
  }

  lemma SortKeepsElements(s: seq<string>)
    ensures |Sort(s)| == |s|
    ensures forall x :: x in Sort(s) <==> x in s
    ensures Distinct(s) ==> Distinct(Sort(s))
  {
    SortSorts(s);
    SameMultisetSameElements(s, Sort(s));
  }

  lemma SameMultisetSameElements(s: seq<string>, r: seq<string>)
    requires multiset(s) == multiset(r)
    ensures |r| == |s|
    ensures forall x :: x in r <==> x in s
    ensures Distinct(s) ==> Distinct(r)
  {
    assert |multiset(r)| == |multiset(s)|;
    forall x ensures x in r <==> x in s {
      assert x in r <==> x in multiset(r);
      assert x in s <==> x in multiset(s);
    }
    if Distinct(s) {
      forall i, j | 0 <= i < j < |r| ensures r[i] != r[j] {
        if r[i] == r[j] {
          MultiplicityOfPair(r, i, j);
          DistinctMultiplicity(s, r[i]);
        }
      }
    }
  }

  lemma MultiplicityOfPair(s: seq<string>, i: nat, j: nat)
    requires i < j < |s| && s[i] == s[j]
    ensures multiset(s)[s[i]] >= 2
  {
    assert s == s[..i] + [s[i]] + s[i + 1..j] + [s[j]] + s[j + 1..];
  }

  lemma {:induction false} DistinctMultiplicity<T>(s: seq<T>, x: T)
    requires Distinct(s)
    ensures multiset(s)[x] <= 1
  {
    if s != [] {
      assert s == [s[0]] + s[1..];
      DistinctMultiplicity(s[1..], x);
      if x == s[0] { assert x !in s[1..]; assert x !in multiset(s[1..]); }
    }
  }

  lemma SameElementsSameMultiset<T>(a: seq<T>, b: seq<T>)
    requires Distinct(a) && Distinct(b)
    requires forall x :: x in a <==> x in b
    ensures multiset(a) == multiset(b)
  {
    forall x ensures multiset(a)[x] == multiset(b)[x] {
      DistinctMultiplicity(a, x);
      DistinctMultiplicity(b, x);
      assert x in multiset(a) <==> x in a;
      assert x in multiset(b) <==> x in b;
    }
  }

  lemma DistinctConcat<T>(a: seq<T>, b: seq<T>)
    requires Distinct(a) && Distinct(b)
    requires forall x :: x in a ==> x !in b
    ensures Distinct(a + b)
  {
    forall i, j | 0 <= i < j < |a + b| ensures (a + b)[i] != (a + b)[j] {
      if i < |a| <= j {
        assert a[i] in a && b[j - |a|] in b;
      }
    }
  }

  // ---- the order in which an object keeps its names

  /** Array indices end below this number. */
  const MAX_INDEX := 0xFFFF_FFFF

  predicate IsNumeral(s: string)
  {
    s != [] && (forall i :: 0 <= i < |s| ==> IsDigit(s[i])) && (s[0] != '0' || |s| == 1)
  }

  /** The decimal text of an array index: an object keeps such names first. */
  predicate IsIndex(s: string) { IsNumeral(s) && ValueOf(s) < MAX_INDEX }

  function AddIndex(x: string, names: seq<string>): seq<string>
    requires IsIndex(x)
  {
    if names == [] then [x]
    else if IsIndex(names[0]) && ValueOf(names[0]) <= ValueOf(x) then [names[0]] + AddIndex(x, names[1..])
    else [x] + names
  }

  /** The names of an object made by adding them one after the other. */
  function Created(names: seq<string>): seq<string>
  {
    if names == [] then []
    else
      var rest := Created(names[..|names| - 1]);
      if IsIndex(Last(names)) then AddIndex(Last(names), rest) else rest + [Last(names)]
  }

  function PropertyOrder(names: seq<string>): seq<string> { Created(Sort(names)) }

  lemma {:induction false} AddIndexKeepsMultiset(x: string, names: seq<string>)
    requires IsIndex(x)
    ensures multiset(AddIndex(x, names)) == multiset(names) + multiset{x}
  {
    if names != [] {
      assert names == [names[0]] + names[1..];
      AddIndexKeepsMultiset(x, names[1..]);
    }
  }

  lemma {:induction false} CreatedKeepsMultiset(names: seq<string>)
    ensures multiset(Created(names)) == multiset(names)
  {
    if names != [] {
      var init := names[..|names| - 1];
      assert names == init + [Last(names)];
      CreatedKeepsMultiset(init);
      if IsIndex(Last(names)) { AddIndexKeepsMultiset(Last(names), Created(init)); }
    }
  }

  lemma PropertyOrderForgetsOrder(a: seq<string>, b: seq<string>)
    requires multiset(a) == multiset(b)
    ensures PropertyOrder(a) == PropertyOrder(b)
  {
    SortForgetsOrder(a, b);
  }

  lemma PropertyOrderKeepsElements(s: seq<string>)
    ensures |PropertyOrder(s)| == |s|
    ensures forall x :: x in PropertyOrder(s) <==> x in s
    ensures Distinct(s) ==> Distinct(PropertyOrder(s))
  {
    SortSorts(s);
    CreatedKeepsMultiset(Sort(s));
    SameMultisetSameElements(s, PropertyOrder(s));
  }

  /** Array indices first, by their number, then all other names by their code units. */
  predicate Precedes(x: string, y: string)
  {
    if IsIndex(x) then IsIndex(y) ==> ValueOf(x) <= ValueOf(y) else !IsIndex(y) && Leq(x, y)
  }

  predicate InPropertyOrder(names: seq<string>) { SortedBy(Precedes, names) }

  lemma OrderedCons(x: string, rest: seq<string>)
    requires InPropertyOrder(rest) && forall y :: y in rest ==> Precedes(x, y)
    ensures InPropertyOrder([x] + rest)
  {
  }

  /** An index that the first name does not precede comes before all of them. */
  lemma IndexComesFirst(x: string, names: seq<string>, y: string)
    requires IsIndex(x) && InPropertyOrder(names) && y in names
    requires !IsIndex(names[0]) || ValueOf(names[0]) > ValueOf(x)
    ensures Precedes(x, y)
  {
    var i :| 0 <= i < |names| && names[i] == y;
    if i > 0 { assert Precedes(names[0], names[i]); }
  }

  lemma {:induction false} AddIndexOrders(x: string, names: seq<string>)
    requires IsIndex(x) && InPropertyOrder(names)
    ensures InPropertyOrder(AddIndex(x, names))
  {
    if names == [] {
    } else if IsIndex(names[0]) && ValueOf(names[0]) <= ValueOf(x) {
      AddIndexOrders(x, names[1..]);
      AddIndexKeepsMultiset(x, names[1..]);
      var rest := AddIndex(x, names[1..]);
      forall y | y in rest ensures Precedes(names[0], y) { assert y in multiset(rest); }
      OrderedCons(names[0], rest);
    } else {
      forall y | y in names ensures Precedes(x, y) { IndexComesFirst(x, names, y); }
      OrderedCons(x, names);
    }
  }

  lemma {:induction false} CreatedOrders(names: seq<string>)
    requires Sorted(names)
    ensures InPropertyOrder(Created(names))
  {
    if names != [] {
      var init, x := names[..|names| - 1], Last(names);
      CreatedOrders(init);
      CreatedKeepsMultiset(init);
      if IsIndex(x) {
        AddIndexOrders(x, Created(init));
      } else {
        forall y | y in Created(init) ensures Precedes(y, x) { assert y in multiset(init); }
      }
    }
  }

  /** The names come out with array indices first, ascending, and all others after them in code-unit order. */
  lemma PropertyOrderMeans(names: seq<string>)
    ensures InPropertyOrder(PropertyOrder(names))
  {
    SortSorts(names);
    CreatedOrders(Sort(names));
  }

  lemma {:induction false} NumeralIsItsValue(a: string, b: string)
    requires IsNumeral(a) && IsNumeral(b) && ValueOf(a) == ValueOf(b)
    ensures a == b
  {
    assert a == a[..|a| - 1] + [Last(a)] && b == b[..|b| - 1] + [Last(b)];
    if |a| > 1 && |b| > 1 {
      NumeralIsItsValue(a[..|a| - 1], b[..|b| - 1]);
    } else if |a| > 1 {
      LongNumeral(a);
    } else if |b| > 1 {
      LongNumeral(b);
    }
  }

  lemma {:induction false} LongNumeral(a: string)
    requires IsNumeral(a)
    ensures |a| > 1 ==> ValueOf(a) >= 10
    ensures a[0] != '0' ==> ValueOf(a) >= 1
  {
    if |a| > 1 { LongNumeral(a[..|a| - 1]); } else { assert a[..0] == []; }
  }

  lemma PropertyOrderIsCanonical(a: seq<string>, b: seq<string>)
    requires InPropertyOrder(a) && InPropertyOrder(b) && multiset(a) == multiset(b)
    ensures a == b
  {
    forall x, y | Precedes(x, y) && Precedes(y, x) ensures x == y {
      if IsIndex(x) { NumeralIsItsValue(x, y); } else { LeqAntisymmetric(x, y); }
    }
    OrderIsCanonical(Precedes, a, b);
  }
}
