/** The bounded search for the first paths at which two JSON values differ. */
module Differing {
  import opened Common
  import opened Ordering
  import opened Json
  import opened Normalize

  datatype PathStep = Index(i: nat) | Field(name: string) | Length

  datatype Difference = Difference(path: seq<PathStep>, reference: Json, subject: Json)

  /** What a path denotes in a value, if anything. */
  function At(v: Json, path: seq<PathStep>): Option<Json>
    decreases |path|
  {
    if path == [] then Some(v)
    else match path[0]
      case Index(i) => if v.Arr? && i < |v.items| then At(v.items[i], path[1..]) else None
      case Field(name) => if v.Obj? && Has(v.members, name) then At(Get(v.members, name), path[1..]) else None
      case Length => if v.Arr? && |path| == 1 then Some(Num(|v.items| as real)) else None
  }

  /** How one side of a difference is reported, given what the other side holds there. */
  function Shown(here: Option<Json>, there: Option<Json>): Json
  {
    if here.None? then Str("<absent>") else if there.None? then Str(Marker(here.value)) else here.value
  }

  function WithoutRepeats(s: seq<string>): (r: seq<string>)
    ensures Distinct(r)
    ensures forall x :: x in r <==> x in s
  {
    if s == [] then []
    else
      var init := s[..|s| - 1];
      assert s == init + [Last(s)];
      if Last(s) in init then WithoutRepeats(init) else WithoutRepeats(init) + [Last(s)]
  }

  function AllNames(left: Json, right: Json): seq<string>
    requires left.Obj? && right.Obj?
  {
    Sort(WithoutRepeats(Names(left.members) + Names(right.members)))
  }

  lemma AllNamesAreTheMembers(left: Json, right: Json)
    requires left.Obj? && right.Obj?
    ensures forall name :: name in AllNames(left, right) <==> Has(left.members, name) || Has(right.members, name)
    ensures AllNames(left, right) == AllNames(right, left)
  {
    var lr := WithoutRepeats(Names(left.members) + Names(right.members));
    var rl := WithoutRepeats(Names(right.members) + Names(left.members));
    SortKeepsElements(lr);
    forall name ensures name in lr <==> Has(left.members, name) || Has(right.members, name) {
      HasIsNameIn(left.members, name);
      HasIsNameIn(right.members, name);
    }
    SameElementsSameMultiset(lr, rl);
    SortForgetsOrder(lr, rl);
  }

  function Differences(left: Json, right: Json, path: seq<PathStep>, limit: int): seq<Difference>
    decreases left, 1, 0
  {
    if Serialize(left) == Serialize(right) then []
    else if left.Arr? && right.Arr? then
      if |left.items| != |right.items| then
        [Difference(path + [Length], Num(|left.items| as real), Num(|right.items| as real))]
      else ItemDifferences(left, right, path, 0, limit)
    else if left.Obj? && right.Obj? then MemberDifferences(left, right, path, AllNames(left, right), 0, limit)
    else [Difference(path, left, right)]
  }

  /** Differences of the items from `i` on, while room is left. */
  function ItemDifferences(left: Json, right: Json, path: seq<PathStep>, i: nat, limit: int): seq<Difference>
    requires left.Arr? && right.Arr? && |left.items| == |right.items| && i <= |left.items|
    decreases left, 0, |left.items| - i
  {
    if i == |left.items| || limit <= 0 then []
    else
      var found := Differences(left.items[i], right.items[i], path + [Index(i)], limit);
      found + ItemDifferences(left, right, path, i + 1, limit - |found|)
  }

  function MemberDifferences(left: Json, right: Json, path: seq<PathStep>, names: seq<string>, i: nat,
      limit: int): seq<Difference>
    requires left.Obj? && right.Obj? && i <= |names|
    decreases left, 0, |names| - i
  {
    if i == |names| || limit <= 0 then []
    else
      var found := AtName(left, right, path, names[i], limit);
      found + MemberDifferences(left, right, path, names, i + 1, limit - |found|)
  }

  function AtName(left: Json, right: Json, path: seq<PathStep>, name: string, limit: int): seq<Difference>
    requires left.Obj? && right.Obj?
    decreases left, 0, 0
  {
    var here := path + [Field(name)];
    if Has(left.members, name) && Has(right.members, name) then
      Differences(Get(left.members, name), Get(right.members, name), here, limit)
    else if Has(left.members, name) then [Difference(here, Str(Marker(Get(left.members, name))), Str("<absent>"))]
    else if Has(right.members, name) then [Difference(here, Str("<absent>"), Str(Marker(Get(right.members, name))))]
    else []
  }

  /** The search of the source; its two loops grow `found` and hand the remaining room down. */
  method DifferingPaths(left: Json, right: Json, path: seq<PathStep>, limit: int) returns (found: seq<Difference>)
    ensures found == Differences(left, right, path, limit)
    decreases left, 1
  {
    if Serialize(left) == Serialize(right) {
      found := [];
    } else if left.Arr? && right.Arr? {
      if |left.items| != |right.items| {
        found := [Difference(path + [Length], Num(|left.items| as real), Num(|right.items| as real))];
      } else {
        found := DifferingItems(left, right, path, limit);
      }
    } else if left.Obj? && right.Obj? {
      found := DifferingMembers(left, right, path, limit);
    } else {
      found := [Difference(path, left, right)];
    }
  }

  method DifferingItems(left: Json, right: Json, path: seq<PathStep>, limit: int) returns (found: seq<Difference>)
    requires left.Arr? && right.Arr? && |left.items| == |right.items|
    ensures found == ItemsFrom(left, right, path, 0, limit, [])
    decreases left, 0
  {
    found := [];
    var i := 0;
    ghost var all := ItemsFrom(left, right, path, 0, limit, []);
    while i < |left.items| && |found| < limit
      invariant 0 <= i <= |left.items|
      invariant ItemsFrom(left, right, path, i, limit, found) == all
    {
      var more := DifferingPaths(left.items[i], right.items[i], path + [Index(i)], limit - |found|);
      ItemStep(left, right, path, i, limit, found);
      found := found + more;
      i := i + 1;
    }
    ItemsDone(left, right, path, i, limit, found);
  }

  /** What was found so far, completed by the items from `i` on. */
  function ItemsFrom(left: Json, right: Json, path: seq<PathStep>, i: nat, limit: int,
      found: seq<Difference>): seq<Difference>
    requires left.Arr? && right.Arr? && |left.items| == |right.items| && i <= |left.items|
  {
    found + ItemDifferences(left, right, path, i, limit - |found|)
  }

  lemma ItemStep(left: Json, right: Json, path: seq<PathStep>, i: nat, limit: int, found: seq<Difference>)
    requires left.Arr? && right.Arr? && |left.items| == |right.items| && i < |left.items| && |found| < limit
    ensures ItemsFrom(left, right, path, i, limit, found) ==
            ItemsFrom(left, right, path, i + 1, limit,
                      found + Differences(left.items[i], right.items[i], path + [Index(i)], limit - |found|))
  {
  }

  lemma ItemsDone(left: Json, right: Json, path: seq<PathStep>, i: nat, limit: int, found: seq<Difference>)
    requires left.Arr? && right.Arr? && |left.items| == |right.items| && i <= |left.items|
    requires i == |left.items| || |found| >= limit
    ensures ItemsFrom(left, right, path, i, limit, found) == found
  {
  }

  method DifferingMembers(left: Json, right: Json, path: seq<PathStep>, limit: int) returns (found: seq<Difference>)
    requires left.Obj? && right.Obj?
    ensures found == MembersFrom(left, right, path, AllNames(left, right), 0, limit, [])
    decreases left, 0, 1
  {
    found := [];
    var names := AllNames(left, right);
    var i := 0;
    ghost var all := MembersFrom(left, right, path, names, 0, limit, []);
    while i < |names|
      invariant 0 <= i <= |names|
      invariant MembersFrom(left, right, path, names, i, limit, found) == all
    {
      if |found| >= limit { break; }
      assert Has(left.members, names[i]) || Has(right.members, names[i]) by { AllNamesAreTheMembers(left, right); }
      var more := DifferingAt(left, right, path, names[i], limit - |found|);
      MemberStep(left, right, path, names, i, limit, found);
      found := found + more;
      i := i + 1;
    }
    MembersDone(left, right, path, names, i, limit, found);
  }

  method DifferingAt(left: Json, right: Json, path: seq<PathStep>, name: string,
      limit: int) returns (more: seq<Difference>)
    requires left.Obj? && right.Obj? && (Has(left.members, name) || Has(right.members, name))
    ensures more == AtName(left, right, path, name, limit)
    decreases left, 0, 0
  {
    var here := path + [Field(name)];
    if !Has(left.members, name) {
      more := [Difference(here, Str("<absent>"), Str(Marker(Get(right.members, name))))];
    } else if !Has(right.members, name) {
      more := [Difference(here, Str(Marker(Get(left.members, name))), Str("<absent>"))];
    } else {
      more := DifferingPaths(Get(left.members, name), Get(right.members, name), here, limit);
    }
  }

  /** What was found so far, completed by the members from `i` on. */
  function MembersFrom(left: Json, right: Json, path: seq<PathStep>, names: seq<string>, i: nat, limit: int,
      found: seq<Difference>): seq<Difference>
    requires left.Obj? && right.Obj? && i <= |names|
  {
    found + MemberDifferences(left, right, path, names, i, limit - |found|)
  }

  lemma MemberStep(left: Json, right: Json, path: seq<PathStep>, names: seq<string>, i: nat, limit: int,
      found: seq<Difference>)
    requires left.Obj? && right.Obj? && i < |names| && |found| < limit
    ensures MembersFrom(left, right, path, names, i, limit, found) ==
            MembersFrom(left, right, path, names, i + 1, limit,
                        found + AtName(left, right, path, names[i], limit - |found|))
  {
  }

  lemma MembersDone(left: Json, right: Json, path: seq<PathStep>, names: seq<string>, i: nat, limit: int,
      found: seq<Difference>)
    requires left.Obj? && right.Obj? && i <= |names|
    requires i == |names| || |found| >= limit
    ensures MembersFrom(left, right, path, names, i, limit, found) == found
  {
  }

  // ---- completeness, bound and soundness

  lemma NextItem(left: Json, right: Json, path: seq<PathStep>, i: nat, limit: int)
    requires left.Arr? && right.Arr? && |left.items| == |right.items| && i < |left.items| && limit > 0
    ensures var found := Differences(left.items[i], right.items[i], path + [Index(i)], limit);
            ItemDifferences(left, right, path, i, limit)
              == found + ItemDifferences(left, right, path, i + 1, limit - |found|)
  {
  }

  lemma NextName(left: Json, right: Json, path: seq<PathStep>, names: seq<string>, i: nat, limit: int)
    requires left.Obj? && right.Obj? && i < |names| && limit > 0
    ensures var found := AtName(left, right, path, names[i], limit);
            MemberDifferences(left, right, path, names, i, limit)
              == found + MemberDifferences(left, right, path, names, i + 1, limit - |found|)
  {
  }

  /** With room for at least one entry, nothing is reported exactly when the values agree up to member order. */
  lemma {:induction false} EmptyExactlyWhenSame(left: Json, right: Json, path: seq<PathStep>, limit: int)
    requires limit >= 1
    ensures Differences(left, right, path, limit) == [] <==> SameUpToOrder(left, right)
    decreases left, 1, 0
  {
    SerializeInjective(left, right);
    if left == right {
      SameUpToOrderReflexive(left);
    } else if left.Arr? && right.Arr? && |left.items| == |right.items| {
      ItemsEmptyExactlyWhenSame(left, right, path, 0, limit);
    } else if left.Obj? && right.Obj? {
      AllNamesAreTheMembers(left, right);
      MembersEmptyExactlyWhenSame(left, right, path, AllNames(left, right), 0, limit);
      EveryNameAgrees(left, right);
    }
  }

  lemma EveryNameAgrees(left: Json, right: Json)
    requires left.Obj? && right.Obj?
    ensures SameUpToOrder(left, right) <==>
            forall k :: 0 <= k < |AllNames(left, right)| ==> AgreeAt(left, right, AllNames(left, right)[k])
  {
    var names := AllNames(left, right);
    AllNamesAreTheMembers(left, right);
    if forall k :: 0 <= k < |names| ==> AgreeAt(left, right, names[k]) {
      forall name ensures AgreeAt(left, right, name) {
        if name in names {
          var k :| 0 <= k < |names| && names[k] == name;
        }
      }
      AgreementIsSameness(left, right);
    }
  }

  lemma AgreementIsSameness(left: Json, right: Json)
    requires left.Obj? && right.Obj? && forall name :: AgreeAt(left, right, name)
    ensures SameUpToOrder(left, right)
  {
    forall name
      ensures Has(left.members, name) <==> Has(right.members, name)
      ensures Has(left.members, name) ==> SameUpToOrder(Get(left.members, name), Get(right.members, name))
    {
      assert AgreeAt(left, right, name);
    }
  }

  lemma {:induction false} ItemsEmptyExactlyWhenSame(left: Json, right: Json, path: seq<PathStep>, i: nat, limit: int)
    requires limit >= 1 && left.Arr? && right.Arr? && |left.items| == |right.items| && i <= |left.items|
    ensures ItemDifferences(left, right, path, i, limit) == [] <==>
            forall k :: i <= k < |left.items| ==> SameUpToOrder(left.items[k], right.items[k])
    decreases left, 0, |left.items| - i
  {
    if i < |left.items| {
      EmptyExactlyWhenSame(left.items[i], right.items[i], path + [Index(i)], limit);
      ItemsEmptyExactlyWhenSame(left, right, path, i + 1, limit);
    }
  }

  ghost predicate AgreeAt(left: Json, right: Json, name: string)
    requires left.Obj? && right.Obj?
  {
    && (Has(left.members, name) <==> Has(right.members, name))
    && (Has(left.members, name) ==> SameUpToOrder(Get(left.members, name), Get(right.members, name)))
  }

  lemma {:induction false} MembersEmptyExactlyWhenSame(left: Json, right: Json, path: seq<PathStep>,
      names: seq<string>, i: nat, limit: int)
    requires limit >= 1 && left.Obj? && right.Obj? && i <= |names|
    ensures MemberDifferences(left, right, path, names, i, limit) == [] <==>
            forall k :: i <= k < |names| ==> AgreeAt(left, right, names[k])
    decreases left, 0, |names| - i
  {
    if i < |names| {
      var name := names[i];
      if Has(left.members, name) && Has(right.members, name) {
        EmptyExactlyWhenSame(Get(left.members, name), Get(right.members, name), path + [Field(name)], limit);
      }
      MembersEmptyExactlyWhenSame(left, right, path, names, i + 1, limit);
    }
  }

  /** Never more entries than the room that was given. */
  lemma {:induction false} NeverBeyondLimit(left: Json, right: Json, path: seq<PathStep>, limit: int)
    requires limit >= 1
    ensures |Differences(left, right, path, limit)| <= limit
    decreases left, 1, 0
  {
    if left.Arr? && right.Arr? && |left.items| == |right.items| {
      ItemsWithinLimit(left, right, path, 0, limit);
    } else if left.Obj? && right.Obj? {
      MembersWithinLimit(left, right, path, AllNames(left, right), 0, limit);
    }
  }

  lemma {:induction false} ItemsWithinLimit(left: Json, right: Json, path: seq<PathStep>, i: nat, limit: int)
    requires limit >= 0 && left.Arr? && right.Arr? && |left.items| == |right.items| && i <= |left.items|
    ensures |ItemDifferences(left, right, path, i, limit)| <= limit
    decreases left, 0, |left.items| - i
  {
    if i < |left.items| && limit > 0 {
      var found := Differences(left.items[i], right.items[i], path + [Index(i)], limit);
      NeverBeyondLimit(left.items[i], right.items[i], path + [Index(i)], limit);
      ItemsWithinLimit(left, right, path, i + 1, limit - |found|);
      NextItem(left, right, path, i, limit);
    }
  }

  lemma {:induction false} MembersWithinLimit(left: Json, right: Json, path: seq<PathStep>, names: seq<string>,
      i: nat, limit: int)
    requires limit >= 0 && left.Obj? && right.Obj? && i <= |names|
    ensures |MemberDifferences(left, right, path, names, i, limit)| <= limit
    decreases left, 0, |names| - i
  {
    if i < |names| && limit > 0 {
      NameWithinLimit(left, right, path, names[i], limit);
      MembersWithinLimit(left, right, path, names, i + 1, limit - |AtName(left, right, path, names[i], limit)|);
      NextName(left, right, path, names, i, limit);
    }
  }

  lemma {:induction false} NameWithinLimit(left: Json, right: Json, path: seq<PathStep>, name: string, limit: int)
    requires limit >= 1 && left.Obj? && right.Obj?
    ensures |AtName(left, right, path, name, limit)| <= limit
    decreases left, 0, 0
  {
    if Has(left.members, name) && Has(right.members, name) {
      NeverBeyondLimit(Get(left.members, name), Get(right.members, name), path + [Field(name)], limit);
    }
  }

  /** A reported entry lies below `path`, and the two values really differ there, as shown. */
  ghost predicate RealDifference(left: Json, right: Json, path: seq<PathStep>, d: Difference)
  {
    && |path| <= |d.path| && d.path[..|path|] == path
    && var l, r := At(left, d.path[|path|..]), At(right, d.path[|path|..]);
       l != r && d.reference == Shown(l, r) && d.subject == Shown(r, l)
  }

  lemma DeeperDifference(left: Json, right: Json, path: seq<PathStep>, step: PathStep, l: Json, r: Json, d: Difference)
    requires RealDifference(l, r, path + [step], d)
    requires forall rest: seq<PathStep> :: rest != [] && rest[0] == step
               ==> At(left, rest) == At(l, rest[1..]) && At(right, rest) == At(r, rest[1..])
    ensures RealDifference(left, right, path, d)
  {
    var rest := d.path[|path|..];
    assert rest[0] == (path + [step])[|path|] == step;
    assert rest[1..] == d.path[|path + [step]|..];
    assert d.path[..|path|] == (path + [step])[..|path|] == path;
  }

  /** Every reported path exists on a side and holds different values on the two sides. */
  lemma {:induction false} EveryPathDiffers(left: Json, right: Json, path: seq<PathStep>, limit: int)
    ensures forall d :: d in Differences(left, right, path, limit) ==> RealDifference(left, right, path, d)
    decreases left, 1, 0
  {
    SerializeInjective(left, right);
    if left == right {
    } else if left.Arr? && right.Arr? {
      if |left.items| != |right.items| {
        assert (path + [Length])[|path|..] == [Length];
      } else {
        ItemPathsDiffer(left, right, path, 0, limit);
      }
    } else if left.Obj? && right.Obj? {
      MemberPathsDiffer(left, right, path, AllNames(left, right), 0, limit);
    } else {
      assert path[|path|..] == [];
    }
  }

  lemma {:induction false} ItemPathsDiffer(left: Json, right: Json, path: seq<PathStep>, i: nat, limit: int)
    requires left.Arr? && right.Arr? && |left.items| == |right.items| && i <= |left.items|
    ensures forall d :: d in ItemDifferences(left, right, path, i, limit) ==> RealDifference(left, right, path, d)
    decreases left, 0, |left.items| - i
  {
    if i < |left.items| && limit > 0 {
      var found := Differences(left.items[i], right.items[i], path + [Index(i)], limit);
      EveryPathDiffers(left.items[i], right.items[i], path + [Index(i)], limit);
      forall d | d in found ensures RealDifference(left, right, path, d) {
        DeeperDifference(left, right, path, Index(i), left.items[i], right.items[i], d);
      }
      ItemPathsDiffer(left, right, path, i + 1, limit - |found|);
    }
  }

  lemma {:induction false} MemberPathsDiffer(left: Json, right: Json, path: seq<PathStep>, names: seq<string>, i: nat,
      limit: int)
    requires left.Obj? && right.Obj? && i <= |names|
    ensures forall d :: d in MemberDifferences(left, right, path, names, i, limit)
              ==> RealDifference(left, right, path, d)
    decreases left, 0, |names| - i
  {
    if i < |names| && limit > 0 {
      NamePathsDiffer(left, right, path, names[i], limit);
      MemberPathsDiffer(left, right, path, names, i + 1, limit - |AtName(left, right, path, names[i], limit)|);
    }
  }

  lemma {:induction false} NamePathsDiffer(left: Json, right: Json, path: seq<PathStep>, name: string, limit: int)
    requires left.Obj? && right.Obj?
    ensures forall d :: d in AtName(left, right, path, name, limit) ==> RealDifference(left, right, path, d)
    decreases left, 0, 0
  {
    var here := path + [Field(name)];
    if Has(left.members, name) && Has(right.members, name) {
      var l, r := Get(left.members, name), Get(right.members, name);
      EveryPathDiffers(l, r, here, limit);
      forall d | d in Differences(l, r, here, limit) ensures RealDifference(left, right, path, d) {
        DeeperDifference(left, right, path, Field(name), l, r, d);
      }
    } else {
      var rest := [Field(name)];
      assert here[|path|..] == rest && here[..|path|] == path;
      assert rest[1..] == [];
      assert At(left, rest) == if Has(left.members, name) then Some(Get(left.members, name)) else None;
      assert At(right, rest) == if Has(right.members, name) then Some(Get(right.members, name)) else None;
    }
  }

  // ---- symmetry

  /** The same entries with the two sides exchanged. */
  function Swapped(found: seq<Difference>): seq<Difference>
  {
    seq(|found|, (i: nat) requires i < |found| => Difference(found[i].path, found[i].subject, found[i].reference))
  }

  lemma SwappedConcat(a: seq<Difference>, b: seq<Difference>)
    ensures Swapped(a + b) == Swapped(a) + Swapped(b)
    ensures |Swapped(a)| == |a|
  {
  }

  /** Searching with the sides exchanged reports the same paths in the same order, with what they show exchanged. */
  lemma {:induction false} SwapMirrors(left: Json, right: Json, path: seq<PathStep>, limit: int)
    ensures Differences(right, left, path, limit) == Swapped(Differences(left, right, path, limit))
    decreases left, 1, 0
  {
    if left.Arr? && right.Arr? && |left.items| == |right.items| {
      ItemsMirror(left, right, path, 0, limit);
    } else if left.Obj? && right.Obj? {
      AllNamesAreTheMembers(left, right);
      MembersMirror(left, right, path, AllNames(left, right), 0, limit);
    }
  }

  lemma ItemMirrors(left: Json, right: Json, path: seq<PathStep>, i: nat, limit: int)
    requires left.Arr? && right.Arr? && |left.items| == |right.items| && i < |left.items| && limit > 0
    requires Differences(right.items[i], left.items[i], path + [Index(i)], limit)
          == Swapped(Differences(left.items[i], right.items[i], path + [Index(i)], limit))
    requires var room := limit - |Differences(left.items[i], right.items[i], path + [Index(i)], limit)|;
             ItemDifferences(right, left, path, i + 1, room) == Swapped(ItemDifferences(left, right, path, i + 1, room))
    ensures ItemDifferences(right, left, path, i, limit) == Swapped(ItemDifferences(left, right, path, i, limit))
  {
    var found := Differences(left.items[i], right.items[i], path + [Index(i)], limit);
    SwappedConcat(found, ItemDifferences(left, right, path, i + 1, limit - |found|));
    NextItem(left, right, path, i, limit);
    NextItem(right, left, path, i, limit);
  }

  lemma {:induction false} ItemsMirror(left: Json, right: Json, path: seq<PathStep>, i: nat, limit: int)
    requires left.Arr? && right.Arr? && |left.items| == |right.items| && i <= |left.items|
    ensures ItemDifferences(right, left, path, i, limit) == Swapped(ItemDifferences(left, right, path, i, limit))
    decreases left, 0, |left.items| - i
  {
    if i < |left.items| && limit > 0 {
      var found := Differences(left.items[i], right.items[i], path + [Index(i)], limit);
      SwapMirrors(left.items[i], right.items[i], path + [Index(i)], limit);
      ItemsMirror(left, right, path, i + 1, limit - |found|);
      ItemMirrors(left, right, path, i, limit);
    }
  }

  lemma MemberMirrors(left: Json, right: Json, path: seq<PathStep>, names: seq<string>, i: nat, limit: int)
    requires left.Obj? && right.Obj? && i < |names| && limit > 0
    requires AtName(right, left, path, names[i], limit) == Swapped(AtName(left, right, path, names[i], limit))
    requires var room := limit - |AtName(left, right, path, names[i], limit)|;
             MemberDifferences(right, left, path, names, i + 1, room)
               == Swapped(MemberDifferences(left, right, path, names, i + 1, room))
    ensures MemberDifferences(right, left, path, names, i, limit)
        == Swapped(MemberDifferences(left, right, path, names, i, limit))
  {
    var found := AtName(left, right, path, names[i], limit);
    SwappedConcat(found, MemberDifferences(left, right, path, names, i + 1, limit - |found|));
    NextName(left, right, path, names, i, limit);
    NextName(right, left, path, names, i, limit);
  }

  lemma {:induction false} MembersMirror(left: Json, right: Json, path: seq<PathStep>, names: seq<string>,
      i: nat, limit: int)
    requires left.Obj? && right.Obj? && i <= |names|
    ensures MemberDifferences(right, left, path, names, i, limit)
        == Swapped(MemberDifferences(left, right, path, names, i, limit))
    decreases left, 0, |names| - i
  {
    if i < |names| && limit > 0 {
      var found := AtName(left, right, path, names[i], limit);
      NameMirrors(left, right, path, names[i], limit);
      MembersMirror(left, right, path, names, i + 1, limit - |found|);
      MemberMirrors(left, right, path, names, i, limit);
    }
  }

  lemma {:induction false} NameMirrors(left: Json, right: Json, path: seq<PathStep>, name: string, limit: int)
    requires left.Obj? && right.Obj?
    ensures AtName(right, left, path, name, limit) == Swapped(AtName(left, right, path, name, limit))
    decreases left, 0, 0
  {
    if Has(left.members, name) && Has(right.members, name) {
      SwapMirrors(Get(left.members, name), Get(right.members, name), path + [Field(name)], limit);
    }
  }
}
