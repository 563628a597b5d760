/** Replacing run-specific values by their type before two responses are compared. */
module Normalize {
  import opened Common
  import opened Ordering
  import opened Json

  // ---- the classifiers, one predicate per expression of the source

  predicate Digits(s: string, from: nat, count: nat)
  {
    from + count <= |s| && forall i :: from <= i < from + count ==> IsDigit(s[i])
  }

  predicate TokenChar(c: char)
  {
    'A' <= c <= 'Z' || 'a' <= c <= 'z' || IsDigit(c) || c == '_' || c == '-'
  }

  predicate HexDigit(c: char) { IsDigit(c) || 'a' <= c <= 'f' || 'A' <= c <= 'F' }

  predicate EndsWith(s: string, suffix: string)
  {
    |suffix| <= |s| && s[|s| - |suffix|..] == suffix
  }

  /** An angle-bracketed type name: already normalized. */
  predicate IsMarker(s: string)
  {
    |s| >= 3 && s[0] == '<' && s[|s| - 1] == '>' && forall i :: 1 <= i < |s| - 1 ==> s[i] != '<' && s[i] != '>'
  }

  predicate IsZone(s: string)
  {
    || s == [] || s == "Z"
    || (|s| == 5 && (s[0] == '+' || s[0] == '-') && Digits(s, 1, 4))
    || (|s| == 6 && (s[0] == '+' || s[0] == '-') && Digits(s, 1, 2) && s[3] == ':' && Digits(s, 4, 2))
  }

  predicate IsFraction(s: string)
  {
    s != [] && IsDigit(s[0]) && (IsZone(s[1..]) || IsFraction(s[1..]))
  }

  predicate IsIsoTail(s: string)
  {
    IsZone(s) || (|s| >= 3 && s[0] == ':' && Digits(s, 1, 2) &&
                  (IsZone(s[3..]) || (|s| >= 4 && s[3] == '.' && IsFraction(s[4..]))))
  }

  predicate IsIsoDateTime(s: string)
  {
    && |s| >= 16 && Digits(s, 0, 4) && s[4] == '-' && Digits(s, 5, 2) && s[7] == '-' && Digits(s, 8, 2)
    && (s[10] == 'T' || s[10] == ' ') && Digits(s, 11, 2) && s[13] == ':' && Digits(s, 14, 2) && IsIsoTail(s[16..])
  }

  predicate IsUuid(s: string)
  {
    |s| == 36 && forall i :: 0 <= i < 36 ==> if i in {8, 13, 18, 23} then s[i] == '-' else HexDigit(s[i])
  }

  predicate IsToken(s: string)
  {
    exists i, j :: 8 <= i && i + 9 <= j && j + 9 <= |s| && s[i] == '.' && s[j] == '.' &&
                   forall k :: 0 <= k < |s| ==> k == i || k == j || TokenChar(s[k])
  }

  predicate IsVolatileKey(key: string)
  {
    || key in ["id", "uuid", "guid", "etag", "version", "timestamp"]
    || EndsWith(key, "_id") || EndsWith(key, "Id") || EndsWith(key, "_uuid") || EndsWith(key, "Uuid")
    || EndsWith(key, "_at") || EndsWith(key, "At")
    || (exists stem, suffix ::
          && stem in ["created", "updated", "modified", "deleted", "expires", "issued"]
          && suffix in ["", "at", "_at", "on", "_on"] && key == stem + suffix)
  }

  // ---- normalization

  function MaskDigits(s: string): (r: string)
    ensures |r| == |s|
    ensures forall i :: 0 <= i < |s| ==> r[i] == if IsDigit(s[i]) then 'd' else s[i]
  {
    if s == [] then [] else [if IsDigit(s[0]) then 'd' else s[0]] + MaskDigits(s[1..])
  }

  function Marker(v: Json): string
  {
    match v
    case Null => "<null>"
    case Bool(_) => "<boolean>"
    case Num(_) => "<number>"
    case Str(_) => "<string>"
    case Arr(_) => "<array>"
    case Obj(_) => "<object>"
  }

  predicate VolatileUnder(key: Option<string>)
  {
    key.Some? && IsVolatileKey(key.value)
  }

  function NormalizeString(s: string, key: Option<string>): string
  {
    if IsMarker(s) then s
    else if IsIsoDateTime(s) then "<datetime:" + MaskDigits(s) + ">"
    else if VolatileUnder(key) then "<string>"
    else if IsUuid(s) then "<uuid>"
    else if IsToken(s) then "<token>"
    else s
  }

  function NormalizeBody(v: Json, key: Option<string>): Json
    decreases v, 1, 0
  {
    match v
    case Str(s) => Str(NormalizeString(s, key))
    case Num(_) => if VolatileUnder(key) then Str("<number>") else v
    case Arr(items) => Arr(NormalizeItems(v, 0))
    case Obj(members) => Obj(NormalizeMembers(v, PropertyOrder(Names(members)), 0))
    case _ => v
  }

  function NormalizeItems(v: Json, i: nat): (r: seq<Json>)
    requires v.Arr? && i <= |v.items|
    ensures |r| == |v.items| - i
    ensures forall k :: 0 <= k < |r| ==> r[k] == NormalizeBody(v.items[i + k], None)
    decreases v, 0, |v.items| - i
  {
    if i == |v.items| then [] else [NormalizeBody(v.items[i], None)] + NormalizeItems(v, i + 1)
  }

  function NormalizeMembers(v: Json, names: seq<string>, i: nat): (r: seq<Member>)
    requires v.Obj? && i <= |names|
    ensures |r| == |names| - i
    ensures forall k :: 0 <= k < |r| ==> r[k].name == names[i + k]
    ensures forall k :: 0 <= k < |r| && Has(v.members, names[i + k]) ==>
                          r[k].value == NormalizeBody(Get(v.members, names[i + k]), Some(names[i + k]))
    decreases v, 0, |names| - i
  {
    if i == |names| then []
    else
      var value := if Has(v.members, names[i]) then NormalizeBody(Get(v.members, names[i]), Some(names[i])) else Null;
      [Member(names[i], value)] + NormalizeMembers(v, names, i + 1)
  }

  // ---- idempotence

  lemma {:induction false} FractionIsPlain(s: string)
    requires IsFraction(s)
    ensures forall i :: 0 <= i < |s| ==> s[i] != '<' && s[i] != '>'
  {
    assert s == [s[0]] + s[1..];
    if !IsZone(s[1..]) { FractionIsPlain(s[1..]); }
  }

  lemma IsoDateTimeIsPlain(s: string)
    requires IsIsoDateTime(s)
    ensures forall i :: 0 <= i < |s| ==> s[i] != '<' && s[i] != '>'
  {
    var tail := s[16..];
    assert forall i :: 0 <= i < |tail| ==> tail[i] != '<' && tail[i] != '>' by {
      if !IsZone(tail) {
        if IsZone(tail[3..]) {
          assert tail == tail[..3] + tail[3..];
        } else {
          FractionIsPlain(tail[4..]);
          assert tail == tail[..4] + tail[4..];
        }
      }
    }
    assert s == s[..16] + tail;
  }

  lemma MaskedDateIsMarker(s: string)
    requires IsIsoDateTime(s)
    ensures IsMarker("<datetime:" + MaskDigits(s) + ">")
  {
    IsoDateTimeIsPlain(s);
  }

  lemma NormalizeStringIdempotent(s: string, key: Option<string>)
    ensures NormalizeString(NormalizeString(s, key), key) == NormalizeString(s, key)
  {
    if !IsMarker(s) && IsIsoDateTime(s) { MaskedDateIsMarker(s); }
  }

  lemma NormalizedNames(v: Json, key: Option<string>)
    requires v.Obj?
    ensures var n := NormalizeBody(v, key);
            n.Obj? && Names(n.members) == PropertyOrder(Names(v.members))
    ensures forall name :: Has(v.members, name) <==> Has(NormalizeBody(v, key).members, name)
  {
    var names := Names(v.members);
    PropertyOrderKeepsElements(names);
    var n := NormalizeBody(v, key);
    assert Names(n.members) == PropertyOrder(names);
    forall name ensures Has(v.members, name) <==> Has(n.members, name) {
      HasIsNameIn(v.members, name);
      HasIsNameIn(n.members, name);
    }
  }

  lemma HasIsNameIn(members: seq<Member>, name: string)
    ensures Has(members, name) <==> name in Names(members)
  {
  }

  lemma NormalizedGet(v: Json, key: Option<string>, name: string)
    requires v.Obj? && Has(v.members, name)
    ensures var n := NormalizeBody(v, key);
            n.Obj? && Has(n.members, name) && Get(n.members, name) == NormalizeBody(Get(v.members, name), Some(name))
  {
    NormalizedNames(v, key);
    var n := NormalizeBody(v, key);
    var i :| 0 <= i < |n.members| && n.members[i] == Member(name, Get(n.members, name));
  }

  /** Normalizing twice changes nothing, under any key and under none. */
  lemma {:induction false} NormalizeIdempotent(v: Json, key: Option<string>)
    ensures NormalizeBody(NormalizeBody(v, key), key) == NormalizeBody(v, key)
    decreases v
  {
    var n := NormalizeBody(v, key);
    match v {
      case Str(s) => NormalizeStringIdempotent(s, key);
      case Arr(items) =>
        forall i | 0 <= i < |items| ensures NormalizeBody(n.items[i], None) == n.items[i] {
          NormalizeIdempotent(items[i], None);
        }
        assert NormalizeItems(n, 0) == n.items;
      case Obj(members) =>
        NormalizedNames(v, key);
        NormalizedNames(n, key);
        CreatedKeepsMultiset(Sort(Names(members)));
        SortSorts(Names(members));
        PropertyOrderForgetsOrder(Names(n.members), Names(members));
        var m := NormalizeBody(n, key);
        forall i | 0 <= i < |n.members| ensures m.members[i] == n.members[i] {
          MemberIsFixed(v, key, i);
        }
        assert m.members == n.members;
      case _ =>
    }
  }

  lemma {:induction false} MemberIsFixed(v: Json, key: Option<string>, i: nat)
    requires v.Obj? && i < |NormalizeBody(v, key).members|
    requires Names(NormalizeBody(v, key).members) == PropertyOrder(Names(NormalizeBody(v, key).members))
    ensures NormalizeBody(NormalizeBody(v, key), key).members[i] == NormalizeBody(v, key).members[i]
    decreases v, 0
  {
    var n := NormalizeBody(v, key);
    var name := n.members[i].name;
    NormalizedNames(v, key);
    HasIsNameIn(n.members, name);
    assert Has(v.members, name);
    NormalizedGet(v, key, name);
    NormalizedGet(n, key, name);
    NormalizeIdempotent(Get(v.members, name), Some(name));
  }

  // ---- canonicity

  lemma SameNamesSameMultiset(a: Json, b: Json)
    requires a.Obj? && b.Obj? && Distinct(Names(a.members)) && Distinct(Names(b.members))
    requires SameUpToOrder(a, b)
    ensures multiset(Names(a.members)) == multiset(Names(b.members))
  {
    forall name ensures name in Names(a.members) <==> name in Names(b.members) {
      HasIsNameIn(a.members, name);
      HasIsNameIn(b.members, name);
      assert Has(a.members, name) <==> Has(b.members, name);
    }
    SameElementsSameMultiset(Names(a.members), Names(b.members));
  }

  /** Bodies that differ only in member order, at any depth, normalize to the same tree. */
  lemma {:induction false} NormalizeCanonical(a: Json, b: Json, key: Option<string>)
    requires WellFormed(a) && WellFormed(b)
    requires SameUpToOrder(a, b)
    ensures NormalizeBody(a, key) == NormalizeBody(b, key)
    decreases a
  {
    if a.Arr? && b.Arr? {
      forall i | 0 <= i < |a.items| ensures NormalizeItems(a, 0)[i] == NormalizeItems(b, 0)[i] {
        NormalizeCanonical(a.items[i], b.items[i], None);
      }
      assert NormalizeItems(a, 0) == NormalizeItems(b, 0);
    } else if a.Obj? && b.Obj? {
      SameNamesSameMultiset(a, b);
      PropertyOrderForgetsOrder(Names(a.members), Names(b.members));
      var names := PropertyOrder(Names(a.members));
      NormalizedNames(a, key);
      NormalizedNames(b, key);
      var na, nb := NormalizeBody(a, key), NormalizeBody(b, key);
      forall i | 0 <= i < |names| ensures na.members[i] == nb.members[i] {
        HasIsNameIn(na.members, names[i]);
        HasIsNameIn(nb.members, names[i]);
        NormalizeCanonical(Get(a.members, names[i]), Get(b.members, names[i]), Some(names[i]));
      }
      assert na.members == nb.members;
    }
  }

  /** Every object lists distinct names in the order an object keeps them: the shape normalization produces. */
  predicate InNormalOrder(v: Json)
  {
    match v
    case Arr(items) => forall i :: 0 <= i < |items| ==> InNormalOrder(items[i])
    case Obj(members) =>
      && InPropertyOrder(Names(members)) && Distinct(Names(members))
      && forall i :: 0 <= i < |members| ==> InNormalOrder(members[i].value)
    case _ => true
  }

  lemma {:induction false} NormalizedIsInNormalOrder(v: Json, key: Option<string>)
    requires WellFormed(v)
    ensures InNormalOrder(NormalizeBody(v, key))
    decreases v
  {
    var n := NormalizeBody(v, key);
    match v {
      case Arr(items) =>
        forall i | 0 <= i < |items| ensures InNormalOrder(n.items[i]) { NormalizedIsInNormalOrder(items[i], None); }
      case Obj(members) =>
        NormalizedNames(v, key);
        PropertyOrderKeepsElements(Names(members));
        PropertyOrderMeans(Names(members));
        forall i | 0 <= i < |n.members| ensures InNormalOrder(n.members[i].value) {
          var name := n.members[i].name;
          HasIsNameIn(n.members, Names(n.members)[i]);
          NormalizedIsInNormalOrder(Get(members, name), Some(name));
        }
      case _ =>
    }
  }

  lemma {:induction false} GetAt(members: seq<Member>, i: nat)
    requires i < |members| && Distinct(Names(members))
    ensures Has(members, members[i].name)
    ensures Get(members, members[i].name) == members[i].value
  {
    var names, name := Names(members), members[i].name;
    assert Has(members, name);
    FoundAt(members, name, i);
  }

  lemma FoundAt(members: seq<Member>, name: string, i: nat)
    requires Has(members, name) && Distinct(Names(members))
    requires i < |members| && Names(members)[i] == name
    ensures Get(members, name) == members[i].value
  {
    var r := Get(members, name);
    var k :| 0 <= k < |members| && members[k] == Member(name, r);
    assert Names(members)[k] == name;
    assert k == i;
  }

  /** Once members are in order there is only one way to write an object. */
  lemma {:induction false} NormalOrderIsUnique(a: Json, b: Json)
    requires InNormalOrder(a) && InNormalOrder(b)
    requires SameUpToOrder(a, b)
    ensures a == b
    decreases a
  {
    if a.Arr? && b.Arr? {
      forall i | 0 <= i < |a.items| ensures a.items[i] == b.items[i] { NormalOrderIsUnique(a.items[i], b.items[i]); }
      assert a.items == b.items;
    } else if a.Obj? && b.Obj? {
      SameNamesSameMultiset(a, b);
      PropertyOrderIsCanonical(Names(a.members), Names(b.members));
      forall i | 0 <= i < |a.members| ensures a.members[i] == b.members[i] {
        GetAt(a.members, i);
        GetAt(b.members, i);
        assert Names(a.members)[i] == Names(b.members)[i];
        NormalOrderIsUnique(a.members[i].value, b.members[i].value);
      }
      assert a.members == b.members;
    }
  }

  lemma {:induction false} SameUpToOrderReflexive(v: Json)
    ensures SameUpToOrder(v, v)
  {
    match v {
      case Arr(items) =>
        forall i | 0 <= i < |items| ensures SameUpToOrder(items[i], items[i]) { SameUpToOrderReflexive(items[i]); }
      case Obj(members) =>
        forall name | Has(members, name) ensures SameUpToOrder(Get(members, name), Get(members, name)) {
          SameUpToOrderReflexive(Get(members, name));
        }
      case _ =>
    }
  }
}
