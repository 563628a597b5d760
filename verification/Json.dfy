/** JSON values as a parser produces them, and the token stream a serializer writes for them. */
module Json {
  import opened Common
  import opened Ordering

  /** Object members are kept in enumeration order; `WellFormed` says that no name repeats. */
  datatype Json =
    | Null
    | Bool(b: bool)
    | Num(n: real)
    | Str(s: string)
    | Arr(items: seq<Json>)
    | Obj(members: seq<Member>)

  datatype Member = Member(name: string, value: Json)

  function Names(members: seq<Member>): (r: seq<string>)
    ensures |r| == |members|
    ensures forall i :: 0 <= i < |r| ==> r[i] == members[i].name
  {
    if members == [] then [] else [members[0].name] + Names(members[1..])
  }

  predicate Has(members: seq<Member>, name: string)
  {
    exists i :: 0 <= i < |members| && members[i].name == name
  }

  /** The value of the first member with that name. */
  function Get(members: seq<Member>, name: string): (r: Json)
    requires Has(members, name)
    ensures exists i :: 0 <= i < |members| && members[i] == Member(name, r)
  {
    if members[0].name == name then
      assert members[0] == Member(name, members[0].value);
      members[0].value
    else
      assert Has(members[1..], name);
      var r := Get(members[1..], name);
      var i :| 0 <= i < |members[1..]| && members[1..][i] == Member(name, r);
      assert members[i + 1] == Member(name, r);
      r
  }

  predicate WellFormed(v: Json)
  {
    match v
    case Arr(items) => forall i :: 0 <= i < |items| ==> WellFormed(items[i])
    case Obj(members) =>
      Distinct(Names(members)) && forall i :: 0 <= i < |members| ==> WellFormed(members[i].value)
    case _ => true
  }

  /** Equality up to the order of object members, at every depth (RFC 8259, section 4). */
  ghost predicate SameUpToOrder(a: Json, b: Json)
    decreases a
  {
    if a.Arr? && b.Arr? then
      |a.items| == |b.items| && forall i :: 0 <= i < |a.items| ==> SameUpToOrder(a.items[i], b.items[i])
    else if a.Obj? && b.Obj? then
      forall name :: && (Has(a.members, name) <==> Has(b.members, name))
                     && (Has(a.members, name) ==> SameUpToOrder(Get(a.members, name), Get(b.members, name)))
    else a == b
  }

  // ---- serialization

  datatype Token = Literal(scalar: Json) | Open(c: char) | Close(c: char) | Comma | Name(name: string)

  function Serialize(v: Json): (r: seq<Token>)
    ensures r != [] && (r[0].Literal? || r[0].Open?)
    decreases v, 1, 0
  {
    match v
    case Arr(items) => [Open('[')] + SerializeItems(v, 0)
    case Obj(members) => [Open('{')] + SerializeMembers(v, 0)
    case _ => [Literal(v)]
  }

  function SerializeItems(v: Json, i: nat): (r: seq<Token>)
    requires v.Arr? && i <= |v.items|
    decreases v, 0, |v.items| - i
  {
    if i == |v.items| then [Close(']')]
    else Separator(i) + (Serialize(v.items[i]) + SerializeItems(v, i + 1))
  }

  function SerializeMembers(v: Json, i: nat): (r: seq<Token>)
    requires v.Obj? && i <= |v.members|
    decreases v, 0, |v.members| - i
  {
    if i == |v.members| then [Close('}')]
    else Separator(i) + (SerializeMember(v.members[i]) + SerializeMembers(v, i + 1))
  }

  function SerializeMember(m: Member): seq<Token>
    decreases m, 0, 0
  {
    [Name(m.name)] + Serialize(m.value)
  }

  function Separator(i: nat): seq<Token>
  {
    if i == 0 then [] else [Comma]
  }

  /**
   * No serialized value is a proper prefix of another one's: whatever follows, the text determines
   * the value and the remainder.
   */
  lemma {:induction false} SerializePrefixFree(a: Json, b: Json, ra: seq<Token>, rb: seq<Token>)
    requires Serialize(a) + ra == Serialize(b) + rb
    ensures a == b && ra == rb
    decreases a, 1, 0
  {
    var sa, sb := Serialize(a), Serialize(b);
    assert (sa + ra)[0] == sa[0] && (sb + rb)[0] == sb[0];
    match a {
      case Arr(items) =>
        assert sa + ra == [Open('[')] + (SerializeItems(a, 0) + ra);
        assert sb + rb == [Open('[')] + (SerializeItems(b, 0) + rb);
        DropPrefix([Open('[')], SerializeItems(a, 0) + ra, SerializeItems(b, 0) + rb);
        ItemsPrefixFree(a, b, 0, ra, rb);
        assert a.items[0..] == a.items && b.items[0..] == b.items;
      case Obj(members) =>
        assert sa + ra == [Open('{')] + (SerializeMembers(a, 0) + ra);
        assert sb + rb == [Open('{')] + (SerializeMembers(b, 0) + rb);
        DropPrefix([Open('{')], SerializeMembers(a, 0) + ra, SerializeMembers(b, 0) + rb);
        MembersPrefixFree(a, b, 0, ra, rb);
        assert a.members[0..] == a.members && b.members[0..] == b.members;
      case _ =>
        assert sa == [Literal(a)];
        assert sb[0] == Literal(a);
        assert sb == [Literal(b)];
        DropPrefix([Literal(a)], ra, rb);
    }
  }

  lemma DropPrefix<T>(p: seq<T>, ra: seq<T>, rb: seq<T>)
    requires p + ra == p + rb
    ensures ra == rb
  {
    assert ra == (p + ra)[|p|..] && rb == (p + rb)[|p|..];
  }

  lemma {:induction false} ItemsPrefixFree(a: Json, b: Json, i: nat, ra: seq<Token>, rb: seq<Token>)
    requires a.Arr? && b.Arr? && i <= |a.items| && i <= |b.items|
    requires SerializeItems(a, i) + ra == SerializeItems(b, i) + rb
    ensures a.items[i..] == b.items[i..] && ra == rb
    decreases a, 0, |a.items| - i
  {
    var sa, sb := SerializeItems(a, i), SerializeItems(b, i);
    assert (sa + ra)[0] == sa[0] && (sb + rb)[0] == sb[0];
    if i == |a.items| || i == |b.items| {
      DropPrefix([Close(']')], ra, rb);
    } else {
      var ta, tb := SerializeItems(a, i + 1) + ra, SerializeItems(b, i + 1) + rb;
      UnfoldItems(a, i, ra);
      UnfoldItems(b, i, rb);
      DropPrefix(Separator(i), Serialize(a.items[i]) + ta, Serialize(b.items[i]) + tb);
      SerializePrefixFree(a.items[i], b.items[i], ta, tb);
      ItemsPrefixFree(a, b, i + 1, ra, rb);
    }
  }

  lemma UnfoldItems(v: Json, i: nat, r: seq<Token>)
    requires v.Arr? && i < |v.items|
    ensures SerializeItems(v, i) + r == Separator(i) + (Serialize(v.items[i]) + (SerializeItems(v, i + 1) + r))
    ensures v.items[i..] == [v.items[i]] + v.items[i + 1..]
  {
    Reassociate(Separator(i), Serialize(v.items[i]), SerializeItems(v, i + 1), r);
  }

  lemma UnfoldMembers(v: Json, i: nat, r: seq<Token>)
    requires v.Obj? && i < |v.members|
    ensures SerializeMembers(v, i) + r
        == Separator(i) + (SerializeMember(v.members[i]) + (SerializeMembers(v, i + 1) + r))
    ensures v.members[i..] == [v.members[i]] + v.members[i + 1..]
  {
    Reassociate(Separator(i), SerializeMember(v.members[i]), SerializeMembers(v, i + 1), r);
  }

  lemma Reassociate<T>(a: seq<T>, b: seq<T>, c: seq<T>, d: seq<T>)
    ensures (a + (b + c)) + d == a + (b + (c + d))
  {
  }

  /** Both lists of members are over, or neither is. */
  lemma MembersEndTogether(a: Json, b: Json, i: nat, ra: seq<Token>, rb: seq<Token>)
    requires a.Obj? && b.Obj? && i <= |a.members| && i <= |b.members|
    requires SerializeMembers(a, i) + ra == SerializeMembers(b, i) + rb
    ensures i == |a.members| <==> i == |b.members|
  {
    var sa, sb := SerializeMembers(a, i), SerializeMembers(b, i);
    assert (sa + ra)[0] == sa[0] && (sb + rb)[0] == sb[0];
  }

  lemma {:induction false} MembersPrefixFree(a: Json, b: Json, i: nat, ra: seq<Token>, rb: seq<Token>)
    requires a.Obj? && b.Obj? && i <= |a.members| && i <= |b.members|
    requires SerializeMembers(a, i) + ra == SerializeMembers(b, i) + rb
    ensures a.members[i..] == b.members[i..] && ra == rb
    decreases a, 0, |a.members| - i
  {
    MembersEndTogether(a, b, i, ra, rb);
    if i == |a.members| {
      DropPrefix([Close('}')], ra, rb);
    } else {
      UnfoldMembers(a, i, ra);
      UnfoldMembers(b, i, rb);
      var ta, tb := SerializeMembers(a, i + 1) + ra, SerializeMembers(b, i + 1) + rb;
      DropPrefix(Separator(i), SerializeMember(a.members[i]) + ta, SerializeMember(b.members[i]) + tb);
      MemberPrefixFree(a.members[i], b.members[i], ta, tb);
      MembersPrefixFree(a, b, i + 1, ra, rb);
    }
  }

  lemma {:induction false} MemberPrefixFree(a: Member, b: Member, ra: seq<Token>, rb: seq<Token>)
    requires SerializeMember(a) + ra == SerializeMember(b) + rb
    ensures a == b && ra == rb
    decreases a, 0, 0
  {
    var ta, tb := Serialize(a.value) + ra, Serialize(b.value) + rb;
    assert SerializeMember(a) + ra == [Name(a.name)] + ta;
    assert SerializeMember(b) + rb == [Name(b.name)] + tb;
    assert ([Name(a.name)] + ta)[0] == ([Name(b.name)] + tb)[0];
    DropPrefix([Name(a.name)], ta, tb);
    SerializePrefixFree(a.value, b.value, ra, rb);
  }

  /** Comparing serialized texts is comparing values. */
  lemma SerializeInjective(a: Json, b: Json)
    ensures Serialize(a) == Serialize(b) <==> a == b
  {
    if Serialize(a) == Serialize(b) {
      assert Serialize(a) + [] == Serialize(b) + [];
      SerializePrefixFree(a, b, [], []);
    }
  }
}
