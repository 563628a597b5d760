/** Operation identifiers as text: how a resumed attempt derives its own from the work it continues. */
module OperationIds {
  import opened Common

  const MARKER: string := "#resume-"

  /** Whether `marker` occurs in `s` at position `i`. */
  predicate OccursAt(s: string, marker: string, i: nat)
  {
    i + |marker| <= |s| && s[i..i + |marker|] == marker
  }

  /** The text before the first marker; all of it when there is none. */
  function BaseFrom(s: string, i: nat): (r: string)
    requires i <= |s|
    requires forall k :: 0 <= k < i ==> !OccursAt(s, MARKER, k)
    ensures i <= |r| <= |s| && r == s[..|r|]
    ensures |r| < |s| ==> OccursAt(s, MARKER, |r|)
    ensures forall k :: 0 <= k < |r| ==> !OccursAt(s, MARKER, k)
    decreases |s| - i
  {
    if i == |s| then s
    else if OccursAt(s, MARKER, i) then s[..i]
    else BaseFrom(s, i + 1)
  }

  function Base(s: string): string { BaseFrom(s, 0) }

  predicate MarkerFree(s: string) { Base(s) == s }

  function Digit(n: nat): char
    requires n < 10
  {
    '0' + n as char
  }

  function Decimal(n: nat): (r: string)
    ensures r != []
  {
    if n < 10 then [Digit(n)] else Decimal(n / 10) + [Digit(n % 10)]
  }

  /** The identifier of attempt `n` of the work that `op` names. */
  function Resumed(op: string, n: nat): string
  {
    Base(op) + MARKER + Decimal(n)
  }

  lemma {:induction false} DecimalReadsBack(n: nat)
    ensures forall i :: 0 <= i < |Decimal(n)| ==> IsDigit(Decimal(n)[i])
    ensures ValueOf(Decimal(n)) == n
  {
    if n < 10 {
      assert Decimal(n)[..0] == [];
    } else {
      DecimalReadsBack(n / 10);
      assert Decimal(n)[..|Decimal(n)| - 1] == Decimal(n / 10);
    }
  }

  /** A marker holds one hash sign only, so two occurrences never overlap. */
  lemma MarkersApart(s: string, i: nat)
    requires OccursAt(s, MARKER, i)
    ensures s[i] == '#' && forall j :: i < j < i + |MARKER| ==> s[j] != '#'
  {
    forall j | i <= j < i + |MARKER| ensures s[j] == MARKER[j - i] {
      assert s[i..i + |MARKER|][j - i] == s[j];
    }
  }

  lemma OccursInPrefix(s: string, b: string, k: nat)
    requires |b| <= |s| && b == s[..|b|] && k + |MARKER| <= |b|
    ensures OccursAt(b, MARKER, k) == OccursAt(s, MARKER, k)
  {
    assert b[k..k + |MARKER|] == s[k..k + |MARKER|];
  }

  /** The first marker of `b + MARKER + t` is the one written there, when `b` itself holds none. */
  lemma FirstMarker(b: string, t: string)
    requires MarkerFree(b)
    ensures Base(b + MARKER + t) == b
  {
    var s := b + MARKER + t;
    var r := Base(s);
    assert s[|b|..|b| + |MARKER|] == MARKER && s[..|b|] == b;
    assert OccursAt(s, MARKER, |b|) && OccursAt(s, MARKER, |r|);
    MarkersApart(s, |b|);
    MarkersApart(s, |r|);
    assert |r| < |b| ==> |r| + |MARKER| <= |b| by {
      assert s[|r| + (|b| - |r|)] == '#';
    }
    if |r| + |MARKER| <= |b| { OccursInPrefix(s, b, |r|); }
  }

  lemma BaseIsMarkerFree(op: string)
    ensures MarkerFree(Base(op))
  {
    var b := Base(op);
    forall k: nat | k < |b| ensures !OccursAt(b, MARKER, k) {
      if k + |MARKER| <= |b| { OccursInPrefix(op, b, k); }
    }
    assert b[..|b|] == b;
  }

  /** Resuming a resumed attempt keeps the base: markers never pile up. */
  lemma BaseOfResumed(op: string, n: nat)
    ensures Base(Resumed(op, n)) == Base(op)
    ensures !MarkerFree(Resumed(op, n))
  {
    BaseIsMarkerFree(op);
    FirstMarker(Base(op), Decimal(n));
    assert |Resumed(op, n)| > |Base(op)|;
  }

  /** Two attempts share an identifier exactly when they are the same attempt of the same base. */
  lemma ResumedExactly(a: string, m: nat, b: string, n: nat)
    ensures Resumed(a, m) == Resumed(b, n) <==> Base(a) == Base(b) && m == n
  {
    if Resumed(a, m) == Resumed(b, n) {
      BaseOfResumed(a, m);
      BaseOfResumed(b, n);
      var s := Resumed(a, m);
      assert s[|Base(a)| + |MARKER|..] == Decimal(m);
      assert s[|Base(b)| + |MARKER|..] == Decimal(n);
      DecimalReadsBack(m);
      DecimalReadsBack(n);
    }
  }

  /** An identifier that no attempt produced can still equal one: exactly when it carries the marker and the number. */
  lemma CollidesExactly(own: string, op: string, n: nat)
    ensures own == Resumed(op, n)
        <==> !MarkerFree(own) && Base(own) == Base(op) && own[|Base(own)|..] == MARKER + Decimal(n)
  {
    if own == Resumed(op, n) {
      BaseOfResumed(op, n);
      assert own[|Base(op)|..] == MARKER + Decimal(n);
    }
    assert own == own[..|Base(own)|] + own[|Base(own)|..];
    assert Base(op) + MARKER + Decimal(n) == Base(op) + (MARKER + Decimal(n));
  }
}
