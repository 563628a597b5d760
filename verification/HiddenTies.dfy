/** Where the tie check of an epic looks too short a way ahead. */
module HiddenTies {
  import opened Common
  import opened Records
  import opened Supersession

  /** The member a chain of replacements ends at. */
  function End<T>(members: seq<Member<T>>, id: TaskId): TaskId
  {
    EndOf(id, Resolve(members, id))
  }

  function EndOf(start: TaskId, standing: Standing): TaskId
  {
    if standing.ReplacedBy? then standing.id else start
  }

  /**
   * Every standing member that replaces a superseded one, through any chain of declarations, is the one it resolves to.
   */
  ghost predicate NoHiddenTie<T>(members: seq<Member<T>>)
  {
    forall id, r :: id in IdSet(members) && Resolve(members, id).ReplacedBy? && Unchallenged(members, r)
      && Reaches(members, id, r)
      ==> Resolve(members, id) == ReplacedBy(r)
  }

  /** All that compete for a place, not only those preferred for it, end at the same member. */
  ghost predicate CandidatesAgree<T>(members: seq<Member<T>>)
  {
    forall id, c, d :: id in IdSet(members) && c in Candidates(members, id) && d in Candidates(members, id)
      ==> End(members, c) == End(members, d)
  }

  ghost predicate AllDecided<T>(members: seq<Member<T>>)
  {
    forall id :: id in IdSet(members) ==> !Resolve(members, id).Undecided?
  }

  lemma NoConflictDecides<T>(members: seq<Member<T>>, i: nat)
    requires ResolveSupersession(members).conflicts == [] && i < |members|
    ensures !Resolve(members, members[i].id).Undecided?
  {
    FlatMapEmpty(IfUndecided(members), members);
    assert IfUndecided(members)(members[i]) == [];
  }

  lemma NoConflictDecidesAll<T>(members: seq<Member<T>>)
    requires ResolveSupersession(members).conflicts == []
    ensures AllDecided(members)
  {
    forall i: nat | i < |members| ensures !Resolve(members, members[i].id).Undecided? { NoConflictDecides(members, i); }
  }

  /** Two decided walks that meet end at the same member, wherever they started. */
  lemma {:induction false} WalksAgree<T>(members: seq<Member<T>>, a: TaskId, b: TaskId, current: TaskId,
      seenA: set<TaskId>, seenB: set<TaskId>)
    requires !Walk(members, a, current, seenA).Undecided? && !Walk(members, b, current, seenB).Undecided?
    ensures EndOf(a, Walk(members, a, current, seenA)) == EndOf(b, Walk(members, b, current, seenB))
    decreases IdSet(members) - seenA
  {
    CandidatesAreTheOthers(members, current);
    var chosen := Chosen(members, current);
    if |chosen| == 1 {
      assert chosen[0] in IdSet(members) - seenA;
      WalksAgree(members, a, b, chosen[0], seenA + {chosen[0]}, seenB + {chosen[0]});
    }
  }

  lemma NextHasSameEnd<T>(members: seq<Member<T>>, id: TaskId)
    requires AllDecided(members) && id in IdSet(members) && Candidates(members, id) != []
    ensures exists c :: c in Candidates(members, id) && End(members, c) == End(members, id)
  {
    CandidatesAreTheOthers(members, id);
    assert Candidates(members, id)[0] in Candidates(members, id);
    var next := Chosen(members, id)[0];
    assert next in Chosen(members, id);
    WalksAgree(members, id, next, next, {id} + {next}, {next});
    assert next in Candidates(members, id) && End(members, next) == End(members, id);
  }

  /** Where the candidates agree, a declared replacement ends where the replaced one does. */
  lemma StepSharesEnd<T>(members: seq<Member<T>>, a: TaskId, b: TaskId)
    requires AllDecided(members) && CandidatesAgree(members) && a in IdSet(members) && Declares(members, b, a)
    ensures End(members, a) == End(members, b)
  {
    if a != b {
      CandidatesAreTheOthers(members, a);
      NextHasSameEnd(members, a);
    }
  }

  lemma RestOfChain<T>(members: seq<Member<T>>, path: seq<TaskId>)
    requires Chain(members, path) && |path| > 1
    ensures Chain(members, path[1..]) && Declares(members, path[1], path[0]) && path[1] in IdSet(members)
  {
    var rest := path[1..];
    assert forall k :: 0 <= k < |rest| - 1
             ==> rest[k] == path[k + 1] && Declares(members, path[k + 1 + 1], path[k + 1]);
    assert Declares(members, path[0 + 1], path[0]);
  }

  lemma {:induction false} ChainSharesEnd<T>(members: seq<Member<T>>, path: seq<TaskId>)
    requires AllDecided(members) && CandidatesAgree(members) && Chain(members, path) && path[0] in IdSet(members)
    ensures End(members, path[0]) == End(members, Last(path))
  {
    if |path| > 1 {
      RestOfChain(members, path);
      StepSharesEnd(members, path[0], path[1]);
      ChainSharesEnd(members, path[1..]);
    }
  }

  lemma EndStands<T>(members: seq<Member<T>>, c: TaskId)
    requires !Resolve(members, c).Undecided?
    ensures Unchallenged(members, End(members, c)) && (End(members, c) == c || Reaches(members, c, End(members, c)))
  {
    ResolveIsSound(members, c);
  }

  lemma CandidateEndIsReached<T>(members: seq<Member<T>>, id: TaskId, c: TaskId)
    requires id in IdSet(members) && c in Candidates(members, id)
    ensures AllDecided(members) && NoHiddenTie(members) ==> Resolve(members, id) == ReplacedBy(End(members, c))
  {
    if AllDecided(members) && NoHiddenTie(members) {
      CandidatesAreTheOthers(members, id);
      StandsExactlyWhenUnchallenged(members, id);
      EndStands(members, c);
      ReachesFurther(members, id, c, End(members, c));
    }
  }

  lemma ReachesFurther<T>(members: seq<Member<T>>, id: TaskId, c: TaskId, r: TaskId)
    requires Declares(members, c, id) && (r == c || Reaches(members, c, r))
    ensures Reaches(members, id, r)
  {
    var rest: seq<TaskId> := [c];
    if r != c {
      rest :| Chain(members, rest) && rest[0] == c && Last(rest) == r && |rest| > 1;
    }
    var path := [id] + rest;
    forall k | 0 <= k < |path| - 1 ensures Declares(members, path[k + 1], path[k]) {
      if k > 0 { assert Declares(members, rest[k - 1 + 1], rest[k - 1]); }
    }
    assert Chain(members, path) && path[0] == id && Last(path) == r;
  }

  /**
   * Without a reported conflict, a superseded member resolves to the only standing member that replaces it exactly
   * when, at each place, all candidates end at the same member. The tie check compares the preferred candidates only.
   */
  lemma NoHiddenTieExactlyWhen<T>(members: seq<Member<T>>)
    requires ResolveSupersession(members).conflicts == []
    ensures NoHiddenTie(members) <==> CandidatesAgree(members)
  {
    NoConflictDecidesAll(members);
    if CandidatesAgree(members) {
      forall id, r | id in IdSet(members) && Resolve(members, id).ReplacedBy? && Unchallenged(members, r)
        && Reaches(members, id, r)
        ensures Resolve(members, id) == ReplacedBy(r)
      {
        var path: seq<TaskId> :| Chain(members, path) && path[0] == id && Last(path) == r && |path| > 1;
        ChainSharesEnd(members, path);
        ReachedIsMember(members, id, r);
        StandsExactlyWhenUnchallenged(members, r);
      }
    } else if NoHiddenTie(members) {
      forall id, c, d | id in IdSet(members) && c in Candidates(members, id) && d in Candidates(members, id)
        ensures End(members, c) == End(members, d)
      {
        CandidateEndIsReached(members, id, c);
        CandidateEndIsReached(members, id, d);
      }
      assert false;
    }
  }

  // ---- a condition on the declarations alone

  /** Following declarations never leads back. */
  ghost predicate Acyclic<T>(members: seq<Member<T>>)
  {
    forall id :: !Reaches(members, id, id)
  }

  /** Of any two members that replace the same one, one replaces the other, through however many declarations. */
  ghost predicate Comparable<T>(members: seq<Member<T>>)
  {
    forall id, c, d :: c != d && Declares(members, c, id) && Declares(members, d, id)
      ==> Reaches(members, c, d) || Reaches(members, d, c)
  }

  ghost function Above<T>(members: seq<Member<T>>, id: TaskId): set<TaskId>
  {
    set r | r in IdSet(members) && Reaches(members, id, r)
  }

  lemma ReachesTransitive<T>(members: seq<Member<T>>, a: TaskId, b: TaskId, c: TaskId)
    requires Reaches(members, a, b) && Reaches(members, b, c)
    ensures Reaches(members, a, c)
  {
    var p: seq<TaskId> :| Chain(members, p) && p[0] == a && Last(p) == b && |p| > 1;
    var q: seq<TaskId> :| Chain(members, q) && q[0] == b && Last(q) == c && |q| > 1;
    var path := p + q[1..];
    forall k | 0 <= k < |path| - 1 ensures Declares(members, path[k + 1], path[k]) {
      if k < |p| - 1 {
        assert Declares(members, p[k + 1], p[k]);
      } else {
        assert path[k] == q[k - |p| + 1] && path[k + 1] == q[k - |p| + 1 + 1];
        assert Declares(members, q[k - |p| + 1 + 1], q[k - |p| + 1]);
      }
    }
    assert Chain(members, path) && Last(path) == c;
  }

  lemma DeclaredIsReached<T>(members: seq<Member<T>>, a: TaskId, b: TaskId)
    requires Declares(members, b, a)
    ensures Reaches(members, a, b) && b in IdSet(members)
  {
    assert Chain(members, [a, b]) && Last([a, b]) == b;
  }

  /** The first declaration on the way. */
  lemma FirstStep<T>(members: seq<Member<T>>, a: TaskId, r: TaskId) returns (c: TaskId)
    requires Reaches(members, a, r)
    ensures Declares(members, c, a) && (c == r || Reaches(members, c, r))
  {
    var path: seq<TaskId> :| Chain(members, path) && path[0] == a && Last(path) == r && |path| > 1;
    RestOfChain(members, path);
    c := path[1];
    if |path| > 2 { assert Chain(members, path[1..]) && path[1..][0] == c && Last(path[1..]) == r; }
  }

  lemma StepShrinksAbove<T>(members: seq<Member<T>>, a: TaskId, c: TaskId)
    requires Acyclic(members) && Declares(members, c, a)
    ensures Above(members, c) < Above(members, a)
  {
    DeclaredIsReached(members, a, c);
    forall r | r in Above(members, c) ensures r in Above(members, a) { ReachesTransitive(members, a, c, r); }
    assert c in Above(members, a) && c !in Above(members, c);
  }

  /** Two standing members that replace the same one are the same member. */
  lemma {:induction false} OneStandingAbove<T>(members: seq<Member<T>>, id: TaskId, r: TaskId, t: TaskId)
    requires Acyclic(members) && Comparable(members)
    requires Unchallenged(members, r) && Unchallenged(members, t) && Reaches(members, id, r) && Reaches(members, id, t)
    ensures r == t
    decreases Above(members, id)
  {
    var c := FirstStep(members, id, r);
    var d := FirstStep(members, id, t);
    StepShrinksAbove(members, id, c);
    StepShrinksAbove(members, id, d);
    if c != d {
      if Reaches(members, c, d) {
        AboveBoth(members, c, d, r, t);
        OneStandingAbove(members, c, r, t);
      } else {
        AboveBoth(members, d, c, t, r);
        OneStandingAbove(members, d, r, t);
      }
    } else if c != r && c != t {
      OneStandingAbove(members, c, r, t);
    } else {
      NothingAboveStanding(members, c);
    }
  }

  lemma NothingAboveStanding<T>(members: seq<Member<T>>, r: TaskId)
    requires Acyclic(members) && Unchallenged(members, r)
    ensures forall t :: !Reaches(members, r, t)
  {
    if t :| Reaches(members, r, t) {
      var c := FirstStep(members, r, t);
      DeclaredIsReached(members, r, c);
      assert false;
    }
  }

  /** Where one replaces the other, it reaches whatever either does. */
  lemma AboveBoth<T>(members: seq<Member<T>>, c: TaskId, d: TaskId, r: TaskId, t: TaskId)
    requires Acyclic(members) && Reaches(members, c, d) && Unchallenged(members, r)
    requires c == r || Reaches(members, c, r)
    requires d == t || Reaches(members, d, t)
    ensures Reaches(members, c, r) && Reaches(members, c, t)
  {
    if c == r { NothingAboveStanding(members, r); }
    if d != t { ReachesTransitive(members, c, d, t); }
  }

  /** On declarations that never lead back and of which any two rivals are links of one chain, nothing stays hidden. */
  lemma ChainsHideNoTie<T>(members: seq<Member<T>>)
    requires Acyclic(members) && Comparable(members)
    ensures NoHiddenTie(members)
  {
    forall id, r | id in IdSet(members) && Resolve(members, id).ReplacedBy? && Unchallenged(members, r)
      && Reaches(members, id, r)
      ensures Resolve(members, id) == ReplacedBy(r)
    {
      ResolveIsSound(members, id);
      OneStandingAbove(members, id, Resolve(members, id).id, r);
    }
  }

  function Tie(): seq<Member<nat>>
  {
    [Member(1, [], 0)] + [Member(2, [1], 0)] + [Member(3, [1], 0)] + [Member(4, [3], 0)]
  }

  ghost predicate HasTie(t: seq<Member<nat>>)
  {
    && (forall i :: 0 <= i < |t| ==> 1 <= t[i].id <= 4)
    && (forall id: TaskId :: Superseders(t, id) == if id == 1 then [2, 3] else if id == 3 then [4] else [])
  }

  lemma TieHasTie()
    ensures HasTie(Tie())
  {
    forall id: TaskId
      ensures Superseders(Tie(), id) == if id == 1 then [2, 3] else if id == 3 then [4] else []
    {
      TieSuperseders(id);
    }
  }

  lemma TieSuperseders(target: TaskId)
    ensures Superseders(Tie(), target) == if target == 1 then [2, 3] else if target == 3 then [4] else []
  {
    var m1, m2, m3, m4 := Member(1, [], 0), Member(2, [1], 0), Member(3, [1], 0), Member(4, [3], 0);
    var none: seq<Member<nat>> := [];
    SupersedersOfOneMore(none, m1, target);
    SupersedersOfOneMore([m1], m2, target);
    SupersedersOfOneMore([m1] + [m2], m3, target);
    SupersedersOfOneMore([m1] + [m2] + [m3], m4, target);
    assert none + [m1] == [m1];
    assert Repeat(m1.id, Times(m1.supersedes, target)) == [];
    assert Repeat(m2.id, Times(m2.supersedes, target)) == if target == 1 then [2] else [];
    assert Repeat(m3.id, Times(m3.supersedes, target)) == if target == 1 then [3] else [];
    assert Repeat(m4.id, Times(m4.supersedes, target)) == if target == 3 then [4] else [];
  }

  lemma FilterShort(a: TaskId, b: TaskId, p: TaskId -> bool)
    ensures Filter([a], p) == if p(a) then [a] else []
    ensures Filter([a, b], p) == (if p(a) then [a] else []) + (if p(b) then [b] else [])
  {
    assert [a][1..] == [] && [b][1..] == [] && [a, b][1..] == [b];
    assert Filter([b], p) == if p(b) then [b] else [];
  }

  lemma TieChoices(t: seq<Member<nat>>)
    requires HasTie(t)
    ensures Chosen(t, 1) == [2] && Chosen(t, 2) == [] && Chosen(t, 3) == [4] && Chosen(t, 4) == []
  {
    FilterShort(2, 3, Competes(t, 1));
    FilterShort(2, 3, Final(t));
    FilterShort(4, 4, Competes(t, 3));
    FilterShort(4, 4, Final(t));
  }

  lemma TieStandings(t: seq<Member<nat>>)
    requires Chosen(t, 1) == [2] && Chosen(t, 2) == [] && Chosen(t, 3) == [4] && Chosen(t, 4) == []
    ensures Resolve(t, 1) == ReplacedBy(2) && Resolve(t, 2) == Stands && Resolve(t, 3) == ReplacedBy(4)
        && Resolve(t, 4) == Stands
  {
    assert Walk(t, 3, 4, {3, 4}) == ReplacedBy(4);
    assert Walk(t, 1, 2, {1, 2}) == ReplacedBy(2);
    assert {3} + {4} == {3, 4} && {1} + {2} == {1, 2};
  }

  /**
   * The tie check looks one link ahead only. Here 1 is replaced by 2, and also by 3 which 4 replaces: both 2 and 4
   * stand for 1 through declared replacements, yet no conflict is reported and 2 is taken.
   */
  lemma DeeperTieIsNotReported()
    ensures ResolveSupersession(Tie()).conflicts == []
    ensures Resolve(Tie(), 1) == ReplacedBy(2) && Resolve(Tie(), 2) == Stands && Resolve(Tie(), 4) == Stands
    ensures Reaches(Tie(), 1, 2) && Reaches(Tie(), 1, 4)
    ensures !NoHiddenTie(Tie())
  {
    TieHasTie();
    TieResolution(Tie());
    assert Tie()[0].id == 1;
    TieIsHidden(Tie());
  }

  lemma TieIsHidden(t: seq<Member<nat>>)
    requires 1 in IdSet(t) && Resolve(t, 1) == ReplacedBy(2) && Resolve(t, 4) == Stands && Reaches(t, 1, 4)
    ensures !NoHiddenTie(t)
  {
    StandsExactlyWhenUnchallenged(t, 4);
  }

  lemma TieResolution(t: seq<Member<nat>>)
    requires HasTie(t)
    ensures ResolveSupersession(t).conflicts == []
    ensures Resolve(t, 1) == ReplacedBy(2) && Resolve(t, 2) == Stands && Resolve(t, 4) == Stands
    ensures Reaches(t, 1, 2) && Reaches(t, 1, 4)
  {
    TieChoices(t);
    TieStandings(t);
    TieIsDecided(t);
    TieChains(t);
  }

  lemma TieIsDecided(t: seq<Member<nat>>)
    requires HasTie(t)
    ensures ResolveSupersession(t).conflicts == []
  {
    TieChoices(t);
    TieStandings(t);
    forall i | 0 <= i < |t| ensures IfUndecided(t)(t[i]) == [] {
      var id := t[i].id;
      if id == 1 { } else if id == 2 { } else if id == 3 { } else { assert id == 4; }
    }
    FlatMapEmpty(IfUndecided(t), t);
  }

  lemma TieChains(t: seq<Member<nat>>)
    requires Superseders(t, 1) == [2, 3] && Superseders(t, 3) == [4]
    ensures Reaches(t, 1, 2) && Reaches(t, 1, 4)
  {
    assert 2 in Superseders(t, 1) && 3 in Superseders(t, 1) && 4 in Superseders(t, 3);
    var short: seq<TaskId>, long: seq<TaskId> := [1, 2], [1, 3, 4];
    assert Chain(t, short) && short[0] == 1 && Last(short) == 2;
    assert Chain(t, long) && long[0] == 1 && Last(long) == 4;
  }
}
