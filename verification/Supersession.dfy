/** Which members of an epic compose the released system, given what supersedes what. */
module Supersession {
  import opened Common
  import opened Records

  /** An epic member, with the targets of its SUPERSEDES relationships in the order they are written. */
  datatype Member<+T> = Member(id: TaskId, supersedes: seq<TaskId>, facts: T)

  datatype Conflict = Ambiguous(at: TaskId) | Cycle(from: TaskId)

  /** Where a member's chain of replacements leads. */
  datatype Standing = Stands | ReplacedBy(id: TaskId) | Undecided(conflict: Conflict)

  function IdSet<T>(members: seq<Member<T>>): set<TaskId>
  {
    set i | 0 <= i < |members| :: members[i].id
  }

  function Repeat(id: TaskId, n: nat): (r: seq<TaskId>)
    ensures forall x :: x in r <==> x == id && n > 0
  {
    assert n > 0 ==> seq(n, _ => id)[0] == id;
    seq(n, _ => id)
  }

  /** How many times `t` occurs. */
  function Times(s: seq<TaskId>, t: TaskId): (n: nat)
    ensures n > 0 <==> t in s
  {
    if s == [] then 0 else Times(s[..|s| - 1], t) + if Last(s) == t then 1 else 0
  }

  /** Who declares to supersede `target`: once per declaration, in member order. */
  function Superseders<T>(members: seq<Member<T>>, target: TaskId): (r: seq<TaskId>)
    ensures forall id :: id in r <==> Declares(members, id, target)
  {
    if members == [] then []
    else
      var init := members[..|members| - 1];
      assert forall id :: Declares(members, id, target) <==>
          Declares(init, id, target) || (Last(members).id == id && target in Last(members).supersedes) by
      {
        assert members == init + [Last(members)];
        assert forall i :: 0 <= i < |init| ==> init[i] == members[i];
      }
      Superseders(init, target) + Repeat(Last(members).id, Times(Last(members).supersedes, target))
  }

  predicate Declares<T>(members: seq<Member<T>>, id: TaskId, target: TaskId)
  {
    exists i :: 0 <= i < |members| && members[i].id == id && target in members[i].supersedes
  }

  /** The members competing to replace `id`; a member never competes for its own place. */
  function Candidates<T>(members: seq<Member<T>>, id: TaskId): seq<TaskId>
  {
    Filter(Superseders(members, id), Competes(members, id))
  }

  function Competes<T>(members: seq<Member<T>>, id: TaskId): TaskId -> bool
  {
    (c: TaskId) => Superseders(members, c) == [] || c != id
  }

  function Final<T>(members: seq<Member<T>>): TaskId -> bool
  {
    (c: TaskId) => Superseders(members, c) == []
  }

  /** Candidates that nothing supersedes are preferred to links of a longer chain. */
  function Chosen<T>(members: seq<Member<T>>, id: TaskId): seq<TaskId>
  {
    var active := Filter(Candidates(members, id), Final(members));
    if active != [] then active else Candidates(members, id)
  }

  /** No other member of the epic declares to supersede it. */
  ghost predicate Unchallenged<T>(members: seq<Member<T>>, id: TaskId)
  {
    forall other :: other != id ==> !Declares(members, other, id)
  }

  lemma CandidatesAreTheOthers<T>(members: seq<Member<T>>, id: TaskId)
    ensures forall c :: c in Candidates(members, id) <==> c != id && Declares(members, c, id)
    ensures forall c :: c in Chosen(members, id) ==> c in Candidates(members, id) && c in IdSet(members)
    ensures Chosen(members, id) == [] <==> Unchallenged(members, id)
  {
    assert forall c :: c in Superseders(members, c) ==> Superseders(members, c) != [];
    var candidates := Candidates(members, id);
    assert candidates != [] ==> candidates[0] in candidates;
  }

  /** No member of the epic, not even itself, declares to supersede it. */
  ghost predicate NeverSuperseded<T>(members: seq<Member<T>>, id: TaskId)
  {
    forall other :: !Declares(members, other, id)
  }

  /** A member that may take the place: another one, and one that is not superseded itself when there is such a one. */
  ghost predicate Chooser<T>(members: seq<Member<T>>, c: TaskId, at: TaskId)
  {
    && c != at && Declares(members, c, at)
    && (NeverSuperseded(members, c) || forall d :: d != at && Declares(members, d, at) ==> !NeverSuperseded(members, d))
  }

  /** How often the members of one identifier declare to supersede the target. */
  function Declarations<T>(members: seq<Member<T>>, c: TaskId, target: TaskId): nat
  {
    if members == [] then 0
    else Declarations(members[..|members| - 1], c, target)
         + if Last(members).id == c then Times(Last(members).supersedes, target) else 0
  }

  /**
   * Two members may take the place, or one that says so more than once: the relationships of a task may repeat a
   * target.
   */
  ghost predicate Tied<T>(members: seq<Member<T>>, at: TaskId)
  {
    || (exists c, d :: c != d && Chooser(members, c, at) && Chooser(members, d, at))
    || (exists c :: Chooser(members, c, at) && Declarations(members, c, at) > 1)
  }

  lemma TimesAppend(s: seq<TaskId>, t: seq<TaskId>, x: TaskId)
    ensures Times(s + t, x) == Times(s, x) + Times(t, x)
    decreases |t|
  {
    if t == [] {
      assert s + t == s;
    } else {
      assert (s + t)[..|s + t| - 1] == s + t[..|t| - 1];
      TimesAppend(s, t[..|t| - 1], x);
    }
  }

  lemma {:induction false} TimesRepeat(id: TaskId, n: nat, x: TaskId)
    ensures Times(Repeat(id, n), x) == if x == id then n else 0
  {
    if n > 0 {
      assert Repeat(id, n)[..n - 1] == Repeat(id, n - 1);
      TimesRepeat(id, n - 1, x);
    }
  }

  lemma {:induction false} DeclarationsAreTimes<T>(members: seq<Member<T>>, c: TaskId, target: TaskId)
    ensures Times(Superseders(members, target), c) == Declarations(members, c, target)
  {
    if members != [] {
      var init, m := members[..|members| - 1], Last(members);
      DeclarationsAreTimes(init, c, target);
      TimesAppend(Superseders(init, target), Repeat(m.id, Times(m.supersedes, target)), c);
      TimesRepeat(m.id, Times(m.supersedes, target), c);
    }
  }

  lemma {:induction false} TimesFiltered(s: seq<TaskId>, p: TaskId -> bool, x: TaskId)
    requires p(x)
    ensures Times(Filter(s, p), x) == Times(s, x)
  {
    if s != [] {
      assert s == [s[0]] + s[1..];
      TimesAppend([s[0]], s[1..], x);
      TimesAppend([s[0]], Filter(s[1..], p), x);
      TimesFiltered(s[1..], p, x);
    }
  }

  lemma {:induction false} TimesAtMostLength(s: seq<TaskId>, x: TaskId)
    ensures Times(s, x) <= |s|
  {
    if s != [] { TimesAtMostLength(s[..|s| - 1], x); }
  }

  lemma EndsAlike(s: seq<TaskId>)
    requires |s| > 1 && Last(s) == s[0]
    ensures Times(s, s[0]) > 1
  {
    var init := s[..|s| - 1];
    assert init[0] == s[0];
    assert Times(init, s[0]) > 0;
  }

  lemma ChosenAreChoosers<T>(members: seq<Member<T>>, at: TaskId, c: TaskId)
    ensures c in Chosen(members, at) <==> Chooser(members, c, at)
    ensures c in Chosen(members, at) ==> Times(Chosen(members, at), c) == Declarations(members, c, at)
  {
    CandidatesAreTheOthers(members, at);
    assert forall d :: Superseders(members, d) == [] <==> NeverSuperseded(members, d) by { NothingDeclared(members); }
    var candidates := Candidates(members, at);
    var active := Filter(candidates, Final(members));
    assert active != [] ==> active[0] in active;
    if c in Chosen(members, at) {
      DeclarationsAreTimes(members, c, at);
      TimesFiltered(Superseders(members, at), Competes(members, at), c);
      if active != [] { TimesFiltered(candidates, Final(members), c); }
    }
  }

  lemma NothingDeclared<T>(members: seq<Member<T>>)
    ensures forall d :: Superseders(members, d) == [] <==> NeverSuperseded(members, d)
  {
    forall d ensures Superseders(members, d) == [] <==> NeverSuperseded(members, d) {
      if Superseders(members, d) != [] { assert Superseders(members, d)[0] in Superseders(members, d); }
    }
  }

  lemma TwoElements(s: seq<TaskId>, c: TaskId, d: TaskId)
    requires c in s && d in s
    ensures c != d ==> |s| > 1
  {
  }

  lemma ManyChoicesTie<T>(members: seq<Member<T>>, at: TaskId)
    requires |Chosen(members, at)| > 1
    ensures Tied(members, at)
  {
    var chosen := Chosen(members, at);
    var c, d := chosen[0], Last(chosen);
    assert c in chosen && d in chosen;
    ChosenAreChoosers(members, at, c);
    ChosenAreChoosers(members, at, d);
    if c == d { EndsAlike(chosen); }
  }

  lemma TiedMakesManyChoices<T>(members: seq<Member<T>>, at: TaskId, c: TaskId, d: TaskId)
    requires Chooser(members, c, at) && Chooser(members, d, at) && (c == d ==> Declarations(members, c, at) > 1)
    ensures |Chosen(members, at)| > 1
  {
    var chosen := Chosen(members, at);
    ChosenAreChoosers(members, at, c);
    ChosenAreChoosers(members, at, d);
    TimesAtMostLength(chosen, c);
    TwoElements(chosen, c, d);
  }

  /** The walk sees more than one choice exactly when the place is tied. */
  lemma ChoicesExactlyWhenTied<T>(members: seq<Member<T>>, at: TaskId)
    ensures |Chosen(members, at)| > 1 <==> Tied(members, at)
  {
    if |Chosen(members, at)| > 1 {
      ManyChoicesTie(members, at);
    } else if Tied(members, at) {
      if c, d :| c != d && Chooser(members, c, at) && Chooser(members, d, at) {
        TiedMakesManyChoices(members, at, c, d);
      } else {
        var c :| Chooser(members, c, at) && Declarations(members, c, at) > 1;
        TiedMakesManyChoices(members, at, c, c);
      }
      assert false;
    }
  }

  /** Follows replacements from `current`; `seen` are the members already on the chain from `start`. */
  function Walk<T>(members: seq<Member<T>>, start: TaskId, current: TaskId, seen: set<TaskId>): Standing
    decreases IdSet(members) - seen
  {
    CandidatesAreTheOthers(members, current);
    var chosen := Chosen(members, current);
    if chosen == [] then if current == start then Stands else ReplacedBy(current)
    else if |chosen| > 1 then Undecided(Ambiguous(current))
    else if chosen[0] in seen then Undecided(Cycle(start))
    else
      assert chosen[0] in IdSet(members) - seen;
      Walk(members, start, chosen[0], seen + {chosen[0]})
  }

  function Resolve<T>(members: seq<Member<T>>, id: TaskId): Standing
  {
    Walk(members, id, id, {id})
  }

  /** A chain of SUPERSEDES declarations: each member of the path is declared superseded by the next. */
  ghost predicate Chain<T>(members: seq<Member<T>>, path: seq<TaskId>)
  {
    path != [] && forall k :: 0 <= k < |path| - 1 ==> Declares(members, path[k + 1], path[k])
  }

  ghost predicate Reaches<T>(members: seq<Member<T>>, from: TaskId, to: TaskId)
  {
    exists path: seq<TaskId> :: Chain(members, path) && path[0] == from && Last(path) == to && |path| > 1
  }

  /** What each standing asserts about the declared relationships. */
  ghost predicate Justified<T>(members: seq<Member<T>>, start: TaskId, standing: Standing)
  {
    match standing
    case Stands => Unchallenged(members, start)
    case ReplacedBy(id) => id != start && Unchallenged(members, id) && Reaches(members, start, id)
    case Undecided(Ambiguous(at)) => Tied(members, at) && (at == start || Reaches(members, start, at))
    case Undecided(Cycle(from)) =>
      from == start && exists id :: (id == start || Reaches(members, start, id)) && Reaches(members, id, id)
  }

  lemma ChainGrows<T>(members: seq<Member<T>>, path: seq<TaskId>, next: TaskId)
    requires Chain(members, path) && Declares(members, next, Last(path))
    ensures Chain(members, path + [next])
  {
  }

  lemma {:induction false} WalkFollowsChain<T>(members: seq<Member<T>>, start: TaskId, current: TaskId,
      seen: set<TaskId>, path: seq<TaskId>)
    requires Chain(members, path) && path[0] == start && Last(path) == current
    requires forall id :: id in seen <==> id in path
    requires start == current <==> |path| == 1
    ensures Justified(members, start, Walk(members, start, current, seen))
    decreases IdSet(members) - seen
  {
    CandidatesAreTheOthers(members, current);
    ChoicesExactlyWhenTied(members, current);
    var chosen := Chosen(members, current);
    if chosen != [] && |chosen| == 1 {
      var next := chosen[0];
      assert next in chosen && Declares(members, next, current);
      if next in seen {
        LoopReaches(members, path, next);
      } else {
        assert path[0] in path;
        ChainGrows(members, path, next);
        WalkFollowsChain(members, start, next, seen + {next}, path + [next]);
      }
    }
  }

  lemma LoopReaches<T>(members: seq<Member<T>>, path: seq<TaskId>, next: TaskId)
    requires Chain(members, path) && next in path && Declares(members, next, Last(path))
    ensures Reaches(members, next, next) && (next == path[0] || Reaches(members, path[0], next))
  {
    var k :| 0 <= k < |path| && path[k] == next;
    if k > 0 { assert Chain(members, path[..k + 1]) && Last(path[..k + 1]) == next; }
    var loop := path[k..] + [next];
    assert Chain(members, loop) && loop[0] == next && Last(loop) == next;
  }

  /**
   * A replacement is never provisional: it stands itself, is another member, and is reached by a chain of
   * declared replacements. A cycle is only reported when the member's own chain leads into one. A tie is only reported
   * on its chain, at a place for which two members compete or which one member claims more than once.
   */
  lemma ResolveIsSound<T>(members: seq<Member<T>>, id: TaskId)
    ensures Justified(members, id, Resolve(members, id))
    ensures forall r :: Resolve(members, id) == ReplacedBy(r) ==> r in IdSet(members) && Resolve(members, r) == Stands
  {
    WalkFollowsChain(members, id, id, {id}, [id]);
    var standing := Resolve(members, id);
    if standing.ReplacedBy? {
      CandidatesAreTheOthers(members, standing.id);
      var path: seq<TaskId> :| Chain(members, path) && path[0] == id && Last(path) == standing.id && |path| > 1;
      assert Declares(members, path[|path| - 2 + 1], path[|path| - 2]);
    }
  }

  /** A walk that starts at a tied place reports it, and reports that place for no other reason. */
  lemma TieReportedExactlyWhen<T>(members: seq<Member<T>>, at: TaskId)
    ensures Resolve(members, at) == Undecided(Ambiguous(at)) <==> Tied(members, at)
  {
    ResolveIsSound(members, at);
    ChoicesExactlyWhenTied(members, at);
  }

  /** Whenever the chain of a member can be decided, it stands exactly when no other member supersedes it. */
  lemma StandsExactlyWhenUnchallenged<T>(members: seq<Member<T>>, id: TaskId)
    requires !Resolve(members, id).Undecided?
    ensures Resolve(members, id) == Stands <==> Unchallenged(members, id)
  {
    ResolveIsSound(members, id);
    CandidatesAreTheOthers(members, id);
  }

  /** Standings depend on identifiers and declarations only, never on what else is known of a member. */
  lemma SameRelationsSameStanding<T>(a: seq<Member<T>>, b: seq<Member<T>>, id: TaskId)
    requires SameRelations(a, b)
    ensures Resolve(a, id) == Resolve(b, id)
  {
    forall t: TaskId ensures Superseders(a, t) == Superseders(b, t) { SameSuperseders(a, b, t); }
    assert forall i :: 0 <= i < |a| ==> a[i].id == b[i].id;
    assert IdSet(a) == IdSet(b);
    forall t: TaskId ensures Chosen(a, t) == Chosen(b, t) {
      FilterAgrees(Superseders(a, t), Competes(a, t), Competes(b, t));
      FilterAgrees(Candidates(a, t), Final(a), Final(b));
    }
    SameWalk(a, b, id, id, {id});
  }

  ghost predicate SameRelations<T>(a: seq<Member<T>>, b: seq<Member<T>>)
  {
    |a| == |b| && forall i :: 0 <= i < |a| ==> a[i].id == b[i].id && a[i].supersedes == b[i].supersedes
  }

  lemma {:induction false} SameSuperseders<T>(a: seq<Member<T>>, b: seq<Member<T>>, t: TaskId)
    requires SameRelations(a, b)
    ensures Superseders(a, t) == Superseders(b, t)
  {
    if a != [] { SameSuperseders(a[..|a| - 1], b[..|b| - 1], t); }
  }

  lemma {:induction false} SameWalk<T>(a: seq<Member<T>>, b: seq<Member<T>>, start: TaskId, current: TaskId,
      seen: set<TaskId>)
    requires IdSet(a) == IdSet(b) && forall t :: Chosen(a, t) == Chosen(b, t)
    ensures Walk(a, start, current, seen) == Walk(b, start, current, seen)
    decreases IdSet(a) - seen
  {
    CandidatesAreTheOthers(a, current);
    var chosen := Chosen(a, current);
    if |chosen| == 1 && chosen[0] !in seen {
      assert chosen[0] in IdSet(a) - seen;
      SameWalk(a, b, start, chosen[0], seen + {chosen[0]});
    }
  }

  // ---- the resolution of a whole epic

  datatype Resolution<+T> = Resolution(effective: seq<Member<T>>, superseded: seq<(Member<T>, TaskId)>,
      conflicts: seq<Conflict>)

  /** What one member adds to each part of the resolution. */
  function IfEffective<T>(members: seq<Member<T>>): Member<T> -> seq<Member<T>>
  {
    (m: Member<T>) => if Resolve(members, m.id).ReplacedBy? then [] else [m]
  }

  function IfSuperseded<T>(members: seq<Member<T>>): Member<T> -> seq<(Member<T>, TaskId)>
  {
    (m: Member<T>) => match Resolve(members, m.id) case ReplacedBy(r) => [(m, r)] case _ => []
  }

  function IfUndecided<T>(members: seq<Member<T>>): Member<T> -> seq<Conflict>
  {
    (m: Member<T>) => match Resolve(members, m.id) case Undecided(c) => [c] case _ => []
  }

  function ResolveSupersession<T>(members: seq<Member<T>>): Resolution<T>
  {
    Resolution(FlatMap(IfEffective(members), members), FlatMap(IfSuperseded(members), members),
        FlatMap(IfUndecided(members), members))
  }

  // ---- the loops of the source

  function Lookup(index: map<TaskId, seq<TaskId>>, id: TaskId): seq<TaskId>
  {
    if id in index then index[id] else []
  }

  /** Records every declaration whose target belongs to the epic, under its target. */
  method IndexSuperseders<T>(members: seq<Member<T>>) returns (index: map<TaskId, seq<TaskId>>)
    ensures forall id :: id in IdSet(members) ==> Lookup(index, id) == Superseders(members, id)
  {
    index := map[];
    var ids := IdSet(members);
    for i := 0 to |members|
      invariant forall id :: id in ids ==> Lookup(index, id) == Superseders(members[..i], id)
    {
      index := IndexDeclarations(index, members[i].id, members[i].supersedes, ids);
      assert members[..i + 1][..i] == members[..i];
    }
    assert members[..|members|] == members;
  }

  lemma DeclaredOnceMore(id: TaskId, targets: seq<TaskId>, j: nat, t: TaskId)
    requires j < |targets|
    ensures Repeat(id, Times(targets[..j + 1], t)) ==
            Repeat(id, Times(targets[..j], t)) + if targets[j] == t then [id] else []
  {
    var n := Times(targets[..j], t);
    assert targets[..j + 1][..j] == targets[..j];
    assert Repeat(id, n + 1) == Repeat(id, n) + [id];
  }

  ghost predicate Indexed(before: map<TaskId, seq<TaskId>>, index: map<TaskId, seq<TaskId>>, id: TaskId,
      targets: seq<TaskId>, ids: set<TaskId>)
  {
    forall t :: t in ids ==> Lookup(index, t) == Lookup(before, t) + Repeat(id, Times(targets, t))
  }

  function WithDeclaration(index: map<TaskId, seq<TaskId>>, id: TaskId, target: TaskId, ids: set<TaskId>): map<TaskId,
      seq<TaskId>>
  {
    if target in ids then index[target := Lookup(index, target) + [id]] else index
  }

  lemma IndexStep(before: map<TaskId, seq<TaskId>>, index: map<TaskId, seq<TaskId>>, id: TaskId, targets: seq<TaskId>,
      j: nat, ids: set<TaskId>)
    requires j < |targets| && Indexed(before, index, id, targets[..j], ids)
    ensures Indexed(before, WithDeclaration(index, id, targets[j], ids), id, targets[..j + 1], ids)
  {
    var next := WithDeclaration(index, id, targets[j], ids);
    forall t | t in ids ensures Lookup(next, t) == Lookup(before, t) + Repeat(id, Times(targets[..j + 1], t)) {
      DeclaredOnceMore(id, targets, j, t);
      AppendTwice(Lookup(index, t), Lookup(before, t), Repeat(id, Times(targets[..j], t)), if targets[j] == t
        then [id] else []);
    }
  }

  lemma AppendTwice(whole: seq<TaskId>, a: seq<TaskId>, b: seq<TaskId>, c: seq<TaskId>)
    requires whole == a + b
    ensures whole + c == a + (b + c)
    ensures c == [] ==> whole == a + (b + c)
  {
  }

  method IndexDeclarations(before: map<TaskId, seq<TaskId>>, id: TaskId, targets: seq<TaskId>, ids: set<TaskId>)
    returns (index: map<TaskId, seq<TaskId>>)
    ensures Indexed(before, index, id, targets, ids)
  {
    index := before;
    assert targets[..0] == [];
    for j := 0 to |targets|
      invariant Indexed(before, index, id, targets[..j], ids)
    {
      IndexStep(before, index, id, targets, j, ids);
      index := WithDeclaration(index, id, targets[j], ids);
    }
    assert targets[..|targets|] == targets;
  }

  /** The walk of one member, over a prepared index. */
  method FollowChain<T>(members: seq<Member<T>>, index: map<TaskId, seq<TaskId>>,
      start: TaskId) returns (standing: Standing)
    requires start in IdSet(members)
    requires forall id :: id in IdSet(members) ==> Lookup(index, id) == Superseders(members, id)
    ensures standing == Resolve(members, start)
  {
    var seen, current, terminal := {start}, start, None;
    ghost var ids := IdSet(members);
    while true
      invariant current in ids && seen <= ids && start in seen && current in seen
      invariant terminal == if current == start then None else Some(current)
      invariant Walk(members, start, current, seen) == Resolve(members, start)
      decreases ids - seen
    {
      CandidatesAreTheOthers(members, current);
      var superseders := Lookup(index, current);
      SupersedersAreMembers(members, current);
      var candidates := Filter(superseders, (c: TaskId) => Lookup(index, c) == [] || c != current);
      FilterAgrees(superseders, (c: TaskId) => Lookup(index, c) == [] || c != current, Competes(members, current));
      if candidates == [] { break; }
      var active := Filter(candidates, (c: TaskId) => Lookup(index, c) == []);
      FilterAgrees(candidates, (c: TaskId) => Lookup(index, c) == [], Final(members));
      var chosen := if active != [] then active else candidates;
      if |chosen| > 1 { return Undecided(Ambiguous(current)); }
      var next := chosen[0];
      if next in seen { return Undecided(Cycle(start)); }
      seen, current, terminal := seen + {next}, next, Some(next);
    }
    standing := if terminal.Some? && terminal.value != start then ReplacedBy(terminal.value) else Stands;
  }

  lemma SupersedersAreMembers<T>(members: seq<Member<T>>, id: TaskId)
    ensures forall c :: c in Superseders(members, id) ==> c in IdSet(members)
  {
  }

  /** The resolution of the first members alone, each standing decided over all of them. */
  function ResolvedUpTo<T>(members: seq<Member<T>>, i: nat): Resolution<T>
    requires i <= |members|
  {
    Resolution(FlatMap(IfEffective(members), members[..i]), FlatMap(IfSuperseded(members), members[..i]),
               FlatMap(IfUndecided(members), members[..i]))
  }

  function Placed<T>(r: Resolution<T>, m: Member<T>, standing: Standing): Resolution<T>
  {
    match standing
    case ReplacedBy(other) => r.(superseded := r.superseded + [(m, other)])
    case Undecided(c) => r.(effective := r.effective + [m], conflicts := r.conflicts + [c])
    case Stands => r.(effective := r.effective + [m])
  }

  lemma NextPlaced<T>(members: seq<Member<T>>, i: nat)
    requires i < |members|
    ensures ResolvedUpTo(members, i + 1)
        == Placed(ResolvedUpTo(members, i), members[i], Resolve(members, members[i].id))
  {
    NextElement(IfEffective(members), members, i);
    NextElement(IfSuperseded(members), members, i);
    NextElement(IfUndecided(members), members, i);
  }

  method Supersede<T>(members: seq<Member<T>>) returns (r: Resolution<T>)
    ensures r == ResolveSupersession(members)
  {
    var index := IndexSuperseders(members);
    r := Resolution([], [], []);
    for i := 0 to |members|
      invariant r == ResolvedUpTo(members, i)
    {
      assert members[i].id in IdSet(members);
      var standing := FollowChain(members, index, members[i].id);
      NextPlaced(members, i);
      r := Placed(r, members[i], standing);
    }
    assert members[..|members|] == members;
  }

  function Firsts<A, B>(s: seq<(A, B)>): seq<A>
  {
    seq(|s|, i requires 0 <= i < |s| => s[i].0)
  }

  /** Every member is counted exactly once: as effective or as superseded. */
  lemma ResolutionPartitions<T>(members: seq<Member<T>>)
    ensures var r := ResolveSupersession(members);
            multiset(r.effective) + multiset(Firsts(r.superseded)) == multiset(members)
  {
    forall m: Member<T> | m in members
      ensures multiset(IfEffective(members)(m)) + multiset(Firsts(IfSuperseded(members)(m))) == multiset{m}
    {
      if Resolve(members, m.id).ReplacedBy? { assert Firsts(IfSuperseded(members)(m)) == [m]; }
    }
    SidesAddUp(IfEffective(members), IfSuperseded(members), members);
  }

  lemma {:induction false} SidesAddUp<A, B>(f: A -> seq<A>, g: A -> seq<(A, B)>, s: seq<A>)
    requires forall x :: x in s ==> multiset(f(x)) + multiset(Firsts(g(x))) == multiset{x}
    ensures multiset(FlatMap(f, s)) + multiset(Firsts(FlatMap(g, s))) == multiset(s)
  {
    if s != [] {
      var init, x := s[..|s| - 1], Last(s);
      SidesAddUp(f, g, init);
      assert s == init + [x];
      assert x in s && forall y :: y in init ==> y in s;
      AddSides(FlatMap(f, init), f(x), FlatMap(g, init), g(x));
    }
  }

  lemma AddSides<A, B>(e0: seq<A>, e1: seq<A>, s0: seq<(A, B)>, s1: seq<(A, B)>)
    ensures multiset(e0 + e1) + multiset(Firsts(s0 + s1)) ==
            (multiset(e0) + multiset(Firsts(s0))) + (multiset(e1) + multiset(Firsts(s1)))
  {
    assert Firsts(s0 + s1) == Firsts(s0) + Firsts(s1);
  }

  lemma EffectiveMembers<T>(members: seq<Member<T>>, m: Member<T>)
    requires m in members
    ensures m in ResolveSupersession(members).effective <==> !Resolve(members, m.id).ReplacedBy?
  {
    KeptMember(IfEffective(members), members, m);
  }

  /** With no conflict reported, a member is effective exactly when no other member of the epic supersedes it. */
  lemma EffectiveExactlyWhenUnchallenged<T>(members: seq<Member<T>>, m: Member<T>)
    requires ResolveSupersession(members).conflicts == [] && m in members
    ensures m in ResolveSupersession(members).effective <==> Unchallenged(members, m.id)
  {
    FlatMapEmpty(IfUndecided(members), members);
    var i :| 0 <= i < |members| && members[i] == m;
    assert IfUndecided(members)(members[i]) == [];
    assert !Resolve(members, m.id).Undecided?;
    StandsExactlyWhenUnchallenged(members, m.id);
    EffectiveMembers(members, m);
  }

  lemma TieOfMember<T>(members: seq<Member<T>>, m: Member<T>, at: TaskId)
    requires m in members && Resolve(members, m.id) == Undecided(Ambiguous(at))
    ensures at in IdSet(members) && Tied(members, at)
  {
    ResolveIsSound(members, m.id);
    if at != m.id { ReachedIsMember(members, m.id, at); }
  }

  /** A conflict of the resolution is the standing of some member. */
  lemma ReportedBy<T>(members: seq<Member<T>>, c: Conflict) returns (m: Member<T>)
    requires c in ResolveSupersession(members).conflicts
    ensures m in members && Resolve(members, m.id) == Undecided(c)
  {
    m := FlatMapSource(IfUndecided(members), members, c);
    var conflict :| [conflict] == IfUndecided(members)(m);
  }

  lemma Reports<T>(members: seq<Member<T>>, i: nat, c: Conflict)
    requires i < |members| && Resolve(members, members[i].id) == Undecided(c)
    ensures c in ResolveSupersession(members).conflicts
  {
    FlatMapMember(IfUndecided(members), members, c);
    assert IfUndecided(members)(members[i]) == [c];
  }

  /** Over the whole epic: the places reported as tied are exactly the members that are. */
  lemma AmbiguityReportedExactlyWhen<T>(members: seq<Member<T>>, at: TaskId)
    ensures Ambiguous(at) in ResolveSupersession(members).conflicts <==> at in IdSet(members) && Tied(members, at)
  {
    if Ambiguous(at) in ResolveSupersession(members).conflicts {
      var m := ReportedBy(members, Ambiguous(at));
      TieOfMember(members, m, at);
    }
    if at in IdSet(members) && Tied(members, at) {
      TieReportedExactlyWhen(members, at);
      var i :| 0 <= i < |members| && members[i].id == at;
      Reports(members, i, Ambiguous(at));
    }
  }

  lemma ReachedIsMember<T>(members: seq<Member<T>>, id: TaskId, to: TaskId)
    requires Reaches(members, id, to)
    ensures to in IdSet(members)
  {
    var path: seq<TaskId> :| Chain(members, path) && path[0] == id && Last(path) == to && |path| > 1;
    assert Declares(members, path[|path| - 2 + 1], path[|path| - 2]);
  }

  lemma SupersedersOfOneMore<T>(members: seq<Member<T>>, m: Member<T>, target: TaskId)
    ensures Superseders(members + [m], target)
        == Superseders(members, target) + Repeat(m.id, Times(m.supersedes, target))
  {
    assert (members + [m])[..|members|] == members;
  }

  function SaidTwice(): seq<Member<nat>>
  {
    [Member(1, [], 0)] + [Member(2, [1, 1], 0)]
  }

  /** One replacement that lists its target twice is reported as an ambiguity, though nothing competes with it. */
  lemma RepeatedDeclarationIsATie()
    ensures Resolve(SaidTwice(), 1) == Undecided(Ambiguous(1))
    ensures forall c :: Declares(SaidTwice(), c, 1) ==> c == 2
  {
    var m1: Member<nat>, m2: Member<nat> := Member(1, [], 0), Member(2, [1, 1], 0);
    assert SaidTwice()[..1] == [m1];
    var none: seq<TaskId>, empty: seq<Member<nat>> := [], [];
    assert [m1][..0] == empty && [1, 1][..1] == [1] && [1][..0] == none;
    assert Times(none, 1) == 0 && Times([1], 1) == 1 && Times([1, 1], 1) == 2;
    assert Declarations(empty, 2, 1) == 0 && Declarations([m1], 2, 1) == 0;
    assert Declarations(SaidTwice(), 2, 1) == 2;
    assert SaidTwice()[1] == m2 && Declares(SaidTwice(), 2, 1);
    assert NeverSuperseded(SaidTwice(), 2);
    assert Chooser(SaidTwice(), 2, 1);
    TieReportedExactlyWhen(SaidTwice(), 1);
  }
}
