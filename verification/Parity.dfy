/** Behavioural parity: pairing the steps of two runs and reporting every way a pair disagrees. */
module Parity {
  import opened Common
  import opened Ordering
  import opened Json
  import opened Normalize
  import opened Differing

  const MAX_DIFFERENCES: nat := 500
  const BODY_PATHS: int := 5

  datatype ComparableStep = ComparableStep(
    scenario: string, index: int, step: string, verb: string, path: string, status: string,
    httpStatus: Option<int>, contentType: Option<string>, body: Option<Json>, bodyTruncated: bool)
  {
    /** Steps are paired by scenario and position. */
    function Key(): (string, int) { (scenario, index) }

    function Label(): string { if step != "" then step else verb + " " + path }
  }

  datatype Kind = MissingInSubject | MissingInReference | OutcomeDiffers | StatusDiffers | ContentTypeDiffers
      | BodyDiffers | Uncompared

  /** What a difference shows of one side. */
  datatype Side = Nothing | Text(text: string) | Status(code: int) | Value(json: Json)

  datatype Found = Found(path: seq<PathStep>, reference: Side, subject: Side)

  datatype StepDifference = StepDifference(scenario: string, title: string, kind: Kind, found: Found)

  datatype Report = Report(
    matches: bool, comparedSteps: nat, matchedSteps: nat, uncomparedSteps: nat,
    differences: seq<StepDifference>, differenceCount: nat)

  function NormalizedBody(body: Option<Json>): Option<Json>
  {
    if body.None? then None else Some(NormalizeBody(body.value, None))
  }

  function BodySide(body: Option<Json>): Side { if body.None? then Nothing else Value(body.value) }

  function StatusSide(status: Option<int>): Side { if status.None? then Text("<none>") else Status(status.value) }

  function TypeSide(contentType: Option<string>): Side
  {
    Text(if contentType.None? then "<none>" else contentType.value)
  }

  function TruncationSide(truncated: bool): Side { Text(if truncated then "<truncated>" else "<complete>") }

  /** Where two normalized bodies differ and how; an absent body equals only an absent body. */
  function BodyFound(left: Option<Json>, right: Option<Json>): seq<Found>
  {
    if left.None? && right.None? then []
    else if left.None? || right.None? then [Found([], BodySide(left), BodySide(right))]
    else AllFound(Differences(left.value, right.value, [], BODY_PATHS))
  }

  function AllFound(ds: seq<Difference>): (r: seq<Found>)
    ensures |r| == |ds|
    ensures forall i :: 0 <= i < |r| ==> r[i] == Found(ds[i].path, Value(ds[i].reference), Value(ds[i].subject))
  {
    if ds == [] then []
    else [Found(ds[0].path, Value(ds[0].reference), Value(ds[0].subject))] + AllFound(ds[1..])
  }

  function BodyDifferences(left: ComparableStep, found: seq<Found>): (r: seq<StepDifference>)
    ensures |r| == |found|
    ensures forall i :: 0 <= i < |r| ==> r[i] == StepDifference(left.scenario, left.Label(), BodyDiffers, found[i])
  {
    if found == [] then []
    else [StepDifference(left.scenario, left.Label(), BodyDiffers, found[0])] + BodyDifferences(left, found[1..])
  }

  function When(condition: bool, left: ComparableStep, kind: Kind, reference: Side, subject: Side): seq<StepDifference>
  {
    if condition then [StepDifference(left.scenario, left.Label(), kind, Found([], reference, subject))] else []
  }

  function Missing(condition: bool, step: ComparableStep, kind: Kind): seq<StepDifference>
  {
    When(condition, step, kind, Nothing, Nothing)
  }

  function OutcomeDifference(left: ComparableStep, right: ComparableStep): seq<StepDifference>
  {
    When(left.status != right.status, left, OutcomeDiffers, Text(left.status), Text(right.status))
  }

  function StatusDifference(left: ComparableStep, right: ComparableStep): seq<StepDifference>
  {
    When(left.httpStatus != right.httpStatus, left, StatusDiffers, StatusSide(left.httpStatus),
         StatusSide(right.httpStatus))
  }

  function TypeDifference(left: ComparableStep, right: ComparableStep): seq<StepDifference>
  {
    When(left.contentType != right.contentType, left, ContentTypeDiffers, TypeSide(left.contentType),
         TypeSide(right.contentType))
  }

  function BodyDifference(left: ComparableStep, right: ComparableStep): seq<StepDifference>
  {
    if left.bodyTruncated || right.bodyTruncated then
      When(true, left, Uncompared, TruncationSide(left.bodyTruncated), TruncationSide(right.bodyTruncated))
    else BodyDifferences(left, BodyFound(NormalizedBody(left.body), NormalizedBody(right.body)))
  }

  function PairDifferences(left: ComparableStep, right: ComparableStep): seq<StepDifference>
  {
    OutcomeDifference(left, right) + StatusDifference(left, right) + TypeDifference(left, right)
    + BodyDifference(left, right)
  }

  /** The subject's step for a key; when several claim it, the last one does. */
  function Find(steps: seq<ComparableStep>, key: (string, int)): (r: Option<ComparableStep>)
    ensures r.Some? ==> r.value in steps && r.value.Key() == key
    ensures r.None? ==> forall s :: s in steps ==> s.Key() != key
  {
    if steps == [] then None
    else if Last(steps).Key() == key then Some(Last(steps))
    else Find(steps[..|steps| - 1], key)
  }

  function StepDifferences(left: ComparableStep, subject: seq<ComparableStep>): seq<StepDifference>
  {
    var right := Find(subject, left.Key());
    if right.None? then Missing(true, left, MissingInSubject) else PairDifferences(left, right.value)
  }

  function NotCompared(left: ComparableStep, subject: seq<ComparableStep>): bool
  {
    var right := Find(subject, left.Key());
    right.Some? && (left.bodyTruncated || right.value.bodyTruncated)
  }

  function ReferenceDifferences(reference: seq<ComparableStep>, subject: seq<ComparableStep>): seq<StepDifference>
  {
    FlatMap(Against(subject), reference)
  }

  function Against(subject: seq<ComparableStep>): ComparableStep -> seq<StepDifference>
  {
    left => StepDifferences(left, subject)
  }

  function ExtraDifferences(reference: seq<ComparableStep>, subject: seq<ComparableStep>): seq<StepDifference>
  {
    FlatMap(NotIn(reference), subject)
  }

  function NotIn(reference: seq<ComparableStep>): ComparableStep -> seq<StepDifference>
  {
    (right: ComparableStep) => Missing(Find(reference, right.Key()).None?, right, MissingInReference)
  }

  function Matching(subject: seq<ComparableStep>): ComparableStep -> bool
  {
    left => StepDifferences(left, subject) == []
  }

  function Disagreeing(subject: seq<ComparableStep>): ComparableStep -> bool
  {
    left => StepDifferences(left, subject) != []
  }

  function Unchecked(subject: seq<ComparableStep>): ComparableStep -> bool
  {
    left => NotCompared(left, subject)
  }

  function Comparison(reference: seq<ComparableStep>, subject: seq<ComparableStep>): Report
  {
    var all := ReferenceDifferences(reference, subject) + ExtraDifferences(reference, subject);
    Report(all == [], |reference|, Count(Matching(subject), reference), Count(Unchecked(subject), reference),
           all[..Min(|all|, MAX_DIFFERENCES)], |all|)
  }

  /** One turn of the step matcher: what a reference step adds, and whether its body went unchecked. */
  method CompareStep(left: ComparableStep, subject: seq<ComparableStep>) returns (added: seq<StepDifference>,
      unchecked: bool)
    ensures added == StepDifferences(left, subject) && unchecked == NotCompared(left, subject)
  {
    var found := Find(subject, left.Key());
    if found.None? { return Missing(true, left, MissingInSubject), false; }
    var right := found.value;
    added := OutcomeDifference(left, right);
    added := added + StatusDifference(left, right);
    added := added + TypeDifference(left, right);
    unchecked := left.bodyTruncated || right.bodyTruncated;
    if unchecked {
      added := added
        + When(true, left, Uncompared, TruncationSide(left.bodyTruncated), TruncationSide(right.bodyTruncated));
    } else {
      var bodies := CompareBodies(NormalizedBody(left.body), NormalizedBody(right.body));
      added := added + BodyDifferences(left, bodies);
    }
  }

  method CompareBodies(left: Option<Json>, right: Option<Json>) returns (found: seq<Found>)
    ensures found == BodyFound(left, right)
  {
    if left.Some? && right.Some? {
      var differences := DifferingPaths(left.value, right.value, [], BODY_PATHS);
      found := AllFound(differences);
    } else {
      found := if left.None? && right.None? then [] else [Found([], BodySide(left), BodySide(right))];
    }
  }

  /** The step matcher of the source: two passes that grow `differences`, and two counters. */
  method CompareExecutions(reference: seq<ComparableStep>, subject: seq<ComparableStep>) returns (report: Report)
    ensures report == Comparison(reference, subject)
  {
    var differences: seq<StepDifference> := [];
    var matched, uncompared := 0, 0;
    for i := 0 to |reference|
      invariant differences == ReferenceDifferences(reference[..i], subject)
      invariant matched == Count(Matching(subject), reference[..i])
      invariant uncompared == Count(Unchecked(subject), reference[..i])
    {
      var added, unchecked := CompareStep(reference[i], subject);
      NextElement(Against(subject), reference, i);
      NextCount(Matching(subject), reference, i);
      NextCount(Unchecked(subject), reference, i);
      differences := differences + added;
      if unchecked { uncompared := uncompared + 1; }
      if |added| == 0 { matched := matched + 1; }
    }
    assert reference[..|reference|] == reference;
    var found := differences;
    for i := 0 to |subject|
      invariant differences == found + ExtraDifferences(reference, subject[..i])
    {
      NextElement(NotIn(reference), subject, i);
      differences := differences + Missing(Find(reference, subject[i].Key()).None?, subject[i], MissingInReference);
    }
    assert subject[..|subject|] == subject;
    report := Report(|differences| == 0, |reference|, matched, uncompared,
                     differences[..Min(|differences|, MAX_DIFFERENCES)], |differences|);
  }

  // ---- what a match means

  predicate UniqueKeys(steps: seq<ComparableStep>)
  {
    forall i, j :: 0 <= i < j < |steps| ==> steps[i].Key() != steps[j].Key()
  }

  predicate WellFormedBodies(steps: seq<ComparableStep>)
  {
    forall s :: s in steps && s.body.Some? ==> WellFormed(s.body.value)
  }

  /** Two steps behaved alike: nothing differs and nothing was left unchecked. */
  predicate Agree(left: ComparableStep, right: ComparableStep)
  {
    && left.status == right.status && left.httpStatus == right.httpStatus && left.contentType == right.contentType
    && !left.bodyTruncated && !right.bodyTruncated
    && NormalizedBody(left.body) == NormalizedBody(right.body)
  }

  /** Both runs took the steps with the same keys, and the two steps of every key behaved alike. */
  ghost predicate SameBehaviour(a: seq<ComparableStep>, b: seq<ComparableStep>)
  {
    forall key :: && (Find(a, key).Some? <==> Find(b, key).Some?)
                  && (Find(a, key).Some? ==> Agree(Find(a, key).value, Find(b, key).value))
  }

  lemma PairDiffersExactly(left: ComparableStep, right: ComparableStep)
    requires left.body.Some? ==> WellFormed(left.body.value)
    requires right.body.Some? ==> WellFormed(right.body.value)
    ensures PairDifferences(left, right) == [] <==> Agree(left, right)
  {
    var l, r := NormalizedBody(left.body), NormalizedBody(right.body);
    if l.Some? && r.Some? {
      NormalizedIsInNormalOrder(left.body.value, None);
      NormalizedIsInNormalOrder(right.body.value, None);
      BodiesDifferExactly(l.value, r.value);
    }
  }

  /** On normalized values the bounded search is exact: it is empty exactly when the values are equal. */
  lemma BodiesDifferExactly(l: Json, r: Json)
    requires InNormalOrder(l) && InNormalOrder(r)
    ensures Differences(l, r, [], BODY_PATHS) == [] <==> l == r
  {
    EmptyExactlyWhenSame(l, r, [], BODY_PATHS);
    if SameUpToOrder(l, r) { NormalOrderIsUnique(l, r); } else if l == r { SameUpToOrderReflexive(l); }
  }

  lemma UniqueFind(steps: seq<ComparableStep>, i: nat)
    requires UniqueKeys(steps) && i < |steps|
    ensures Find(steps, steps[i].Key()) == Some(steps[i])
  {
    var found := Find(steps, steps[i].Key());
    assert steps[i] in steps;
    var j :| 0 <= j < |steps| && steps[j] == found.value;
  }

  lemma WellFormedBody(steps: seq<ComparableStep>, s: ComparableStep)
    requires WellFormedBodies(steps) && s in steps
    ensures s.body.Some? ==> WellFormed(s.body.value)
  {
  }

  lemma StepMatchesExactly(reference: seq<ComparableStep>, subject: seq<ComparableStep>, i: nat)
    requires UniqueKeys(reference) && WellFormedBodies(reference) && WellFormedBodies(subject) && i < |reference|
    ensures Against(subject)(reference[i]) == [] <==>
            Find(subject, reference[i].Key()).Some? && Agree(reference[i], Find(subject, reference[i].Key()).value)
  {
    var right := Find(subject, reference[i].Key());
    if right.Some? {
      WellFormedBody(reference, reference[i]);
      WellFormedBody(subject, right.value);
      PairDiffersExactly(reference[i], right.value);
    }
  }

  /** The steps of a run are those that its keys find. */
  lemma FoundAmong(steps: seq<ComparableStep>, key: (string, int)) returns (i: nat)
    requires Find(steps, key).Some?
    ensures i < |steps| && Find(steps, key) == Some(steps[i]) && steps[i].Key() == key
  {
    i :| 0 <= i < |steps| && steps[i] == Find(steps, key).value;
  }

  /** No difference at all: every reference step matches and every subject step has a counterpart. */
  predicate NothingReported(reference: seq<ComparableStep>, subject: seq<ComparableStep>)
  {
    && (forall i :: 0 <= i < |reference| ==> Against(subject)(reference[i]) == [])
    && (forall i :: 0 <= i < |subject| ==> Find(reference, subject[i].Key()).Some?)
  }

  lemma MatchExactlyWhenNothingReported(reference: seq<ComparableStep>, subject: seq<ComparableStep>)
    ensures Comparison(reference, subject).matches <==> NothingReported(reference, subject)
  {
    FlatMapEmpty(Against(subject), reference);
    FlatMapEmpty(NotIn(reference), subject);
    if forall i :: 0 <= i < |subject| ==> NotIn(reference)(subject[i]) == [] {
      forall i | 0 <= i < |subject| ensures Find(reference, subject[i].Key()).Some? {
        assert NotIn(reference)(subject[i]) == [];
      }
    }
  }

  lemma NothingReportedIsSameBehaviour(reference: seq<ComparableStep>, subject: seq<ComparableStep>)
    requires UniqueKeys(reference) && WellFormedBodies(reference) && WellFormedBodies(subject)
    requires NothingReported(reference, subject)
    ensures SameBehaviour(reference, subject)
  {
    forall key
      ensures Find(reference, key).Some? <==> Find(subject, key).Some?
      ensures Find(reference, key).Some? ==> Agree(Find(reference, key).value, Find(subject, key).value)
    {
      if Find(reference, key).Some? {
        var i := FoundAmong(reference, key);
        StepMatchesExactly(reference, subject, i);
      }
      if Find(subject, key).Some? { var i := FoundAmong(subject, key); }
    }
  }

  lemma SameBehaviourReportsNothing(reference: seq<ComparableStep>, subject: seq<ComparableStep>)
    requires UniqueKeys(reference) && UniqueKeys(subject)
    requires WellFormedBodies(reference) && WellFormedBodies(subject)
    requires SameBehaviour(reference, subject)
    ensures NothingReported(reference, subject)
  {
    forall i | 0 <= i < |reference| ensures Against(subject)(reference[i]) == [] {
      UniqueFind(reference, i);
      StepMatchesExactly(reference, subject, i);
    }
    forall i | 0 <= i < |subject| ensures Find(reference, subject[i].Key()).Some? { UniqueFind(subject, i); }
  }

  /** MATCH is reported exactly when both runs took the same steps and every pair behaved alike. */
  lemma MatchExactlyWhenSameBehaviour(reference: seq<ComparableStep>, subject: seq<ComparableStep>)
    requires UniqueKeys(reference) && UniqueKeys(subject)
    requires WellFormedBodies(reference) && WellFormedBodies(subject)
    ensures Comparison(reference, subject).matches <==> SameBehaviour(reference, subject)
  {
    MatchExactlyWhenNothingReported(reference, subject);
    if NothingReported(reference, subject) { NothingReportedIsSameBehaviour(reference, subject); }
    if SameBehaviour(reference, subject) { SameBehaviourReportsNothing(reference, subject); }
  }

  lemma SameBehaviourSymmetric(a: seq<ComparableStep>, b: seq<ComparableStep>)
    requires SameBehaviour(a, b)
    ensures SameBehaviour(b, a)
  {
  }

  lemma MatchIsSymmetric(a: seq<ComparableStep>, b: seq<ComparableStep>)
    requires UniqueKeys(a) && UniqueKeys(b) && WellFormedBodies(a) && WellFormedBodies(b)
    ensures Comparison(a, b).matches <==> Comparison(b, a).matches
  {
    MatchExactlyWhenSameBehaviour(a, b);
    MatchExactlyWhenSameBehaviour(b, a);
    if SameBehaviour(a, b) { SameBehaviourSymmetric(a, b); }
    if SameBehaviour(b, a) { SameBehaviourSymmetric(b, a); }
  }

  lemma MatchIsTransitive(a: seq<ComparableStep>, b: seq<ComparableStep>, c: seq<ComparableStep>)
    requires UniqueKeys(a) && UniqueKeys(b) && UniqueKeys(c)
    requires WellFormedBodies(a) && WellFormedBodies(b) && WellFormedBodies(c)
    ensures Comparison(a, b).matches && Comparison(b, c).matches ==> Comparison(a, c).matches
  {
    MatchExactlyWhenSameBehaviour(a, b);
    MatchExactlyWhenSameBehaviour(b, c);
    MatchExactlyWhenSameBehaviour(a, c);
  }

  /** A run compared with itself matches exactly when no body was truncated: an unmade check is never a match. */
  lemma MatchIsReflexiveExactlyWhenComplete(a: seq<ComparableStep>)
    requires UniqueKeys(a) && WellFormedBodies(a)
    ensures Comparison(a, a).matches <==> forall s :: s in a ==> !s.bodyTruncated
  {
    MatchExactlyWhenSameBehaviour(a, a);
    if SameBehaviour(a, a) {
      forall i | 0 <= i < |a| ensures !a[i].bodyTruncated {
        UniqueFind(a, i);
        assert Agree(a[i], a[i]);
      }
    }
  }

  /** Every compared step is either matched or has a difference to show. */
  lemma {:induction false} CountsAddUp(reference: seq<ComparableStep>, subject: seq<ComparableStep>)
    ensures Count(Matching(subject), reference) + Count(Disagreeing(subject), reference) == |reference|
    ensures Count(Unchecked(subject), reference) <= Count(Disagreeing(subject), reference)
    ensures Count(Disagreeing(subject), reference) <= |ReferenceDifferences(reference, subject)|
  {
    if reference != [] { CountsAddUp(reference[..|reference| - 1], subject); }
  }

  // ---- the number of differences does not depend on which run is the reference

  function Keys(steps: seq<ComparableStep>): (r: seq<(string, int)>)
    ensures |r| == |steps| && forall i :: 0 <= i < |r| ==> r[i] == steps[i].Key()
  {
    if steps == [] then [] else Keys(steps[..|steps| - 1]) + [Last(steps).Key()]
  }

  /** How many differences one key accounts for. */
  function CostOf(a: seq<ComparableStep>, b: seq<ComparableStep>): ((string, int)) -> nat
  {
    (key: (string, int)) =>
      var l, r := Find(a, key), Find(b, key);
      if l.None? && r.None? then 0 else if l.None? || r.None? then 1 else |PairDifferences(l.value, r.value)|
  }

  /** The same kinds at the same paths, with what is shown of the two sides exchanged. */
  predicate Mirror(a: seq<StepDifference>, b: seq<StepDifference>)
  {
    && |a| == |b|
    && forall i :: 0 <= i < |a| ==>
         a[i].kind == b[i].kind && a[i].found == Found(b[i].found.path, b[i].found.subject, b[i].found.reference)
  }

  lemma BodiesMirror(left: ComparableStep, right: ComparableStep)
    ensures Mirror(BodyDifference(left, right), BodyDifference(right, left))
  {
    var l, r := NormalizedBody(left.body), NormalizedBody(right.body);
    if l.Some? && r.Some? { SwapMirrors(l.value, r.value, [], BODY_PATHS); }
  }

  lemma MirrorsJoin(a: seq<StepDifference>, b: seq<StepDifference>, c: seq<StepDifference>, d: seq<StepDifference>)
    requires Mirror(a, b) && Mirror(c, d)
    ensures Mirror(a + c, b + d)
  {
  }

  /** Comparing a pair the other way round reports the same disagreements, with the two sides exchanged. */
  lemma PairsMirror(left: ComparableStep, right: ComparableStep)
    ensures Mirror(PairDifferences(left, right), PairDifferences(right, left))
  {
    var o, o' := OutcomeDifference(left, right), OutcomeDifference(right, left);
    var s, s' := StatusDifference(left, right), StatusDifference(right, left);
    var t, t' := TypeDifference(left, right), TypeDifference(right, left);
    MirrorsJoin(o, o', s, s');
    MirrorsJoin(o + s, o' + s', t, t');
    BodiesMirror(left, right);
    MirrorsJoin(o + s + t, o' + s' + t', BodyDifference(left, right), BodyDifference(right, left));
  }

  lemma {:induction false} ReferenceCost(a: seq<ComparableStep>, steps: seq<ComparableStep>, b: seq<ComparableStep>)
    requires UniqueKeys(a) && steps <= a
    ensures |FlatMap(Against(b), steps)| == Sum(CostOf(a, b), Keys(steps))
  {
    if steps != [] {
      var n := |steps| - 1;
      ReferenceCost(a, steps[..n], b);
      UniqueFind(a, n);
      assert Keys(steps)[..n] == Keys(steps[..n]);
      assert Against(b)(steps[n]) == StepDifferences(steps[n], b);
    }
  }

  function ExtraKeys(a: seq<ComparableStep>, b: seq<ComparableStep>): (r: seq<(string, int)>)
    ensures forall key :: key in r <==> key in Keys(b) && Find(a, key).None?
    ensures UniqueKeys(b) ==> Distinct(r)
  {
    if b == [] then []
    else
      var init := b[..|b| - 1];
      assert Keys(b) == Keys(init) + [Last(b).Key()];
      if Find(a, Last(b).Key()).None? then ExtraKeys(a, init) + [Last(b).Key()] else ExtraKeys(a, init)
  }

  lemma {:induction false} ExtraCost(a: seq<ComparableStep>, b: seq<ComparableStep>, steps: seq<ComparableStep>)
    requires forall i :: 0 <= i < |steps| ==> Find(b, steps[i].Key()).Some?
    ensures |FlatMap(NotIn(a), steps)| == Sum(CostOf(a, b), ExtraKeys(a, steps))
  {
    if steps != [] {
      var n := |steps| - 1;
      var key, before, after := steps[n].Key(), ExtraKeys(a, steps[..n]), ExtraKeys(a, steps);
      ExtraCost(a, b, steps[..n]);
      assert NotIn(a)(steps[n]) == Missing(Find(a, key).None?, steps[n], MissingInReference);
      if Find(a, key).None? {
        assert after == before + [key] && after[..|after| - 1] == before;
      }
    }
  }

  lemma CountIsSumOfCosts(a: seq<ComparableStep>, b: seq<ComparableStep>)
    requires UniqueKeys(a) && UniqueKeys(b)
    ensures Comparison(a, b).differenceCount == Sum(CostOf(a, b), Keys(a) + ExtraKeys(a, b))
  {
    ReferenceCost(a, a, b);
    forall i | 0 <= i < |b| ensures Find(b, b[i].Key()).Some? { UniqueFind(b, i); }
    ExtraCost(a, b, b);
    SumConcat(CostOf(a, b), Keys(a), ExtraKeys(a, b));
  }

  lemma FoundExactlyWhenListed(a: seq<ComparableStep>, key: (string, int))
    ensures Find(a, key).Some? <==> key in Keys(a)
  {
    if key in Keys(a) {
      var i :| 0 <= i < |a| && Keys(a)[i] == key;
      assert a[i] in a && a[i].Key() == key;
    }
    if Find(a, key).Some? {
      var i :| 0 <= i < |a| && a[i] == Find(a, key).value;
      assert Keys(a)[i] == key;
    }
  }

  lemma AllKeysDistinct(a: seq<ComparableStep>, b: seq<ComparableStep>)
    requires UniqueKeys(a) && UniqueKeys(b)
    ensures Distinct(Keys(a) + ExtraKeys(a, b))
    ensures forall key :: key in Keys(a) + ExtraKeys(a, b) <==> key in Keys(a) || key in Keys(b)
  {
    var ka, extra := Keys(a), ExtraKeys(a, b);
    forall key | key in ka ensures key !in extra { FoundExactlyWhenListed(a, key); }
    DistinctConcat(ka, extra);
    forall key ensures key in ka + extra <==> key in ka || key in Keys(b) { FoundExactlyWhenListed(a, key); }
  }

  lemma DifferenceCountSymmetric(a: seq<ComparableStep>, b: seq<ComparableStep>)
    requires UniqueKeys(a) && UniqueKeys(b)
    ensures Comparison(a, b).differenceCount == Comparison(b, a).differenceCount
  {
    var ab, ba := Keys(a) + ExtraKeys(a, b), Keys(b) + ExtraKeys(b, a);
    CountIsSumOfCosts(a, b);
    CountIsSumOfCosts(b, a);
    AllKeysDistinct(a, b);
    AllKeysDistinct(b, a);
    SameElementsSameMultiset(ab, ba);
    SumForgetsOrder(CostOf(a, b), ab, ba);
    forall key | key in ba ensures CostOf(a, b)(key) == CostOf(b, a)(key) {
      var l, r := Find(a, key), Find(b, key);
      if l.Some? && r.Some? { PairsMirror(l.value, r.value); }
    }
    SumPointwise(CostOf(a, b), CostOf(b, a), ba);
  }
}
