/** Whether repairs change the cause of failure, read from the evidence of each failure. */
module RepairProgress {
  import opened Common
  import opened Ordering

  /** A suite as its fingerprint names it, and whether it passed. */
  datatype Suite = Suite(text: string, passed: bool)

  datatype TestReport = TestReport(failed: bool, suites: seq<Suite>, propertyFailed: bool, seeds: seq<string>,
      failedTests: seq<string>)

  datatype Evidence = Tests(report: TestReport) | Verification(proven: bool, fingerprint: Option<string>) | Unrelated

  /** Evidence is listed oldest first; withdrawn evidence does not count. */
  datatype Entry = Entry(available: bool, evidence: Evidence)

  datatype Fingerprint = TestCause(hash: bv32) | VerificationCause(text: string)

  const STAGNATION_THRESHOLD: nat := 3

  // ---- fingerprints

  function Mix(h: bv32, c: char): bv32
    requires c as int < 0x1_0000_0000
  {
    (h ^ (c as int as bv32)) * 0x01000193
  }

  function Hash(text: string): bv32
  {
    if text == [] then 0x811c9dc5 else Mix(Hash(text[..|text| - 1]), Last(text))
  }

  method HashText(text: string) returns (value: bv32)
    ensures value == Hash(text)
  {
    value := 0x811c9dc5;
    for i := 0 to |text|
      invariant value == Hash(text[..i])
    {
      assert text[..i + 1][..i] == text[..i];
      value := Mix(value, text[i]);
    }
    assert text[..|text|] == text;
  }

  function Join(parts: seq<string>): string
  {
    if parts == [] then "" else if |parts| == 1 then parts[0] else parts[0] + "|" + Join(parts[1..])
  }

  function FailedSuite(): Suite -> seq<string>
  {
    (s: Suite) => if s.passed then [] else [s.text]
  }

  function FingerprintText(r: TestReport): string
  {
    Join(["tests"] + Sort(FlatMap(FailedSuite(), r.suites))
           + (if r.propertyFailed then ["property"] + Sort(r.seeds) else [])
           + Sort(r.failedTests))
  }

  function FingerprintOf(r: TestReport): Option<Fingerprint>
  {
    if r.failed then Some(TestCause(Hash(FingerprintText(r)))) else None
  }

  function Contributes(f: Suite -> seq<string>, x: string): Suite -> nat
  {
    (s: Suite) => multiset(f(s))[x]
  }

  lemma {:induction false} MultiplicityIsSum(f: Suite -> seq<string>, s: seq<Suite>, x: string)
    ensures multiset(FlatMap(f, s))[x] == Sum(Contributes(f, x), s)
  {
    if s != [] { MultiplicityIsSum(f, s[..|s| - 1], x); }
  }

  lemma FlatMapForgetsOrder(f: Suite -> seq<string>, a: seq<Suite>, b: seq<Suite>)
    requires multiset(a) == multiset(b)
    ensures multiset(FlatMap(f, a)) == multiset(FlatMap(f, b))
  {
    forall x: string ensures multiset(FlatMap(f, a))[x] == multiset(FlatMap(f, b))[x] {
      MultiplicityIsSum(f, a, x);
      MultiplicityIsSum(f, b, x);
      SumForgetsOrder(Contributes(f, x), a, b);
    }
  }

  /** Listing suites, seeds or failing tests in another order is the same cause. */
  lemma FingerprintForgetsOrder(a: TestReport, b: TestReport)
    requires a.failed == b.failed && a.propertyFailed == b.propertyFailed
    requires multiset(a.suites) == multiset(b.suites)
    requires multiset(a.seeds) == multiset(b.seeds) && multiset(a.failedTests) == multiset(b.failedTests)
    ensures FingerprintOf(a) == FingerprintOf(b)
  {
    FlatMapForgetsOrder(FailedSuite(), a.suites, b.suites);
    SortForgetsOrder(FlatMap(FailedSuite(), a.suites), FlatMap(FailedSuite(), b.suites));
    SortForgetsOrder(a.seeds, b.seeds);
    SortForgetsOrder(a.failedTests, b.failedTests);
  }

  // ---- progress

  /** The failure an entry stands for, if any. */
  function FailureOf(): Entry -> seq<Fingerprint>
  {
    (e: Entry) =>
      if !e.available then []
      else match e.evidence
        case Tests(report) => if FingerprintOf(report).Some? then [FingerprintOf(report).value] else []
        case Verification(proven, fingerprint) =>
          if !proven && fingerprint.Some? && fingerprint.value != "" then [VerificationCause(fingerprint.value)] else []
        case Unrelated => []
  }

  datatype Progress = Progress(failures: nat, consecutive: nat, stagnating: bool, latest: Option<Fingerprint>)

  function ProgressOf(entries: seq<Entry>): Progress
  {
    var fingerprints := FlatMap(FailureOf(), entries);
    var run := TrailingRun(fingerprints);
    var last := if fingerprints == [] then None else Some(Last(fingerprints));
    Progress(|fingerprints|, run, run >= STAGNATION_THRESHOLD, last)
  }

  /** Collects the fingerprints in order, then scans back from the newest one. */
  method MeasureProgress(entries: seq<Entry>) returns (p: Progress)
    ensures p == ProgressOf(entries)
  {
    var fingerprints: seq<Fingerprint> := [];
    for i := 0 to |entries|
      invariant fingerprints == FlatMap(FailureOf(), entries[..i])
    {
      NextElement(FailureOf(), entries, i);
      var e := entries[i];
      if e.available {
        match e.evidence {
          case Tests(report) =>
            if report.failed {
              var hash := HashText(FingerprintText(report));
              fingerprints := fingerprints + [TestCause(hash)];
            }
          case Verification(proven, fingerprint) =>
            if !proven && fingerprint.Some? && fingerprint.value != "" {
              fingerprints := fingerprints + [VerificationCause(fingerprint.value)];
            }
          case Unrelated =>
        }
      }
    }
    assert entries[..|entries|] == entries;
    if fingerprints == [] { return Progress(0, 0, false, None); }
    var latest := Last(fingerprints);
    var consecutive := ScanBack(fingerprints, latest);
    p := Progress(|fingerprints|, consecutive, consecutive >= STAGNATION_THRESHOLD, Some(latest));
  }

  method ScanBack(fingerprints: seq<Fingerprint>, latest: Fingerprint) returns (consecutive: nat)
    requires fingerprints != [] && latest == Last(fingerprints)
    ensures consecutive == TrailingRun(fingerprints)
  {
    TrailingRunIsLongestConstantSuffix(fingerprints);
    consecutive := 0;
    var index := |fingerprints|;
    while index > 0 && fingerprints[index - 1] == latest
      invariant 0 <= index <= |fingerprints| && consecutive == |fingerprints| - index
      invariant forall k :: index <= k < |fingerprints| ==> fingerprints[k] == latest
      invariant consecutive <= TrailingRun(fingerprints)
    {
      index := index - 1;
      consecutive := consecutive + 1;
    }
  }

  /** Stagnation is exactly three or more failures whose newest three share one cause. */
  lemma StagnatingExactlyWhen(entries: seq<Entry>)
    ensures var fingerprints := FlatMap(FailureOf(), entries); var n := |fingerprints|;
      ProgressOf(entries).stagnating <==> n >= 3 && fingerprints[n - 3] == fingerprints[n - 2] == fingerprints[n - 1]
  {
    var fingerprints := FlatMap(FailureOf(), entries);
    if fingerprints != [] { TrailingRunIsLongestConstantSuffix(fingerprints); }
  }
}
