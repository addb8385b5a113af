/** The generation-job request and its lowering to engine parameters
    (backend/internal/generationapi/job_v1.go, contract.go;
    backend/internal/domain/workflow.go:528-571, generation_evidence.go:41-78). */
module Lowering {
  import opened Wrappers
  import opened Chars
  import opened Ordering
  import opened KnowledgePoints
  import opened TestCounts
  import Concepts

  // ------------------------------------------------------------------- request

  datatype Combination = Combination(mode: string, maxConcepts: int)

  datatype DomainTarget = DomainTarget(name: string, level: string, points: seq<string>, combination: Combination)

  datatype Difficulty = Difficulty(rating: int, tolerance: int, calibration: string)

  datatype Constraints = Constraints(
    timeLimitMs: int, memoryLimitMb: int, testCaseCount: int, testCaseCountMin: int, testCaseCountMax: int,
    sampleCount: int, autoCaseCount: bool, maxInputBytes: int, maxOutputBytes: int)

  datatype Budget = Budget(calls: int, tokens: int, wallSeconds: int, regenerations: int)

  datatype Quality = Quality(
    strategy: string, dedupMode: string, similarLimit: int, budget: Budget, auditProfiles: seq<string>)

  datatype Output = Output(
    evidenceLevel: string, formats: seq<string>, editorial: bool, solutions: bool, testData: bool)

  datatype Runtime = Runtime(statement: string, verification: string)

  datatype Request = Request(
    schemaVersion: string, domain: DomainTarget, difficulty: Difficulty, problemType: string,
    constraints: Constraints, quality: Quality, candidateCount: int, randomSeed: Option<int>, output: Output,
    locale: string, languages: seq<string>, contestStyle: string, custom: string, runtime: Runtime)

  // In pieces: the verifier looks up characters of a long literal slowly.
  const REQUEST_SCHEMA := "algoforge.product." + "custom-generation." + "request.v1"
  const MAX_CUSTOM_BYTES := 16384
  const MAX_WALL_SECONDS := 86400

  // ------------------------------------------------------------- canonical form

  /** normalizedKnowledgePoints */
  function NormalizedPoints(values: seq<string>, mode: string): seq<string> {
    var slugs := Map(values, Slug);
    if mode == SEQUENCE then slugs else if mode == MIXED then SortTail(slugs) else Sort(slugs, Less)
  }

  /** normalizedStrings, with sorting */
  function NormalizedStrings(values: seq<string>): seq<string> { Sort(Map(values, Trim), Less) }

  /** Lower-casing happens after sorting. */
  function NormalizedNames(values: seq<string>): seq<string> { Map(NormalizedStrings(values), Lower) }

  function CanonicalConstraints(c: Constraints): Constraints {
    if c.testCaseCount != 0 then c
    else
      c.(testCaseCountMin := if c.testCaseCountMin == 0 then MIN_ADAPTIVE else c.testCaseCountMin,
         testCaseCountMax := if c.testCaseCountMax == 0 then MAX_ADAPTIVE else c.testCaseCountMax)
  }

  function CanonicalDomain(t: DomainTarget): DomainTarget {
    var mode := Slug(t.combination.mode);
    var points := NormalizedPoints(t.points, mode);
    DomainTarget(Slug(t.name), Slug(t.level), points,
                 Combination(mode, if t.combination.maxConcepts == 0 && points != [] then |points|
                                   else t.combination.maxConcepts))
  }

  /** Request.Canonical */
  function Canonical(r: Request): Request {
    r.(schemaVersion := Trim(r.schemaVersion),
       domain := CanonicalDomain(r.domain),
       difficulty := r.difficulty.(calibration := Slug(r.difficulty.calibration)),
       problemType := Slug(r.problemType),
       constraints := CanonicalConstraints(r.constraints),
       quality := r.quality.(strategy := Slug(r.quality.strategy), dedupMode := Slug(r.quality.dedupMode),
                             auditProfiles := NormalizedStrings(r.quality.auditProfiles)),
       output := r.output.(evidenceLevel := Slug(r.output.evidenceLevel), formats := NormalizedNames(r.output.formats)),
       locale := Slug(r.locale), languages := NormalizedNames(r.languages), contestStyle := Slug(r.contestStyle),
       custom := Trim(r.custom), runtime := Runtime(Trim(r.runtime.statement), Trim(r.runtime.verification)))
  }

  // ------------------------------------------------------------------ validation

  /** What validateUniqueNonEmpty accepts. */
  predicate UniqueNonEmpty(values: seq<string>) {
    var trimmed := Map(values, Trim);
    values != [] && NonEmpty(trimmed) && Distinct(trimmed)
  }

  method ValidateUniqueNonEmpty(values: seq<string>) returns (ok: bool)
    ensures ok <==> UniqueNonEmpty(values)
  {
    hide Trim;
    if |values| == 0 {
      return false;
    }
    var seen: set<string> := {};
    ghost var trimmed := Map(values, Trim);
    for i := 0 to |values|
      invariant forall x :: x in seen <==> x in trimmed[..i]
      invariant NonEmpty(trimmed[..i]) && Distinct(trimmed[..i])
    {
      var value := Trim(values[i]);
      assert trimmed[i] == value;
      assert trimmed[..i + 1] == trimmed[..i] + [value];
      if value == "" {
        return false;
      }
      if value in seen {
        ghost var k :| 0 <= k < i && trimmed[..i][k] == value;
        assert trimmed[k] == trimmed[i];
        return false;
      }
      seen := seen + {value};
    }
    assert trimmed[..|values|] == trimmed;
    ok := true;
  }

  predicate ValidDomain(t: DomainTarget) {
    && Trim(t.name) != "" && UniqueNonEmpty(t.points)
    && (t.combination.mode == SINGLE || t.combination.mode == MIXED || t.combination.mode == SET
        || t.combination.mode == SEQUENCE)
    && (t.combination.mode == SINGLE ==> |t.points| == 1)
    && (t.combination.mode == MIXED ==> |t.points| >= 2)
    && t.combination.maxConcepts >= 0
    && (t.combination.maxConcepts > 0 ==> t.combination.maxConcepts >= |t.points|)
  }

  predicate ValidDifficulty(d: Difficulty) {
    800 <= d.rating <= 3500 && d.rating % 100 == 0 && 0 <= d.tolerance <= 1000
  }

  predicate ValidConstraints(c: Constraints) {
    && c.timeLimitMs > 0 && c.memoryLimitMb > 0
    && (if c.testCaseCount == 0 then
          var min, max := if c.testCaseCountMin == 0 then MIN_ADAPTIVE else c.testCaseCountMin,
                          if c.testCaseCountMax == 0 then MAX_ADAPTIVE else c.testCaseCountMax;
          MIN_ADAPTIVE <= min <= max <= MAX_ADAPTIVE && 0 <= c.sampleCount <= max
        else
          && 1 <= c.testCaseCount <= MAX_GENERATED && c.testCaseCountMin == 0 && c.testCaseCountMax == 0
          && (c.autoCaseCount ==> MIN_ADAPTIVE <= c.testCaseCount <= MAX_ADAPTIVE)
          && 0 <= c.sampleCount <= c.testCaseCount
          && (c.autoCaseCount ==> c.sampleCount <= MAX_ADAPTIVE))
    && c.maxInputBytes >= 0 && c.maxOutputBytes >= 0
  }

  predicate ValidQuality(q: Quality) {
    && q.strategy in {"baseline", "balanced", "strict"} && q.dedupMode in {"off", "warn", "reject"}
    && q.similarLimit >= 0
    && q.budget.calls >= 0 && q.budget.tokens >= 0 && q.budget.wallSeconds >= 0 && q.budget.regenerations >= 0
    && (q.auditProfiles == [] || UniqueNonEmpty(q.auditProfiles))
  }

  predicate IsEvidenceLevel(level: string) { level == "minimal" || level == "standard" || level == "audit" }

  predicate ValidOutput(o: Output) {
    && IsEvidenceLevel(o.evidenceLevel) && UniqueNonEmpty(o.formats)
    && forall i | 0 <= i < |o.formats| :: o.formats[i] == "algoforge" || o.formats[i] == "hydro"
  }

  /** ValidatePreview */
  predicate ValidPreview(r: Request) {
    && r.schemaVersion == REQUEST_SCHEMA && ValidDomain(r.domain) && ValidDifficulty(r.difficulty)
    && (r.problemType == "standard" || r.problemType == "subtask")
    && ValidConstraints(r.constraints) && ValidQuality(r.quality)
    && r.candidateCount == 1 && (r.locale == "en" || r.locale == "zh")
    && UniqueNonEmpty(r.languages) && ByteLength(r.custom) <= MAX_CUSTOM_BYTES
    && ValidOutput(r.output)
  }

  datatype ErrorCode = UnsupportedConstraint | UnsatisfiableSpec

  predicate IsLanguage(s: string) { s == "c" || s == "cpp" || s == "python3" || s == "java" || s == "go" }

  predicate IsDefaultProfile(value: string, name: string) { value == "" || value == name || value == "default" }

  /** DifficultyRange */
  function DifficultyRange(level: string): (int, int) {
    if level == "syntax" then (800, 1200)
    else if level == "algorithm" then (1300, 3500)
    else if level == "gplt_l1" then (800, 1300)
    else if level == "gplt_l2" then (1000, 1800)
    else if level == "gplt_l3" then (1700, 2600)
    else (800, 3500)
  }

  /** ValidateV1 of a request that is canonical already: the first complaint, if any. */
  function Complaint(r: Request): Option<ErrorCode> {
    var range := DifficultyRange(r.domain.level);
    if r.schemaVersion != REQUEST_SCHEMA || r.candidateCount != 1
       || (r.problemType != "" && r.problemType != "standard")
       || r.output.formats != ["algoforge"] || |r.languages| != 1
       || (r.languages[0] != "" && !IsLanguage(r.languages[0])) then Some(UnsupportedConstraint)
    else if !ValidPreview(r) then Some(UnsatisfiableSpec)
    else if r.domain.name != "competitive_programming"
            || (r.domain.level != "syntax" && r.domain.level != "algorithm") then Some(UnsupportedConstraint)
    else if r.difficulty.rating < range.0 || r.difficulty.rating > range.1 then Some(UnsatisfiableSpec)
    else if !IsMode(r.domain.combination.mode) || r.difficulty.tolerance != 0
            || (r.difficulty.calibration != "" && r.difficulty.calibration != "default")
            || r.constraints.maxInputBytes != 0 || r.constraints.maxOutputBytes != 0
            || r.quality.strategy != "baseline" || r.quality.dedupMode != "reject"
            || r.quality.budget.calls != 0 || r.quality.budget.tokens != 0 || r.quality.budget.regenerations != 0
         then Some(UnsupportedConstraint)
    else if r.quality.budget.wallSeconds < 60 || r.quality.budget.wallSeconds > MAX_WALL_SECONDS
    then Some(UnsatisfiableSpec)
    else if r.quality.auditProfiles != [] || r.randomSeed.Some? || !IsEvidenceLevel(r.output.evidenceLevel)
            || !r.output.editorial || !r.output.solutions || !r.output.testData
            || !IsDefaultProfile(r.runtime.statement, "default-statement")
            || !IsDefaultProfile(r.runtime.verification, "default-verification") then Some(UnsupportedConstraint)
    else None
  }

  /** Request.ValidateV1 */
  function ValidateV1(r: Request): Option<ErrorCode> { Complaint(Canonical(r)) }

  predicate Accepted(r: Request) { ValidateV1(r).None? }

  // ---------------------------------------------------------------- the lowering

  datatype Evidence = Evidence(
    schemaVersion: string, evidenceLevel: string, jobContract: string, arm: string, armMode: string, behavior: string,
    reviewer: string, reviewerSha: string, profile: string, profileSha: string, taxonomy: string,
    editorial: bool, solutions: bool, testData: bool)

  datatype Params = Params(
    level: string, difficulty: int, tags: seq<string>, combination: Contract, evidence: Option<Evidence>,
    contestStyle: string, timeLimit: int, memoryLimit: int, config: Config, custom: string, languages: seq<string>,
    locale: string, similarLimit: int)

  const EVIDENCE_SCHEMA := "algoforge.generation-standard-evidence-request.v1"
  // In pieces, like REQUEST_SCHEMA.
  const REVIEWER_SHA := "54ca6dd34ee70f69" + "4fcf3ce61ad27106" + "73c0937a0de70cf3" + "7a5150658ee8e0d7"
  const EVIDENCE_SHA := "5c0ee4e19117c59e" + "65aed3d81b2f7ea0" + "87b1727e3c9011f1" + "ce3f7018aa78160b"

  function LoweredConfig(c: Constraints): Config {
    if c.testCaseCount > 0 then Config(c.testCaseCount, 0, 0, c.autoCaseCount, c.sampleCount, [])
    else Config(0, c.testCaseCountMin, c.testCaseCountMax, false, c.sampleCount, [])
  }

  function StandardEvidence(o: Output): Evidence {
    Evidence(EVIDENCE_SCHEMA, "standard", "algoforge.generation-job.v1", "A", "baseline_passthrough", "unchanged",
             "algoforge.reviewer.v1", REVIEWER_SHA, "algoforge.review-evidence.v0", EVIDENCE_SHA,
             "algoforge.generation-outcome-taxonomy.v1", o.editorial, o.solutions, o.testData)
  }

  /** ToProblemGenParams */
  function ToParams(request: Request): Params {
    var r := Canonical(request);
    Params(r.domain.level, r.difficulty.rating, r.domain.points,
           Contract(KnowledgePoints.SCHEMA, r.domain.combination.mode,
                    if r.domain.combination.maxConcepts == 0 then |r.domain.points|
                    else r.domain.combination.maxConcepts),
           if r.output.evidenceLevel == "standard" then Some(StandardEvidence(r.output)) else None,
           r.contestStyle, r.constraints.timeLimitMs, r.constraints.memoryLimitMb, LoweredConfig(r.constraints),
           r.custom, r.languages, r.locale, r.quality.similarLimit)
  }

  predicate IsLevel(level: string) {
    level == "syntax" || level == "algorithm" || level == "gplt_l1" || level == "gplt_l2" || level == "gplt_l3"
  }

  predicate Present(s: string) { Trim(s) != "" }

  /** GenerationEvidenceContract.Validate */
  predicate ValidEvidence(e: Evidence) {
    && e.schemaVersion == EVIDENCE_SCHEMA && e.evidenceLevel == "standard"
    && Present(e.jobContract) && Present(e.arm) && Present(e.armMode) && Present(e.behavior) && Present(e.reviewer)
    && Present(e.profile) && Present(e.taxonomy)
    && Concepts.IsSha(e.reviewerSha) && Concepts.IsSha(e.profileSha)
    && e.editorial && e.solutions && e.testData
  }

  /** ProblemGenParams.Validate */
  predicate ValidParams(p: Params) {
    var range := DifficultyRange(p.level);
    && IsLevel(p.level) && range.0 <= p.difficulty <= range.1 && p.difficulty % 100 == 0
    && ValidContract(p.combination, p.tags)
    && (p.evidence.Some? ==> ValidEvidence(p.evidence.value))
    && p.timeLimit > 0 && p.memoryLimit > 0
    && Normalized(p.config).1
    && p.languages != []
  }

  // ---- canonical text ----

  /** Normalised points hold slugs, arranged for their mode. */
  lemma PointsAreSettled(values: seq<string>, mode: string)
    ensures var points := NormalizedPoints(values, mode);
            && |points| == |values|
            && Map(points, Slug) == points && Map(points, Trim) == points
            && Arranged(mode, points) == points && NormalizedPoints(points, mode) == points
  {
    hide Slug, Less, Sort, Trim;
    var slugs := Map(values, Slug);
    var points := NormalizedPoints(values, mode);
    SlugsTwice(values);
    LessIsAsymmetric();
    if mode == SEQUENCE {
    } else if mode == MIXED {
      if slugs != [] {
        var tail := slugs[1..];
        SortSorts(tail, Less);
        assert points[1..] == Sort(tail, Less) && points[0] == slugs[0];
        SortOfOrdered(points[1..], Less);
        assert slugs == [slugs[0]] + tail && points == [slugs[0]] + points[1..];
        assert multiset(slugs) == multiset(points);
      }
      MapOfPermuted(slugs, points, Slug);
      MapOfPermuted(slugs, points, Trim);
    } else {
      SortSorts(slugs, Less);
      SortOfOrdered(points, Less);
      MapOfPermuted(slugs, points, Slug);
      MapOfPermuted(slugs, points, Trim);
    }
  }

  // ------------------------------------------------------------------ the results

  /** The knowledge points of a canonical valid domain satisfy the contract they are lowered
      to, whatever the mode. */
  lemma DomainLowers(t: DomainTarget)
    requires ValidDomain(CanonicalDomain(t))
    ensures var c := CanonicalDomain(t);
            ValidContract(Contract(KnowledgePoints.SCHEMA, c.combination.mode,
                                   if c.combination.maxConcepts == 0 then |c.points| else c.combination.maxConcepts),
                          c.points)
  {
    hide Slug, Less, Sort, Trim, Arranged, Map;
    SlugTwice(t.combination.mode);
    PointsAreSettled(t.points, Slug(t.combination.mode));
  }

  lemma ConstraintsLower(c: Constraints)
    requires ValidConstraints(CanonicalConstraints(c))
    ensures Normalized(LoweredConfig(CanonicalConstraints(c))).1
    ensures CanonicalConstraints(c).timeLimitMs > 0 && CanonicalConstraints(c).memoryLimitMb > 0
  {
  }

  lemma ReviewerShaIsSha()
    ensures Concepts.IsSha(REVIEWER_SHA)
  {
    FourPieces("54ca6dd34ee70f69", "4fcf3ce61ad27106", "73c0937a0de70cf3", "7a5150658ee8e0d7");
  }

  lemma EvidenceShaIsSha()
    ensures Concepts.IsSha(EVIDENCE_SHA)
  {
    FourPieces("5c0ee4e19117c59e", "65aed3d81b2f7ea0", "87b1727e3c9011f1", "ce3f7018aa78160b");
  }

  predicate IsPiece(s: string) {
    |s| == 16 && forall i | 0 <= i < 16 :: 'a' <= s[i] <= 'f' || '0' <= s[i] <= '9'
  }

  lemma FourPieces(a: string, b: string, c: string, d: string)
    requires IsPiece(a) && IsPiece(b) && IsPiece(c) && IsPiece(d)
    ensures Concepts.IsSha(a + b + c + d)
  {
  }

  lemma NameIsPresent(s: string)
    requires s != "" && !IsSpace(s[0]) && !IsSpace(s[|s| - 1])
    ensures Present(s)
  {
    TrimIsId(s);
  }

  lemma EvidenceIsValid(o: Output)
    requires o.editorial && o.solutions && o.testData
    ensures ValidEvidence(StandardEvidence(o))
  {
    ReviewerShaIsSha();
    EvidenceShaIsSha();
    var e := StandardEvidence(o);
    NameIsPresent(e.jobContract);
    NameIsPresent(e.arm);
    NameIsPresent(e.armMode);
    NameIsPresent(e.behavior);
    NameIsPresent(e.reviewer);
    NameIsPresent(e.profile);
    NameIsPresent(e.taxonomy);
    hide Present, Concepts.IsSha;
  }

  /** Every request that ValidateV1 accepts is lowered to parameters that the engine accepts,
      in all four combination modes and both count modes. */
  lemma AcceptedRequestsLower(r: Request)
    requires Accepted(r)
    ensures ValidParams(ToParams(r))
  {
    var c := Canonical(r);
    hide Slug, Trim, CanonicalDomain, CanonicalConstraints, NormalizedNames, NormalizedStrings, ValidContract,
         LoweredConfig, Normalized, StandardEvidence, ValidEvidence, ValidDomain, ValidConstraints, ValidQuality,
         ValidOutput, UniqueNonEmpty, ByteLength;
    DomainLowers(r.domain);
    ConstraintsLower(r.constraints);
    EvidenceIsValid(c.output);
  }

  /** A request for one knowledge point with the default test counts. */
  const EXAMPLE := Request(
    REQUEST_SCHEMA, DomainTarget("competitive_programming", "syntax", ["dp"], Combination(SINGLE, 1)),
    Difficulty(800, 0, "default"), "standard", Constraints(1000, 256, 0, MIN_ADAPTIVE, MAX_ADAPTIVE, 2, false, 0, 0),
    Quality("baseline", "reject", 3, Budget(0, 0, 600, 0), []), 1, None,
    Output("standard", ["algoforge"], true, true, true), "en", ["cpp"], "icpc", "", Runtime("", ""))

  lemma SlugIsId(s: string)
    requires s == "" || (!IsSpace(s[0]) && !IsSpace(s[|s| - 1]))
    requires forall i | 0 <= i < |s| :: !('A' <= s[i] <= 'Z')
    ensures Slug(s) == s && Trim(s) == s
  {
    TrimIsId(s);
    assert Lower(s) == s;
  }

  lemma ExampleNames()
    ensures Slug("competitive_programming") == "competitive_programming" && Slug("syntax") == "syntax"
    ensures Slug("default") == "default" && Slug("standard") == "standard" && Slug("baseline") == "baseline"
    ensures Slug("reject") == "reject" && Slug("en") == "en" && Slug("icpc") == "icpc"
  {
    hide Slug, Trim, Lower, IsSpace;
    ExampleName("competitive_programming");
    ExampleName("syntax");
    ExampleName("default");
    ExampleName("standard");
    ExampleName("baseline");
    ExampleName("reject");
    ExampleName("en");
    ExampleName("icpc");
  }

  lemma ExampleName(s: string)
    requires s in {"competitive_programming", "syntax", "default", "standard", "baseline", "reject", "en", "icpc"}
    ensures Slug(s) == s
  {
    hide Slug;
    SlugIsId(s);
  }

  lemma ExampleSchema()
    ensures Trim(REQUEST_SCHEMA) == REQUEST_SCHEMA && Trim("") == ""
  {
    TrimIsId(REQUEST_SCHEMA);
    TrimIsId("");
  }

  lemma ExampleLists()
    ensures NormalizedNames(["cpp"]) == ["cpp"] && NormalizedNames(["algoforge"]) == ["algoforge"]
    ensures NormalizedPoints(["dp"], SINGLE) == ["dp"] && NormalizedStrings([]) == [] && Slug(SINGLE) == SINGLE
  {
    hide NormalizedNames, NormalizedPoints, NormalizedStrings, Slug;
    SlugIsId("cpp");
    SlugIsId("algoforge");
    SlugIsId("dp");
    SlugIsId(SINGLE);
    OneName("cpp");
    OneName("algoforge");
    OnePoint();
    NoNames();
  }

  lemma ExampleIsCanonical()
    ensures Canonical(EXAMPLE) == EXAMPLE
  {
    hide Slug, Trim, REQUEST_SCHEMA, NormalizedNames, NormalizedStrings, NormalizedPoints;
    ExampleNames();
    ExampleSchema();
    ExampleLists();
  }

  lemma OneName(s: string)
    requires Slug(s) == s && Trim(s) == s
    ensures NormalizedNames([s]) == [s]
  {
    hide Trim, Less;
    OneSorted(s);
    assert Map([s], Lower) == [Lower(s)];
  }

  lemma OnePoint()
    requires Slug("dp") == "dp"
    ensures NormalizedPoints(["dp"], SINGLE) == ["dp"]
  {
    hide Slug, Less;
    assert Map(["dp"], Slug) == ["dp"];
    assert ["dp"][1..] == [];
    assert Sort(["dp"], Less) == Insert("dp", Sort(["dp"][1..], Less), Less);
  }

  lemma NoNames()
    ensures NormalizedStrings([]) == []
  {
  }

  /** The requests that are accepted are not an empty class. */
  lemma ExampleIsAccepted()
    ensures Accepted(EXAMPLE)
  {
    ExampleIsCanonical();
    var r := EXAMPLE;
    hide Canonical, Slug;
    OneValue("dp");
    OneValue("cpp");
    OneValue("algoforge");
    TrimIsId(r.domain.name);
    hide Trim, UniqueNonEmpty;
  }

  lemma OneValue(s: string)
    requires s != "" && !IsSpace(s[0]) && !IsSpace(s[|s| - 1])
    ensures UniqueNonEmpty([s])
  {
    TrimIsId(s);
    hide Trim;
    assert Map([s], Trim) == [s];
  }

  /** An accepted request is a fixed point of Canonical after one application, and lowering it
      or its canonical form is the same. */
  lemma AcceptedIsCanonicalOnce(r: Request)
    requires Accepted(r)
    ensures Canonical(Canonical(r)) == Canonical(r) && ToParams(Canonical(r)) == ToParams(r) && Accepted(Canonical(r))
  {
    var c := Canonical(r);
    NamesTwice(r.languages);
    NamesTwice(r.output.formats);
    assert |c.languages| == 1 && |c.output.formats| == 1 && c.quality.auditProfiles == [];
    hide Slug, Trim, CanonicalDomain, CanonicalConstraints, NormalizedNames, LoweredConfig, StandardEvidence, Complaint;
    TrimTwice(r.schemaVersion);
    TrimTwice(r.custom);
    TrimTwice(r.runtime.statement);
    TrimTwice(r.runtime.verification);
    SlugTwice(r.difficulty.calibration);
    SlugTwice(r.problemType);
    SlugTwice(r.quality.strategy);
    SlugTwice(r.quality.dedupMode);
    SlugTwice(r.output.evidenceLevel);
    SlugTwice(r.locale);
    SlugTwice(r.contestStyle);
    DomainTwice(r.domain);
    ConstraintsTwice(r.constraints);
  }

  lemma DomainTwice(t: DomainTarget)
    ensures CanonicalDomain(CanonicalDomain(t)) == CanonicalDomain(t)
  {
    hide Slug, NormalizedPoints;
    SlugTwice(t.name);
    SlugTwice(t.level);
    SlugTwice(t.combination.mode);
    PointsAreSettled(t.points, Slug(t.combination.mode));
  }

  lemma ConstraintsTwice(c: Constraints)
    ensures CanonicalConstraints(CanonicalConstraints(c)) == CanonicalConstraints(c)
  {
  }

  /** Of a single name: sorting and lower-casing it again changes nothing. */
  lemma NamesTwice(values: seq<string>)
    requires |NormalizedNames(values)| == 1
    ensures NormalizedNames(NormalizedNames(values)) == NormalizedNames(values)
  {
    hide Trim, Less, Lower, NormalizedStrings;
    LengthKept(values);
    assert values == [values[0]];
    OneSorted(values[0]);
    assert NormalizedNames(values) == [Slug(values[0])];
    OneSorted(Slug(values[0]));
    SlugTwice(values[0]);
  }

  lemma LengthKept(values: seq<string>)
    ensures |NormalizedStrings(values)| == |values|
  {
    hide Trim, Less;
    LessIsAsymmetric();
    SortSorts(Map(values, Trim), Less);
  }

  lemma OneSorted(s: string)
    ensures NormalizedStrings([s]) == [Trim(s)]
  {
    hide Trim, Less;
    assert Map([s], Trim) == [Trim(s)];
    assert [Trim(s)][1..] == [];
    assert Sort([Trim(s)], Less) == Insert(Trim(s), Sort([Trim(s)][1..], Less), Less);
  }

  /** The generated suites that the lowered parameters accept are those the request asks for:
      up to an explicit count, or inside the adaptive bounds with room for the samples. */
  lemma LoweredCountsAreRequested(r: Request, actual: int)
    requires Accepted(r)
    ensures var c := Canonical(r).constraints;
            AcceptsCount(ToParams(r).config, actual) <==>
            if c.testCaseCount > 0 && !c.autoCaseCount then 1 <= actual <= c.testCaseCount
            else if c.testCaseCount > 0 then Max(MIN_ADAPTIVE, c.sampleCount) <= actual <= c.testCaseCount
            else Max(c.testCaseCountMin, c.sampleCount) <= actual <= c.testCaseCountMax
  {
    hide Slug, Trim, CanonicalDomain, NormalizedNames, NormalizedStrings, StandardEvidence, Accepted;
    AcceptedConstraints(r);
  }

  lemma AcceptedConstraints(r: Request)
    requires Accepted(r)
    ensures ValidConstraints(Canonical(r).constraints)
  {
    hide Canonical, ValidConstraints, ValidDomain, ValidQuality, ValidOutput, UniqueNonEmpty, ValidDifficulty,
         ByteLength;
  }

  /** Every lowered parameter is what the request asks for: its numbers as they are, its names
      without surrounding space and in lower case, its lists canonical. */
  lemma ParamsAreRequested(r: Request)
    ensures var p := ToParams(r);
            && p.timeLimit == r.constraints.timeLimitMs && p.memoryLimit == r.constraints.memoryLimitMb
            && p.difficulty == r.difficulty.rating && p.similarLimit == r.quality.similarLimit
            && p.config.numSamples == r.constraints.sampleCount
            && p.level == Lower(Trim(r.domain.level)) && p.locale == Lower(Trim(r.locale))
            && p.contestStyle == Lower(Trim(r.contestStyle)) && p.custom == Trim(r.custom)
            && p.languages == Map(Sort(Map(r.languages, Trim), Less), Lower)
            && p.tags == NormalizedPoints(r.domain.points, p.combination.mode)
            && p.combination.mode == Lower(Trim(r.domain.combination.mode))
            && p.combination.maxConcepts
               == (if r.domain.combination.maxConcepts == 0 then |r.domain.points|
                   else r.domain.combination.maxConcepts)
            && (p.evidence.Some? <==> Lower(Trim(r.output.evidenceLevel)) == "standard")
            && (p.evidence.Some? ==>
                  p.evidence.value.editorial == r.output.editorial && p.evidence.value.solutions == r.output.solutions
                  && p.evidence.value.testData == r.output.testData
                  && p.evidence.value.arm == "A" && p.evidence.value.armMode == "baseline_passthrough"
                  && p.evidence.value.behavior == "unchanged"
                  && p.evidence.value.jobContract == "algoforge.generation-job.v1")
  {
    hide Trim, Lower, Sort, Less;
    PointsAreSettled(r.domain.points, Slug(r.domain.combination.mode));
  }

  // ------------------------------------------------------- what ValidateV1 accepts

  /** The conditions on the knowledge points, read off the request as it was sent. */
  predicate FitsDomain(t: DomainTarget) {
    var slugs := Map(t.points, Slug);
    && Slug(t.name) == "competitive_programming" && Slug(t.level) in {"syntax", "algorithm"}
    && Slug(t.combination.mode) in {"single", "set", "sequence", "mixed"}
    && slugs != [] && (forall i | 0 <= i < |slugs| :: slugs[i] != "")
    && (forall i, j | 0 <= i < j < |slugs| :: slugs[i] != slugs[j])
    && (Slug(t.combination.mode) == "single" ==> |slugs| == 1)
    && (Slug(t.combination.mode) == "mixed" ==> |slugs| >= 2)
    && (t.combination.maxConcepts == 0 || t.combination.maxConcepts >= |slugs|)
  }

  predicate FitsDifficulty(d: Difficulty, level: string) {
    && (if level == "syntax" then 800 <= d.rating <= 1200 else 1300 <= d.rating <= 3500)
    && d.rating % 100 == 0 && d.tolerance == 0 && Slug(d.calibration) in {"", "default"}
  }

  predicate FitsConstraints(c: Constraints) {
    && c.timeLimitMs > 0 && c.memoryLimitMb > 0 && c.maxInputBytes == 0 && c.maxOutputBytes == 0
    && c.sampleCount >= 0
    && if c.testCaseCount == 0 then
         var min, max := if c.testCaseCountMin == 0 then 10 else c.testCaseCountMin,
                         if c.testCaseCountMax == 0 then 20 else c.testCaseCountMax;
         10 <= min <= max <= 20 && c.sampleCount <= max
       else
         && c.testCaseCountMin == 0 && c.testCaseCountMax == 0 && c.sampleCount <= c.testCaseCount
         && (if c.autoCaseCount then 10 <= c.testCaseCount <= 20 else 1 <= c.testCaseCount <= 32)
  }

  predicate FitsQuality(q: Quality) {
    && Slug(q.strategy) == "baseline" && Slug(q.dedupMode) == "reject" && q.similarLimit >= 0
    && q.budget.calls == 0 && q.budget.tokens == 0 && q.budget.regenerations == 0
    && 60 <= q.budget.wallSeconds <= 86400 && q.auditProfiles == []
  }

  predicate FitsOutput(o: Output) {
    && Slug(o.evidenceLevel) in {"minimal", "standard", "audit"}
    && |o.formats| == 1 && Slug(o.formats[0]) == "algoforge" && o.editorial && o.solutions && o.testData
  }

  predicate FitsSurface(r: Request) {
    && Trim(r.schemaVersion) == REQUEST_SCHEMA && r.candidateCount == 1 && r.randomSeed.None?
    && Slug(r.problemType) == "standard" && Slug(r.locale) in {"en", "zh"}
    && |r.languages| == 1 && Slug(r.languages[0]) in {"c", "cpp", "python3", "java", "go"}
    && ByteLength(Trim(r.custom)) <= 16384
    && Trim(r.runtime.statement) in {"", "default", "default-statement"}
    && Trim(r.runtime.verification) in {"", "default", "default-verification"}
  }

  lemma PointsArePermuted(values: seq<string>, mode: string)
    ensures multiset(NormalizedPoints(values, mode)) == multiset(Map(values, Slug))
  {
    hide Slug, Less, Sort;
    var slugs := Map(values, Slug);
    LessIsAsymmetric();
    if mode == MIXED {
      if slugs != [] {
        SortSorts(slugs[1..], Less);
        assert slugs == [slugs[0]] + slugs[1..];
      }
    } else if mode != SEQUENCE {
      SortSorts(slugs, Less);
    }
  }

  /** The points of the canonical request are in order exactly when those of the request are. */
  lemma PointsFit(values: seq<string>, mode: string)
    ensures var points := NormalizedPoints(values, mode);
            && |points| == |values|
            && (UniqueNonEmpty(points) <==>
                values != [] && NonEmpty(Map(values, Slug)) && Distinct(Map(values, Slug)))
  {
    hide Slug, Less, Sort, Trim, NonEmpty, Distinct, NormalizedPoints;
    PointsAreSettled(values, mode);
    PointsArePermuted(values, mode);
    SameMembers(NormalizedPoints(values, mode), Map(values, Slug));
  }

  lemma DomainFits(t: DomainTarget)
    ensures FitsDomain(t) <==>
            var c := CanonicalDomain(t);
            && c.name == "competitive_programming" && (c.level == "syntax" || c.level == "algorithm")
            && ValidDomain(c) && IsMode(c.combination.mode)
    ensures CanonicalDomain(t).level == Slug(t.level)
    ensures t.combination.maxConcepts == 0 ==> CanonicalDomain(t).combination.maxConcepts == |t.points|
  {
    hide Slug, Less, Sort, Trim, NormalizedPoints, UniqueNonEmpty;
    SlugTwice(t.name);
    PointsFit(t.points, Slug(t.combination.mode));
  }

  lemma ConstraintsFit(c: Constraints)
    ensures FitsConstraints(c) <==>
            var canonical := CanonicalConstraints(c);
            ValidConstraints(canonical) && canonical.maxInputBytes == 0 && canonical.maxOutputBytes == 0
  {
  }

  lemma NameFits(values: seq<string>, name: string)
    requires name != ""
    ensures NormalizedNames(values) == [name] <==> |values| == 1 && Slug(values[0]) == name
    ensures |NormalizedNames(values)| == |values|
    ensures |values| == 1 ==> NormalizedNames(values) == [Slug(values[0])]
    ensures NormalizedNames(values) == [name] ==> UniqueNonEmpty([name])
  {
    hide Trim, Less, Lower, NormalizedStrings;
    LengthKept(values);
    if |values| == 1 {
      assert values == [values[0]];
      OneSorted(values[0]);
      SlugTwice(values[0]);
      assert NormalizedNames(values)[0] == Slug(values[0]);
    }
  }

  lemma OutputFits(r: Request)
    ensures FitsOutput(r.output) <==>
            var o := Canonical(r).output;
            o.formats == ["algoforge"] && ValidOutput(o) && o.editorial && o.solutions && o.testData
  {
    hide Slug, Trim, NormalizedNames, UniqueNonEmpty, CanonicalDomain, CanonicalConstraints, NormalizedStrings;
    NameFits(r.output.formats, "algoforge");
  }

  lemma LanguagesFit(values: seq<string>)
    ensures var c := NormalizedNames(values);
            |values| == 1 && Slug(values[0]) in {"c", "cpp", "python3", "java", "go"} <==>
            |c| == 1 && IsLanguage(c[0]) && UniqueNonEmpty(c)
    ensures var c := NormalizedNames(values); |c| == 1 && c[0] == "" ==> !UniqueNonEmpty(c)
    ensures |NormalizedNames(values)| == |values|
  {
    hide Slug, Trim, NormalizedNames;
    NameFits(values, "c");
    if |values| == 1 {
      SlugTwice(values[0]);
      var trimmed := Map([Slug(values[0])], Trim);
      assert trimmed == [Slug(values[0])];
    }
  }

  /** ValidateV1 accepts exactly the requests that fit, read as they were sent. */
  lemma AcceptedExactly(r: Request)
    ensures Accepted(r) <==>
            && FitsSurface(r) && FitsDomain(r.domain) && FitsDifficulty(r.difficulty, Slug(r.domain.level))
            && FitsConstraints(r.constraints) && FitsQuality(r.quality) && FitsOutput(r.output)
  {
    hide Slug, Trim, CanonicalDomain, CanonicalConstraints, NormalizedNames, NormalizedStrings, ValidDomain,
         FitsDomain, FitsConstraints, ValidConstraints, FitsOutput, UniqueNonEmpty, ByteLength;
    DomainFits(r.domain);
    ConstraintsFit(r.constraints);
    OutputFits(r);
    LanguagesFit(r.languages);
    NoProfiles(r.quality.auditProfiles);
  }

  lemma NoProfiles(values: seq<string>)
    ensures NormalizedStrings(values) == [] <==> values == []
  {
    hide Trim, Less, NormalizedStrings;
    LengthKept(values);
  }
}
