/** Concept pools and structural signatures (backend/internal/diversity/contract.go and
    signature.go). */
module Concepts {
  import opened Wrappers
  import opened Chars
  import opened Ordering

  const POOL_SCHEMA := "algoforge.s5-concept-pool.v1"
  const SPEC_SCHEMA := "algoforge.s5-concept-spec.v1"
  const CANONICALIZER := "algoforge.s5-concept-canonicalizer.v1"
  const INVALID := "invalid"
  const VIABLE := "viable"
  const UNCERTAIN := "uncertain"
  const UNKNOWN := "unknown"

  // -------------------------------------------------------------- identifiers

  /** unicode.IsControl */
  predicate IsControl(c: char) { c < ' ' || '\U{7F}' <= c <= '\U{9F}' }

  /** validateStableID */
  predicate StableId(s: string) {
    s != "" && ByteLength(s) <= 256 && forall i | 0 <= i < |s| :: !IsControl(s[i])
  }

  /** sha256Pattern */
  predicate IsSha(s: string) {
    |s| == 64 && forall i | 0 <= i < |s| :: 'a' <= s[i] <= 'f' || '0' <= s[i] <= '9'
  }

  function CanonicalSha(s: string): string { Lower(Trim(s)) }

  lemma ShaIsCanonical(s: string)
    requires IsSha(s)
    ensures CanonicalSha(s) == s
  {
    assert !IsSpace(s[0]) && !IsSpace(s[|s| - 1]);
    TrimIsId(s);
  }

  // -------------------------------------------------------------------- specs

  datatype Spec = Spec(
    schemaVersion: string, canonicalizerVersion: string, confidence: real, tier: string,
    mode: string, input: string, topology: string, operation: string, objective: string,
    state: seq<string>, transition: string, operators: seq<string>, outputForm: string,
    complexity: string, constraints: string, wrongFamilies: seq<string>)

  /** canonicalConceptSpecV1 */
  function CanonicalSpec(s: Spec): Spec {
    Spec(s.schemaVersion, s.canonicalizerVersion, s.confidence, CanonicalLower(s.tier),
         CanonicalLower(s.mode), CanonicalLower(s.input), CanonicalLower(s.topology),
         CanonicalLower(s.operation), CanonicalLower(s.objective),
         CanonicalLowerSet(s.state), CanonicalLower(s.transition), CanonicalLowerList(s.operators),
         CanonicalLower(s.outputForm), CanonicalLower(s.complexity), CanonicalLower(s.constraints),
         CanonicalLowerSet(s.wrongFamilies))
  }

  lemma CanonicalSpecTwice(s: Spec)
    ensures CanonicalSpec(CanonicalSpec(s)) == CanonicalSpec(s)
  {
    CanonicalLowerTwice(s.tier);
    CanonicalLowerTwice(s.mode);
    CanonicalLowerTwice(s.input);
    CanonicalLowerTwice(s.topology);
    CanonicalLowerTwice(s.operation);
    CanonicalLowerTwice(s.objective);
    CanonicalLowerTwice(s.transition);
    CanonicalLowerTwice(s.outputForm);
    CanonicalLowerTwice(s.complexity);
    CanonicalLowerTwice(s.constraints);
    LowerSetTwice(s.state);
    LowerListTwice(s.operators);
    LowerSetTwice(s.wrongFamilies);
    hide CanonicalLower, CanonicalLowerSet, CanonicalLowerList;
  }

  /** validateCanonicalStringList */
  predicate ValidList(values: seq<string>) {
    forall i | 0 <= i < |values| :: values[i] != "" && ByteLength(values[i]) <= 512
  }

  /** validateCanonicalStringSet */
  predicate ValidSet(values: seq<string>) {
    ValidList(values) && forall i | 0 <= i < |values| - 1 :: Less(values[i], values[i + 1])
  }

  predicate Bounded(s: string) { s != "" && ByteLength(s) <= 512 }

  /** ConceptSpecV1.Validate */
  predicate ValidSpec(s: Spec) {
    && s.schemaVersion == SPEC_SCHEMA && s.canonicalizerVersion == CANONICALIZER
    && 0.0 <= s.confidence <= 1.0
    && (s.tier == INVALID || s.tier == VIABLE || s.tier == UNCERTAIN)
    && Bounded(s.mode) && Bounded(s.input) && Bounded(s.topology) && Bounded(s.operation) && Bounded(s.objective)
    && Bounded(s.transition) && Bounded(s.outputForm) && Bounded(s.complexity) && Bounded(s.constraints)
    && s.state != [] && ValidSet(s.state) && s.wrongFamilies != [] && ValidSet(s.wrongFamilies)
    && s.operators != [] && ValidList(s.operators)
  }

  // --------------------------------------------------------------- signatures

  datatype Descriptor = Descriptor(
    confidence: real,
    mode: string, input: string, topology: string, operation: string, objective: string,
    state: seq<string>, transition: string, operators: seq<string>, outputForm: string,
    complexity: string, constraints: string, wrongFamilies: seq<string>)

  datatype Signature = Signature(descriptor: Descriptor, sha: string)

  /** SHA-256 of canonical JSON, as functions of what is encoded. */
  datatype Digests = Digests(pool: Pool -> string, signature: Descriptor -> string)

  ghost predicate AreShas(d: Digests) {
    (forall p: Pool :: IsSha(d.pool(p))) && forall x: Descriptor :: IsSha(d.signature(x))
  }

  function Describe(s: Spec): Descriptor {
    Descriptor(s.confidence, s.mode, s.input, s.topology, s.operation, s.objective, s.state, s.transition,
               s.operators, s.outputForm, s.complexity, s.constraints, s.wrongFamilies)
  }

  /** NewStructuralSignatureV1 */
  function NewSignature(spec: Spec, d: Digests): Option<Signature> {
    var canonical := CanonicalSpec(spec);
    if ValidSpec(canonical) then Some(Signature(Describe(canonical), d.signature(Describe(canonical)))) else None
  }

  /** StructuralSignatureV1.Validate */
  predicate ValidSignature(s: Signature, d: Digests) {
    var x := s.descriptor;
    && 0.0 <= x.confidence <= 1.0
    && x.mode != "" && x.input != "" && x.topology != "" && x.operation != "" && x.objective != ""
    && x.transition != "" && x.outputForm != "" && x.complexity != "" && x.constraints != ""
    && x.state != [] && ValidSet(x.state) && x.wrongFamilies != [] && ValidSet(x.wrongFamilies)
    && x.operators != [] && ValidList(x.operators)
    && IsSha(s.sha) && s.sha == d.signature(x)
  }

  lemma NewSignatureIsValid(spec: Spec, d: Digests)
    requires AreShas(d) && ValidSpec(CanonicalSpec(spec))
    ensures NewSignature(spec, d).Some? && ValidSignature(NewSignature(spec, d).value, d)
  {
    hide CanonicalSpec, ValidSet, ValidList;
  }

  /** The same text up to white space and case. */
  predicate SameName(a: string, b: string) { CanonicalLower(a) == CanonicalLower(b) }

  /** The same texts in any order, and in the same order. */
  predicate SameSet(a: seq<string>, b: seq<string>) {
    multiset(CanonicalLowerList(a)) == multiset(CanonicalLowerList(b))
  }

  predicate SameList(a: seq<string>, b: seq<string>) {
    |a| == |b| && forall i | 0 <= i < |a| :: SameName(a[i], b[i])
  }

  lemma SetTells(a: seq<string>, b: seq<string>)
    ensures CanonicalLowerSet(a) == CanonicalLowerSet(b) <==> SameSet(a, b)
  {
    hide CanonicalLowerList, Sort, Less;
    var x, y := CanonicalLowerList(a), CanonicalLowerList(b);
    LessIsAsymmetric();
    SortSorts(x, Less);
    SortSorts(y, Less);
    if SameSet(a, b) {
      SortedStringsAreUnique(Sort(x, Less), Sort(y, Less));
    }
  }

  lemma ListTells(a: seq<string>, b: seq<string>)
    ensures CanonicalLowerList(a) == CanonicalLowerList(b) <==> SameList(a, b)
  {
    hide CanonicalLower;
    if CanonicalLowerList(a) == CanonicalLowerList(b) {
      forall i | 0 <= i < |a|
        ensures CanonicalLower(a[i]) == CanonicalLower(b[i])
      {
        assert CanonicalLowerList(a)[i] == CanonicalLowerList(b)[i];
      }
    }
  }

  /** Two specs have the same structural signature exactly when they state the same facts, up to
      white space, case, and the order of states and wrong-solution families. */
  lemma SignatureTells(s: Spec, t: Spec, d: Digests)
    requires NewSignature(s, d).Some? && NewSignature(t, d).Some?
    ensures NewSignature(s, d) == NewSignature(t, d) <==>
            && s.confidence == t.confidence && SameName(s.mode, t.mode) && SameName(s.input, t.input)
            && SameName(s.topology, t.topology) && SameName(s.operation, t.operation)
            && SameName(s.objective, t.objective) && SameSet(s.state, t.state) && SameName(s.transition, t.transition)
            && SameList(s.operators, t.operators) && SameName(s.outputForm, t.outputForm)
            && SameName(s.complexity, t.complexity) && SameName(s.constraints, t.constraints)
            && SameSet(s.wrongFamilies, t.wrongFamilies)
  {
    SetTells(s.state, t.state);
    SetTells(s.wrongFamilies, t.wrongFamilies);
    ListTells(s.operators, t.operators);
    hide CanonicalLower, CanonicalLowerSet, CanonicalLowerList, SameSet, SameList, ValidSpec;
  }

  // ----------------------------------------------------------------- distance

  predicate DifferentKnown(left: string, right: string) {
    left != UNKNOWN && right != UNKNOWN && left != right
  }

  predicate DifferentKnownSlice(left: seq<string>, right: seq<string>) {
    UNKNOWN !in left && UNKNOWN !in right && left != right
  }

  function Points(different: bool, points: nat): nat { if different then points else 0 }

  function Coarse(l: Descriptor, r: Descriptor): nat {
    Points(DifferentKnown(l.mode, r.mode), 2) + Points(DifferentKnown(l.input, r.input), 2)
    + Points(DifferentKnown(l.topology, r.topology), 2) + Points(DifferentKnown(l.operation, r.operation), 2)
    + Points(DifferentKnown(l.objective, r.objective), 2)
  }

  function Distance(l: Descriptor, r: Descriptor): nat {
    Coarse(l, r) + Points(DifferentKnownSlice(l.state, r.state), 4)
    + Points(DifferentKnown(l.transition, r.transition), 4)
    + Points(DifferentKnownSlice(l.operators, r.operators), 4)
    + Points(DifferentKnown(l.outputForm, r.outputForm), 4)
  }

  /** The loop of StructuralDistanceV1 over the coarse family. */
  method CoarseDistance(l: Descriptor, r: Descriptor) returns (distance: nat)
    ensures distance == Coarse(l, r)
  {
    distance := 0;
    var pairs := [(l.mode, r.mode), (l.input, r.input), (l.topology, r.topology),
                  (l.operation, r.operation), (l.objective, r.objective)];
    hide DifferentKnown, PairPoints;
    FivePairs(pairs);
    PairStep(pairs, 0);
    for i := 0 to |pairs|
      invariant distance == PairPoints(pairs[..i])
    {
      PairStep(pairs, i);
      if DifferentKnown(pairs[i].0, pairs[i].1) {
        distance := distance + 2;
      }
    }
    assert pairs[..|pairs|] == pairs;
  }

  function PairPoints(pairs: seq<(string, string)>): nat {
    if pairs == [] then 0
    else
      var last := pairs[|pairs| - 1];
      PairPoints(pairs[..|pairs| - 1]) + Points(DifferentKnown(last.0, last.1), 2)
  }

  lemma PairStep(p: seq<(string, string)>, k: nat)
    requires k < |p|
    ensures PairPoints(p[..k + 1]) == PairPoints(p[..k]) + Points(DifferentKnown(p[k].0, p[k].1), 2)
    ensures PairPoints(p[..0]) == 0
  {
    assert p[..k + 1][..k] == p[..k];
  }

  lemma FivePairs(p: seq<(string, string)>)
    requires |p| == 5
    ensures PairPoints(p) == Points(DifferentKnown(p[0].0, p[0].1), 2) + Points(DifferentKnown(p[1].0, p[1].1), 2)
                             + Points(DifferentKnown(p[2].0, p[2].1), 2) + Points(DifferentKnown(p[3].0, p[3].1), 2)
                             + Points(DifferentKnown(p[4].0, p[4].1), 2)
  {
    hide DifferentKnown, Points, PairPoints;
    PairStep(p, 0);
    PairStep(p, 1);
    PairStep(p, 2);
    PairStep(p, 3);
    PairStep(p, 4);
    assert p[..5] == p;
  }

  /** StructuralDistanceV1 */
  method StructuralDistance(left: Signature, right: Signature, d: Digests) returns (distance: nat, ok: bool)
    ensures ok <==> ValidSignature(left, d) && ValidSignature(right, d)
    ensures ok ==> distance == Distance(left.descriptor, right.descriptor)
  {
    hide ValidSignature, DifferentKnown, DifferentKnownSlice, Coarse;
    if !ValidSignature(left, d) || !ValidSignature(right, d) {
      return 0, false;
    }
    var l, r := left.descriptor, right.descriptor;
    distance := CoarseDistance(l, r);
    if DifferentKnownSlice(l.state, r.state) {
      distance := distance + 4;
    }
    if DifferentKnown(l.transition, r.transition) {
      distance := distance + 4;
    }
    if DifferentKnownSlice(l.operators, r.operators) {
      distance := distance + 4;
    }
    if DifferentKnown(l.outputForm, r.outputForm) {
      distance := distance + 4;
    }
    ok := true;
  }

  /** Two descriptors agree where both are known. */
  predicate Agree(l: string, r: string) { l == UNKNOWN || r == UNKNOWN || l == r }

  predicate AgreeSlice(l: seq<string>, r: seq<string>) { UNKNOWN in l || UNKNOWN in r || l == r }

  /** The distance is symmetric, at most 26, and zero exactly when every structural fact the
      two sides both know is the same: a missing fact never counts as diversity. */
  lemma DistanceLaws(l: Descriptor, r: Descriptor)
    ensures Distance(l, r) == Distance(r, l) <= 26
    ensures Distance(l, r) == 0 <==>
            && Agree(l.mode, r.mode) && Agree(l.input, r.input) && Agree(l.topology, r.topology)
            && Agree(l.operation, r.operation) && Agree(l.objective, r.objective) && AgreeSlice(l.state, r.state)
            && Agree(l.transition, r.transition) && AgreeSlice(l.operators, r.operators)
            && Agree(l.outputForm, r.outputForm)
  {
  }

  /** One coarse fact weighs two points, one fine fact four. */
  lemma FactWeights(l: Descriptor, r: Descriptor)
    ensures Distance(l, l.(mode := r.mode)) == if Agree(l.mode, r.mode) then 0 else 2
    ensures Distance(l, l.(input := r.input)) == if Agree(l.input, r.input) then 0 else 2
    ensures Distance(l, l.(topology := r.topology)) == if Agree(l.topology, r.topology) then 0 else 2
    ensures Distance(l, l.(operation := r.operation)) == if Agree(l.operation, r.operation) then 0 else 2
    ensures Distance(l, l.(objective := r.objective)) == if Agree(l.objective, r.objective) then 0 else 2
    ensures Distance(l, l.(state := r.state)) == if AgreeSlice(l.state, r.state) then 0 else 4
    ensures Distance(l, l.(transition := r.transition)) == if Agree(l.transition, r.transition) then 0 else 4
    ensures Distance(l, l.(operators := r.operators)) == if AgreeSlice(l.operators, r.operators) then 0 else 4
    ensures Distance(l, l.(outputForm := r.outputForm)) == if Agree(l.outputForm, r.outputForm) then 0 else 4
  {
  }

  /** The distance adds up the facts one by one. */
  lemma FactsAddUp(l: Descriptor, r: Descriptor)
    ensures Distance(l, r)
            == Distance(l, l.(mode := r.mode)) + Distance(l, l.(input := r.input))
               + Distance(l, l.(topology := r.topology))
               + Distance(l, l.(operation := r.operation)) + Distance(l, l.(objective := r.objective))
               + Distance(l, l.(state := r.state)) + Distance(l, l.(transition := r.transition))
               + Distance(l, l.(operators := r.operators)) + Distance(l, l.(outputForm := r.outputForm))
  {
    FactWeights(l, r);
  }

  /** Confidence, complexity, constraints and wrong-solution families never count. */
  lemma WeakSignalsDoNotCount(l: Descriptor, r: Descriptor,
    c: real, complexity: string, constraints: string, families: seq<string>)
    ensures Distance(l.(confidence := c, complexity := complexity, constraints := constraints,
                     wrongFamilies := families), r)
            == Distance(l, r)
  {
  }

  // -------------------------------------------------------------------- pools

  datatype Receipt = Receipt(sha: string, uri: string)

  datatype Usage = Usage(calls: int, retries: int, tokens: int, wall: int)

  datatype Budget = Budget(attempts: int, concepts: int, calls: int, retries: int, tokens: int, wall: int)

  datatype Card = Card(index: int, id: string, pitch: string, questions: seq<string>, spec: Spec)

  datatype Attempt = Attempt(index: int, logicalId: string, receipt: Receipt, usage: Usage, concepts: seq<Card>)

  datatype Normalization = Normalization(version: string, receipt: Receipt, usage: Usage)

  datatype Pool = Pool(
    schemaVersion: string, batchId: string, slotIndex: int, slotId: string, briefSha: string,
    corpusRevision: string, budget: Budget, attempts: seq<Attempt>, normalization: Normalization)

  function CanonicalReceipt(r: Receipt): Receipt { Receipt(CanonicalSha(r.sha), Trim(r.uri)) }

  function CanonicalCard(c: Card): Card {
    Card(c.index, CanonicalText(c.id), CanonicalText(c.pitch), CanonicalSet(c.questions), CanonicalSpec(c.spec))
  }

  predicate CardBefore(a: Card, b: Card) { a.index < b.index }

  function CanonicalAttempt(a: Attempt): Attempt {
    Attempt(a.index, CanonicalText(a.logicalId), CanonicalReceipt(a.receipt), a.usage,
            Sort(Map(a.concepts, CanonicalCard), CardBefore))
  }

  predicate AttemptBefore(a: Attempt, b: Attempt) { a.index < b.index }

  /** canonicalizeConceptPoolV1, before it validates */
  function CanonicalPool(p: Pool): Pool {
    Pool(p.schemaVersion, CanonicalText(p.batchId), p.slotIndex, CanonicalText(p.slotId), CanonicalSha(p.briefSha),
         CanonicalSha(p.corpusRevision), p.budget,
         Sort(Map(p.attempts, CanonicalAttempt), AttemptBefore),
         Normalization(CanonicalText(p.normalization.version), CanonicalReceipt(p.normalization.receipt),
                       p.normalization.usage))
  }

  predicate ValidReceipt(r: Receipt) { IsSha(r.sha) && Trim(r.uri) != "" && ByteLength(r.uri) <= 2048 }

  predicate ValidUsage(u: Usage) {
    u.retries >= 0 && u.calls == 1 + u.retries && u.tokens >= 0 && u.wall >= 0
  }

  predicate ValidBudget(b: Budget) {
    b.attempts == 2 && b.concepts == 4 && b.calls >= 3 && b.retries >= 0 && b.tokens > 0 && b.wall > 0
  }

  function Plus(a: Usage, b: Usage): Usage {
    Usage(a.calls + b.calls, a.retries + b.retries, a.tokens + b.tokens, a.wall + b.wall)
  }

  predicate WithinBudget(u: Usage, b: Budget) {
    u.calls <= b.calls && u.retries <= b.retries && u.tokens <= b.tokens && u.wall <= b.wall
  }

  predicate ValidCard(c: Card, index: int) {
    && c.index == index && StableId(c.id)
    && c.pitch != "" && ByteLength(c.pitch) <= 4096
    && |c.questions| <= 16 && ValidSet(c.questions)
    && ValidSpec(c.spec)
  }

  predicate ValidAttempt(a: Attempt, index: int) {
    && a.index == index && StableId(a.logicalId) && ValidReceipt(a.receipt) && ValidUsage(a.usage)
    && |a.concepts| == 2 && ValidCard(a.concepts[0], 0) && ValidCard(a.concepts[1], 1)
  }

  /** The cards of a pool in canonical order. */
  function Cards(p: Pool): seq<Card> { Flatten(p.attempts) }

  function Flatten(attempts: seq<Attempt>): seq<Card> {
    if attempts == [] then [] else attempts[0].concepts + Flatten(attempts[1..])
  }

  function CardId(c: Card): string { c.id }

  function Ids(cards: seq<Card>): seq<string> { Map(cards, CardId) }

  function PitchKey(c: Card): string { Lower(c.pitch) }

  /** ConceptPoolV1.Validate */
  predicate ValidPool(p: Pool) {
    && p.schemaVersion == POOL_SCHEMA
    && StableId(p.batchId) && p.slotIndex >= 0 && StableId(p.slotId)
    && IsSha(p.briefSha) && IsSha(p.corpusRevision) && ValidBudget(p.budget)
    && StableId(p.normalization.version) && ValidReceipt(p.normalization.receipt) && ValidUsage(p.normalization.usage)
    && |p.attempts| == 2 && ValidAttempt(p.attempts[0], 0) && ValidAttempt(p.attempts[1], 1)
    && p.attempts[0].logicalId != p.attempts[1].logicalId
    && Distinct(Ids(Cards(p)))
    && Distinct(Map(Cards(p), PitchKey))
    && WithinBudget(Plus(p.normalization.usage, Plus(p.attempts[0].usage, p.attempts[1].usage)), p.budget)
  }

  // ---- order does not matter ----

  datatype AttemptBag = AttemptBag(rest: Attempt, concepts: multiset<Card>)

  datatype PoolBag = PoolBag(rest: Pool, attempts: multiset<AttemptBag>)

  /** An attempt without the order of its concepts. */
  function BagOfAttempt(a: Attempt): AttemptBag { AttemptBag(a.(concepts := []), multiset(a.concepts)) }

  /** A pool without the order of its attempts and of their concepts. */
  function BagOfPool(p: Pool): PoolBag { PoolBag(p.(attempts := []), multiset(Map(p.attempts, BagOfAttempt))) }

  lemma AttemptOrderFree(a: Attempt, b: Attempt)
    requires BagOfAttempt(a) == BagOfAttempt(b)
    requires Ascending(CanonicalAttempt(a).concepts, (c: Card) => c.index)
    ensures CanonicalAttempt(a) == CanonicalAttempt(b)
  {
    hide CanonicalCard, CanonicalReceipt, CanonicalText;
    var self := (c: Card) => c;
    assert Map(a.concepts, self) == a.concepts && Map(b.concepts, self) == b.concepts;
    SameImages(a.concepts, b.concepts, self, CanonicalCard);
    var x, y := Map(a.concepts, CanonicalCard), Map(b.concepts, CanonicalCard);
    SortSorts(x, CardBefore);
    SortSorts(y, CardBefore);
    SortedByIndex(Sort(y, CardBefore));
    SortedOrderIsUnique(Sort(x, CardBefore), Sort(y, CardBefore), (c: Card) => c.index);
    assert a.(concepts := []) == b.(concepts := []);
  }

  lemma SortedByIndex(cards: seq<Card>)
    requires Ordered(cards, CardBefore)
    ensures Ordered(cards, (a, b) => ((c: Card) => c.index)(a) < ((c: Card) => c.index)(b))
  {
    forall i | 0 <= i < |cards| - 1
      ensures cards[i + 1].index >= cards[i].index
    {
      assert !CardBefore(cards[i + 1], cards[i]);
    }
  }

  lemma AttemptsByIndex(attempts: seq<Attempt>)
    requires Ordered(attempts, AttemptBefore)
    ensures Ordered(attempts, (a, b) => ((c: Attempt) => c.index)(a) < ((c: Attempt) => c.index)(b))
  {
    forall i | 0 <= i < |attempts| - 1
      ensures attempts[i + 1].index >= attempts[i].index
    {
      assert !AttemptBefore(attempts[i + 1], attempts[i]);
    }
  }

  lemma CanonicalMember(attempts: seq<Attempt>, a: Attempt)
    requires a in attempts
    ensures CanonicalAttempt(a) in Sort(Map(attempts, CanonicalAttempt), AttemptBefore)
  {
    hide CanonicalAttempt, Sort;
    var x := Map(attempts, CanonicalAttempt);
    SortSorts(x, AttemptBefore);
    var i :| 0 <= i < |attempts| && attempts[i] == a;
    assert x[i] in multiset(x);
    assert x[i] in multiset(Sort(x, AttemptBefore));
  }

  /** A valid pool has its attempts, and every attempt its concepts, at indices 0 and 1. */
  lemma ValidPoolAscends(p: Pool)
    requires ValidPool(p)
    ensures Ascending(p.attempts, (a: Attempt) => a.index)
    ensures forall a | a in p.attempts :: Ascending(a.concepts, (c: Card) => c.index)
  {
    hide StableId, ValidReceipt, IsSha, Distinct, Cards, ValidUsage, ValidBudget, WithinBudget, ValidSet, ValidSpec;
  }

  /** Attempts that differ in order, or in the order of their concepts, have one canonical
      form if one of their canonical forms is strictly ordered throughout. */
  lemma AttemptsOrderFree(xs: seq<Attempt>, ys: seq<Attempt>)
    requires multiset(Map(xs, BagOfAttempt)) == multiset(Map(ys, BagOfAttempt))
    requires var x := Sort(Map(xs, CanonicalAttempt), AttemptBefore);
             && Ascending(x, (a: Attempt) => a.index)
             && forall a | a in x :: Ascending(a.concepts, (c: Card) => c.index)
    ensures Sort(Map(xs, CanonicalAttempt), AttemptBefore) == Sort(Map(ys, CanonicalAttempt), AttemptBefore)
  {
    hide Sort, CanonicalAttempt, BagOfAttempt, Ascending;
    forall a, b | a in xs && b in ys && BagOfAttempt(a) == BagOfAttempt(b)
      ensures CanonicalAttempt(a) == CanonicalAttempt(b)
    {
      CanonicalMember(xs, a);
      AttemptOrderFree(a, b);
    }
    SameImages(xs, ys, BagOfAttempt, CanonicalAttempt);
    var x, y := Map(xs, CanonicalAttempt), Map(ys, CanonicalAttempt);
    SortSorts(x, AttemptBefore);
    SortSorts(y, AttemptBefore);
    AttemptsByIndex(Sort(y, AttemptBefore));
    SortedOrderIsUnique(Sort(x, AttemptBefore), Sort(y, AttemptBefore), (c: Attempt) => c.index);
  }

  /** Pools that differ in the order of attempts or concepts only have the same canonical
      form as soon as it is valid. */
  lemma PoolOrderFree(p: Pool, q: Pool)
    requires BagOfPool(p) == BagOfPool(q) && ValidPool(CanonicalPool(p))
    ensures CanonicalPool(q) == CanonicalPool(p)
  {
    ValidPoolAscends(CanonicalPool(p));
    assert p.(attempts := []) == q.(attempts := []);
    hide ValidPool, CanonicalText, CanonicalSha, CanonicalReceipt, Sort, CanonicalAttempt, Ascending;
    AttemptsOrderFree(p.attempts, q.attempts);
  }
}
