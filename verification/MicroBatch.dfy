/** SelectMicroBatchV1 as a whole (backend/internal/diversity/selector.go:60-170): what is
    accepted, what is selected, and why neither depends on the order of the input. */
module MicroBatch {
  import opened Wrappers
  import opened Ordering
  import opened Concepts
  import opened Selector
  import Chars

  // --------------------------------------------------------------- candidates

  predicate Keep(c: Card, viableOnly: bool) {
    if viableOnly then c.spec.tier == VIABLE else c.spec.tier != INVALID
  }

  predicate Signed(cards: seq<Card>, d: Digests) {
    forall i | 0 <= i < |cards| :: NewSignature(cards[i].spec, d).Some?
  }

  function CandidateOf(p: Pool, c: Card, d: Digests): Candidate
    requires NewSignature(c.spec, d).Some?
  {
    Candidate(p.slotIndex, p.slotId, d.pool(p), c, NewSignature(c.spec, d).value)
  }

  /** The candidates of a pool among cards: the viable ones, or all that are not invalid. */
  function Chosen(p: Pool, cards: seq<Card>, d: Digests, viableOnly: bool): seq<Candidate>
    requires Signed(cards, d)
  {
    if cards == [] then []
    else
      var last := cards[|cards| - 1];
      assert NewSignature(last.spec, d).Some?;
      Chosen(p, cards[..|cards| - 1], d, viableOnly)
      + (if Keep(last, viableOnly) then [CandidateOf(p, last, d)] else [])
  }

  /** A chosen candidate comes from a card that is kept. */
  lemma {:induction false} ChosenSound(p: Pool, cards: seq<Card>, d: Digests, v: bool, c: Candidate)
    requires Signed(cards, d) && c in Chosen(p, cards, d, v)
    ensures c.card in cards && Keep(c.card, v) && NewSignature(c.card.spec, d).Some? && c == CandidateOf(p, c.card, d)
  {
    hide NewSignature, Keep;
    var last, shorter := cards[|cards| - 1], cards[..|cards| - 1];
    if c in Chosen(p, shorter, d, v) {
      ChosenSound(p, shorter, d, v, c);
    } else {
      assert Keep(last, v) && c == CandidateOf(p, last, d);
    }
  }

  /** A card that is kept gives a candidate. */
  lemma {:induction false} ChosenComplete(p: Pool, cards: seq<Card>, d: Digests, v: bool, k: nat)
    requires Signed(cards, d) && k < |cards| && Keep(cards[k], v)
    ensures CandidateOf(p, cards[k], d) in Chosen(p, cards, d, v)
  {
    hide NewSignature, Keep;
    var shorter := cards[..|cards| - 1];
    if k < |shorter| {
      ChosenComplete(p, shorter, d, v, k);
    } else {
      assert CandidateOf(p, cards[k], d) in [CandidateOf(p, cards[k], d)];
    }
  }

  lemma ChosenStep(p: Pool, cards: seq<Card>, c: Card, d: Digests, v: bool)
    requires Signed(cards, d) && NewSignature(c.spec, d).Some?
    ensures Signed(cards + [c], d)
    ensures Chosen(p, cards + [c], d, v) == Chosen(p, cards, d, v) + (if Keep(c, v) then [CandidateOf(p, c, d)] else [])
  {
    hide NewSignature, Keep, CandidateOf;
    assert (cards + [c])[..|cards + [c]| - 1] == cards;
  }

  lemma {:induction false} FlattenStep(attempts: seq<Attempt>, i: nat)
    requires i < |attempts|
    ensures Flatten(attempts[..i + 1]) == Flatten(attempts[..i]) + attempts[i].concepts
  {
    if i > 0 {
      FlattenStep(attempts[1..], i - 1);
      assert attempts[1..][..i] == attempts[..i + 1][1..];
      assert attempts[1..][..i - 1] == attempts[..i][1..];
    } else {
      assert attempts[..1][1..] == [];
      assert Flatten(attempts[..1]) == attempts[0].concepts + [];
    }
  }

  /** The ids are distinct and none of them was seen before. */
  ghost predicate FreshIds(cards: seq<Card>, seen: set<string>) {
    Distinct(Ids(cards)) && forall x | x in Ids(cards) :: x !in seen
  }

  lemma FreshIdsStep(cards: seq<Card>, c: Card, seen: set<string>)
    ensures Ids(cards + [c]) == Ids(cards) + [c.id]
    ensures FreshIds(cards + [c], seen) <==> FreshIds(cards, seen) && c.id !in seen && c.id !in Ids(cards)
  {
    assert Ids(cards + [c]) == Ids(cards) + [c.id];
    DistinctGrows(Ids(cards), c.id);
    hide Distinct;
  }

  lemma FreshIdsPart(cards: seq<Card>, n: nat, seen: set<string>)
    requires n <= |cards|
    ensures FreshIds(cards, seen) ==> FreshIds(cards[..n], seen)
  {
    hide Distinct;
    assert Ids(cards) == Ids(cards[..n]) + Ids(cards[n..]);
    if FreshIds(cards, seen) {
      DistinctPart(Ids(cards[..n]), Ids(cards[n..]));
    }
  }

  /** The body of the selector's loop for one pool. */
  method CollectPool(p: Pool, seen: set<string>, d: Digests)
    returns (all: seq<Candidate>, viable: seq<Candidate>, seen': set<string>, ok: bool)
    requires Signed(Cards(p), d)
    ensures ok <==> FreshIds(Cards(p), seen)
    ensures ok ==> all == Chosen(p, Cards(p), d, false) && viable == Chosen(p, Cards(p), d, true)
    ensures ok ==> forall x :: x in seen' <==> x in seen || x in Ids(Cards(p))
  {
    hide NewSignature, Keep, Chosen, FreshIds, CandidateOf, Ids;
    all, viable, seen' := [], [], seen;
    ghost var done: seq<Card> := [];
    NoneChosen(p, d, seen);
    for i := 0 to |p.attempts|
      invariant done == Flatten(p.attempts[..i]) && Signed(done, d) && FreshIds(done, seen)
      invariant all == Chosen(p, done, d, false) && viable == Chosen(p, done, d, true)
      invariant forall x :: x in seen' <==> x in seen || x in Ids(done)
    {
      FlattenStep(p.attempts, i);
      CardsSplit(p, i + 1);
      var concepts := p.attempts[i].concepts;
      ghost var base := done;
      for j := 0 to |concepts|
        invariant done == base + concepts[..j] && Signed(done, d) && FreshIds(done, seen)
        invariant all == Chosen(p, done, d, false) && viable == Chosen(p, done, d, true)
        invariant forall x :: x in seen' <==> x in seen || x in Ids(done)
      {
        var card := concepts[j];
        assert base + concepts[..j + 1] == done + [card];
        CardIsSigned(p, base + concepts, done, card, d, i);
        FreshIdsStep(done, card, seen);
        ChosenStep(p, done, card, d, false);
        ChosenStep(p, done, card, d, true);
        if card.id in seen' {
          NotFresh(p, i, done, card, seen);
          return [], [], {}, false;
        }
        var candidate := CandidateOf(p, card, d);
        seen' := seen' + {card.id};
        if Keep(card, false) {
          all := all + [candidate];
        }
        if Keep(card, true) {
          viable := viable + [candidate];
        }
        done := done + [card];
      }
      assert concepts[..|concepts|] == concepts;
    }
    assert p.attempts[..|p.attempts|] == p.attempts;
    ok := true;
  }

  lemma NoneChosen(p: Pool, d: Digests, seen: set<string>)
    ensures Signed([], d) && Chosen(p, [], d, false) == [] && Chosen(p, [], d, true) == []
    ensures FreshIds([], seen) && Ids([]) == []
    ensures Flatten(p.attempts[..0]) == []
  {
    assert p.attempts[..0] == [];
  }

  lemma {:induction false} FlattenPrefix(attempts: seq<Attempt>, n: nat)
    requires n <= |attempts|
    ensures Flatten(attempts) == Flatten(attempts[..n]) + Flatten(attempts[n..])
  {
    if n == 0 {
      assert attempts[..0] == [] && attempts[0..] == attempts;
    } else {
      FlattenPrefix(attempts[1..], n - 1);
      assert attempts[1..][..n - 1] == attempts[..n][1..] && attempts[1..][n - 1..] == attempts[n..];
      assert Flatten(attempts[..n]) == attempts[0].concepts + Flatten(attempts[..n][1..]);
    }
  }

  lemma CardsSplit(p: Pool, n: nat)
    requires n <= |p.attempts|
    ensures Flatten(p.attempts[..n]) <= Cards(p)
  {
    FlattenPrefix(p.attempts, n);
  }

  lemma CardIsSigned(p: Pool, upTo: seq<Card>, done: seq<Card>, c: Card, d: Digests, i: nat)
    requires i < |p.attempts| && upTo == Flatten(p.attempts[..i + 1]) && Signed(Cards(p), d)
    requires done + [c] <= upTo
    ensures NewSignature(c.spec, d).Some?
  {
    hide NewSignature;
    CardsSplit(p, i + 1);
    assert Cards(p)[|done|] == upTo[|done|] == (done + [c])[|done|];
  }

  lemma NotFresh(p: Pool, i: nat, done: seq<Card>, c: Card, seen: set<string>)
    requires i < |p.attempts| && done + [c] <= Flatten(p.attempts[..i + 1])
    requires !FreshIds(done + [c], seen)
    ensures !FreshIds(Cards(p), seen)
  {
    hide FreshIds;
    CardsSplit(p, i + 1);
    FreshIdsPart(Cards(p), |done| + 1, seen);
    assert Cards(p)[..|done| + 1] == done + [c];
  }

  // ---------------------------------------------------------- canonical pools

  /** Canonicalising again would change nothing that the selector passes on. */
  ghost predicate Settled(p: Pool) {
    && CanonicalText(p.batchId) == p.batchId && CanonicalText(p.slotId) == p.slotId
    && forall c | c in Cards(p) :: CanonicalText(c.id) == c.id && CanonicalSpec(c.spec) == c.spec
  }

  ghost predicate Ready(p: Pool) { ValidPool(p) && Settled(p) }

  lemma {:induction false} FlattenMember(attempts: seq<Attempt>, c: Card) returns (a: Attempt)
    requires c in Flatten(attempts)
    ensures a in attempts && c in a.concepts
  {
    if c in attempts[0].concepts {
      a := attempts[0];
    } else {
      a := FlattenMember(attempts[1..], c);
    }
  }

  lemma SortedMember<T(!new), U(!new)>(xs: seq<T>, f: T -> U, less: (U, U) -> bool, u: U) returns (x: T)
    requires Asymmetric(less) && u in Sort(Map(xs, f), less)
    ensures x in xs && u == f(x)
  {
    SortSorts(Map(xs, f), less);
    assert u in multiset(Sort(Map(xs, f), less));
    assert u in Map(xs, f);
    var i :| 0 <= i < |xs| && Map(xs, f)[i] == u;
    x := xs[i];
  }

  lemma CanonicalIsSettled(p: Pool)
    ensures Settled(CanonicalPool(p))
  {
    hide CanonicalText, CanonicalSpec, CanonicalSet, Sort, Map, CanonicalReceipt, CanonicalSha, Flatten;
    CanonicalIsTidy(p.batchId);
    CanonicalIsTidy(p.slotId);
    var q := CanonicalPool(p);
    forall c | c in Cards(q)
      ensures CanonicalText(c.id) == c.id && CanonicalSpec(c.spec) == c.spec
    {
      var a := FlattenMember(q.attempts, c);
      var b := SortedMember(p.attempts, CanonicalAttempt, AttemptBefore, a);
      var x := SortedMember(b.concepts, CanonicalCard, CardBefore, c);
      CanonicalIsTidy(x.id);
      CanonicalSpecTwice(x.spec);
    }
  }

  lemma ValidCards(p: Pool)
    requires ValidPool(p)
    ensures forall c | c in Cards(p) :: StableId(c.id) && ValidSpec(c.spec)
    ensures Distinct(Ids(Cards(p)))
  {
    hide StableId, ValidReceipt, IsSha, Distinct, ValidUsage, ValidBudget, WithinBudget, ValidSet, ValidSpec, Map,
         Ids, Flatten;
    forall c | c in Cards(p)
      ensures StableId(c.id) && ValidSpec(c.spec)
    {
      var a := FlattenMember(p.attempts, c);
    }
  }

  /** Every card of a ready pool has a valid signature. */
  lemma ReadyIsSigned(p: Pool, d: Digests)
    requires Ready(p) && AreShas(d)
    ensures Signed(Cards(p), d)
    ensures forall c | c in Cards(p) ::
      NewSignature(c.spec, d).Some? && ValidSignature(NewSignature(c.spec, d).value, d)
  {
    ValidCards(p);
    hide ValidPool, NewSignature, ValidSignature, ValidSpec, CanonicalSpec, Cards, CanonicalText;
    forall c | c in Cards(p)
      ensures NewSignature(c.spec, d).Some? && ValidSignature(NewSignature(c.spec, d).value, d)
    {
      NewSignatureIsValid(c.spec, d);
    }
  }

  function AllOf(p: Pool, d: Digests): seq<Candidate>
    requires Signed(Cards(p), d)
  {
    Chosen(p, Cards(p), d, false)
  }

  function ViableOf(p: Pool, d: Digests): seq<Candidate>
    requires Signed(Cards(p), d)
  {
    Chosen(p, Cards(p), d, true)
  }

  /** What a candidate of a ready pool is like. */
  ghost predicate GoodCandidate(p: Pool, d: Digests, c: Candidate) {
    && c.card in Cards(p) && c.slotId == p.slotId && c.poolSha == d.pool(p)
    && StableId(c.card.id) && NoNul(c.card.id) && ValidSignature(c.signature, d)
    && CanonicalSpec(c.card.spec) == c.card.spec && CanonicalText(c.card.id) == c.card.id
    && NewSignature(c.card.spec, d).Some? && c == CandidateOf(p, c.card, d)
  }

  lemma ReadyCandidate(p: Pool, d: Digests, v: bool, c: Candidate)
    requires Ready(p) && AreShas(d) && Signed(Cards(p), d) && c in Chosen(p, Cards(p), d, v)
    ensures GoodCandidate(p, d, c) && Keep(c.card, v)
    ensures c.card.spec.tier == VIABLE || c.card.spec.tier == UNCERTAIN
  {
    ReadyIsSigned(p, d);
    ValidCards(p);
    hide ValidPool, NewSignature, ValidSignature, CanonicalSpec, Cards, CanonicalText, Chosen, Signed, Bounded,
         ValidSet, ValidList, Distinct, Ids, NoNul, StableId;
    ChosenSound(p, Cards(p), d, v, c);
    StableHasNoNul(c.card.id);
  }

  lemma GoodSame(p: Pool, d: Digests, a: Candidate, b: Candidate)
    requires GoodCandidate(p, d, a) && GoodCandidate(p, d, b) && Distinct(Ids(Cards(p)))
    requires a.card.id == b.card.id
    ensures a == b && ValidSignature(a.signature, d) && NoNul(a.card.id)
  {
    hide ValidSignature, NewSignature, Cards, Distinct, Ids, NoNul, StableId, CanonicalSpec, CanonicalText;
    IdsIdentifyCards(Cards(p), a.card, b.card);
  }

  lemma GoodTogether(cs: seq<Candidate>, d: Digests)
    requires forall c | c in cs :: ValidSignature(c.signature, d) && NoNul(c.card.id)
    requires forall a, b | a in cs && b in cs && a.card.id == b.card.id :: a == b
    ensures SignaturesValid(cs, d) && IdsIdentify(cs)
  {
    hide ValidSignature, NoNul;
  }

  /** Candidates of a ready pool have valid signatures and are told apart by their ids. */
  lemma ReadyCandidates(p: Pool, d: Digests, v: bool)
    requires Ready(p) && AreShas(d) && Signed(Cards(p), d)
    ensures SignaturesValid(Chosen(p, Cards(p), d, v), d) && IdsIdentify(Chosen(p, Cards(p), d, v))
  {
    ValidCards(p);
    hide *;
    var cs := Chosen(p, Cards(p), d, v);
    forall c | c in cs
      ensures GoodCandidate(p, d, c) && ValidSignature(c.signature, d) && NoNul(c.card.id)
    {
      ReadyCandidate(p, d, v, c);
      GoodSame(p, d, c, c);
    }
    forall a, b | a in cs && b in cs && a.card.id == b.card.id
      ensures a == b
    {
      GoodSame(p, d, a, b);
    }
    GoodTogether(cs, d);
  }

  lemma StableHasNoNul(s: string)
    requires StableId(s)
    ensures NoNul(s)
  {
  }

  lemma IdsIdentifyCards(cards: seq<Card>, a: Card, b: Card)
    requires Distinct(Ids(cards)) && a in cards && b in cards && a.id == b.id
    ensures a == b
  {
    var i :| 0 <= i < |cards| && cards[i] == a;
    var j :| 0 <= j < |cards| && cards[j] == b;
    assert Ids(cards)[i] == a.id && Ids(cards)[j] == b.id;
  }

  // --------------------------------------------------------------- acceptance

  function CardsUpTo(s: seq<Pool>, n: nat): seq<Card>
    requires n <= |s|
  {
    if n == 0 then [] else CardsUpTo(s, n - 1) + Cards(s[n - 1])
  }

  ghost predicate HasViable(p: Pool) { exists c | c in Cards(p) :: c.spec.tier == VIABLE }

  /** A winner and somebody else. */
  ghost predicate HasSlate(p: Pool) {
    exists a, b | a in Cards(p) && b in Cards(p) :: a.id != b.id && a.spec.tier == VIABLE && b.spec.tier != INVALID
  }

  ghost predicate Bound(s: seq<Pool>, i: nat)
    requires i < |s|
  {
    s[i].slotIndex == i && s[i].batchId == s[0].batchId && s[i].corpusRevision == s[0].corpusRevision
  }

  /** The first n pools pass the barrier. */
  ghost predicate BarrierUpTo(s: seq<Pool>, n: nat)
    requires n <= |s|
  {
    && (forall i | 0 <= i < n :: Bound(s, i) && HasViable(s[i]))
    && (forall i, j | 0 <= i < j < n :: s[i].slotId != s[j].slotId)
    && Distinct(Ids(CardsUpTo(s, n)))
  }

  lemma {:induction false} BarrierPart(s: seq<Pool>, n: nat, m: nat)
    requires n <= m <= |s| && BarrierUpTo(s, m)
    ensures BarrierUpTo(s, n)
  {
    hide Distinct, HasViable, Bound, Cards;
    if n < m {
      var part, more := CardsUpTo(s, m - 1), Cards(s[m - 1]);
      assert Ids(CardsUpTo(s, m)) == Ids(part) + Ids(more);
      DistinctPart(Ids(part), Ids(more));
      BarrierPart(s, n, m - 1);
    }
  }

  lemma FreshAppend(xs: seq<Card>, ys: seq<Card>, seen: set<string>)
    requires Distinct(Ids(xs)) && forall x :: x in seen <==> x in Ids(xs)
    ensures Distinct(Ids(xs + ys)) <==> FreshIds(ys, seen)
    ensures Ids(xs + ys) == Ids(xs) + Ids(ys)
  {
    assert Ids(xs + ys) == Ids(xs) + Ids(ys);
    DistinctJoin(Ids(xs), Ids(ys));
  }

  /** One more pool. */
  lemma BarrierStep(s: seq<Pool>, i: nat, seen: set<string>)
    requires i < |s| && BarrierUpTo(s, i) && forall x :: x in seen <==> x in Ids(CardsUpTo(s, i))
    ensures BarrierUpTo(s, i + 1) <==>
            && Bound(s, i) && HasViable(s[i]) && (forall k | 0 <= k < i :: s[k].slotId != s[i].slotId)
            && FreshIds(Cards(s[i]), seen)
    ensures Ids(CardsUpTo(s, i + 1)) == Ids(CardsUpTo(s, i)) + Ids(Cards(s[i]))
  {
    hide Distinct, Ids, Cards, HasViable, Bound, FreshIds;
    FreshAppend(CardsUpTo(s, i), Cards(s[i]), seen);
  }

  lemma BarrierFails(s: seq<Pool>, i: nat, n: nat)
    requires i < n <= |s| && !BarrierUpTo(s, i + 1)
    ensures !BarrierUpTo(s, n)
  {
    hide BarrierUpTo;
    if BarrierUpTo(s, n) {
      BarrierPart(s, i + 1, n);
    }
  }

  /** The selector's loop over the ranked pools. */
  method CollectBatch(s: seq<Pool>, d: Digests)
    returns (all: seq<seq<Candidate>>, viable: seq<seq<Candidate>>, ok: bool)
    requires |s| == 3 && forall i | 0 <= i < 3 :: Signed(Cards(s[i]), d)
    ensures ok <==> BarrierUpTo(s, 3)
    ensures ok ==> |all| == 3 && |viable| == 3
                   && forall i | 0 <= i < 3 :: all[i] == AllOf(s[i], d) && viable[i] == ViableOf(s[i], d)
  {
    hide Signed, Ids, Cards, CardsUpTo, BarrierUpTo, HasViable, FreshIds, Chosen;
    all, viable := [], [];
    var seenSlots: set<string>, seenConcepts: set<string> := {}, {};
    NoIdsYet(s);
    for i := 0 to 3
      invariant BarrierUpTo(s, i) && |all| == |viable| == i
      invariant forall k | 0 <= k < i :: all[k] == AllOf(s[k], d) && viable[k] == ViableOf(s[k], d)
      invariant forall x :: x in seenSlots <==> exists k | 0 <= k < i :: s[k].slotId == x
      invariant forall x :: x in seenConcepts <==> x in Ids(CardsUpTo(s, i))
    {
      var pool := s[i];
      BarrierStep(s, i, seenConcepts);
      if !BarrierUpTo(s, i + 1) {
        BarrierFails(s, i, 3);
      }
      if pool.slotIndex != i || pool.batchId != s[0].batchId || pool.corpusRevision != s[0].corpusRevision {
        return [], [], false;
      }
      if pool.slotId in seenSlots {
        return [], [], false;
      }
      seenSlots := seenSlots + {pool.slotId};
      var a, v, seen, unseen := CollectPool(pool, seenConcepts, d);
      if !unseen {
        return [], [], false;
      }
      ViableShows(pool, d);
      if v == [] {
        return [], [], false;
      }
      seenConcepts := seen;
      all, viable := all + [a], viable + [v];
    }
    ok := true;
  }

  lemma NoIdsYet(s: seq<Pool>)
    ensures BarrierUpTo(s, 0) && Ids(CardsUpTo(s, 0)) == []
  {
  }

  lemma ViableShows(p: Pool, d: Digests)
    requires Signed(Cards(p), d)
    ensures ViableOf(p, d) != [] <==> HasViable(p)
  {
    hide NewSignature, Cards, Chosen, Signed;
    if ViableOf(p, d) != [] {
      ChosenSound(p, Cards(p), d, true, ViableOf(p, d)[0]);
    }
    if HasViable(p) {
      var c :| c in Cards(p) && c.spec.tier == VIABLE;
      var k :| 0 <= k < |Cards(p)| && Cards(p)[k] == c;
      ChosenComplete(p, Cards(p), d, true, k);
    }
  }

  // ---------------------------------------------------------------- selection

  predicate PoolBefore(a: Pool, b: Pool) { a.slotIndex < b.slotIndex }

  /** The canonical pools by slot index. */
  function Ranked(pools: seq<Pool>): seq<Pool> { Sort(Map(pools, CanonicalPool), PoolBefore) }

  ghost predicate Accepted(pools: seq<Pool>) {
    && |pools| == 3 && |Ranked(pools)| == 3
    && (forall i | 0 <= i < 3 :: ValidPool(CanonicalPool(pools[i])))
    && BarrierUpTo(Ranked(pools), 3)
    && forall i | 0 <= i < 3 :: HasSlate(Ranked(pools)[i])
  }

  function SlotOf(i: int, winner: Candidate, runnerUp: Candidate): Slot {
    Slot(i, winner.slotId, winner.poolSha, ReservedOf(winner), ReservedOf(runnerUp))
  }

  function Assembled(s: seq<Pool>, w: seq<Candidate>, u: seq<Candidate>): Reservation
    requires |s| == |w| == |u| == 3
  {
    Reservation(RESERVATION_SCHEMA, PROVISIONAL, s[0].batchId, s[0].corpusRevision, SELECTOR_VERSION, SIGNATURE_SCHEMA,
                ScoreOf(w).minimum, ScoreOf(w).total,
                [SlotOf(0, w[0], u[0]), SlotOf(1, w[1], u[1]), SlotOf(2, w[2], u[2])])
  }

  /** w is a best triple of viable candidates, u[i] a best stand-in for w[i]. */
  ghost predicate IsChoice(s: seq<Pool>, d: Digests, w: seq<Candidate>, u: seq<Candidate>) {
    && |s| == 3 && |u| == 3 && (forall i | 0 <= i < 3 :: Signed(Cards(s[i]), d))
    && IsBest([ViableOf(s[0], d), ViableOf(s[1], d), ViableOf(s[2], d)], w)
    && forall i | 0 <= i < 3 :: IsRunnerUp(i, w, AllOf(s[i], d), u[i])
  }

  ghost predicate IsSelected(s: seq<Pool>, d: Digests, r: Reservation) {
    exists w, u :: IsChoice(s, d, w, u) && r == Assembled(s, w, u)
  }

  /** What SelectMicroBatchV1 does, without an order of trials. */
  ghost predicate Outcome(pools: seq<Pool>, d: Digests, r: Option<Reservation>) {
    && (r.Some? <==> Accepted(pools))
    && (r.Some? ==> IsSelected(Ranked(pools), d, r.value) && ValidReservation(r.value))
  }

  // ---- a runner-up exists as soon as the pool has a slate ----

  lemma SlateFromRunnerUp(p: Pool, d: Digests, i: nat, w: seq<Candidate>, c: Candidate)
    requires Ready(p) && AreShas(d) && Signed(Cards(p), d)
    requires i < |w| && w[i] in ViableOf(p, d) && Eligible(i, w, AllOf(p, d), c)
    ensures HasSlate(p)
  {
    ReadyCandidate(p, d, true, w[i]);
    ReadyCandidate(p, d, false, c);
    hide Ready, ValidSignature, NewSignature, Cards, Chosen, Signed, OtherViable, NoNul, StableId;
  }

  lemma RunnerUpFromSlate(p: Pool, d: Digests, i: nat, w: seq<Candidate>) returns (c: Candidate)
    requires Ready(p) && AreShas(d) && Signed(Cards(p), d) && HasSlate(p)
    requires i < |w| && w[i] in ViableOf(p, d)
    ensures Eligible(i, w, AllOf(p, d), c)
  {
    hide Ready, ValidSignature, NewSignature, Cards, Chosen, Signed, NoNul, StableId, AreShas, Eligible;
    ReadyIsSigned(p, d);
    var a, b :| a in Cards(p) && b in Cards(p) && a.id != b.id && a.spec.tier == VIABLE && b.spec.tier != INVALID;
    var other := if a.id != w[i].card.id then a else b;
    var k :| 0 <= k < |Cards(p)| && Cards(p)[k] == other;
    ChosenComplete(p, Cards(p), d, false, k);
    c := CandidateOf(p, other, d);
    ReadyCandidate(p, d, false, c);
    hide GoodCandidate, HasSlate;
    c := PreferViable(i, w, AllOf(p, d), c);
  }

  lemma PreferViable(i: nat, w: seq<Candidate>, cs: seq<Candidate>, b: Candidate) returns (c: Candidate)
    requires i < |w| && b in cs && IsOther(w[i], b)
    requires b.card.spec.tier == VIABLE || b.card.spec.tier == UNCERTAIN
    ensures Eligible(i, w, cs, c)
  {
    if OtherViable(i, w, cs) {
      var n :| 0 <= n < |cs| && IsOther(w[i], cs[n]) && cs[n].card.spec.tier == VIABLE;
      c := cs[n];
    } else {
      c := b;
      var n :| 0 <= n < |cs| && cs[n] == b;
      assert !(IsOther(w[i], cs[n]) && cs[n].card.spec.tier == VIABLE);
    }
  }

  // ---- the reservation passes its own validation ----

  lemma GoodReserved(p: Pool, d: Digests, c: Candidate)
    requires GoodCandidate(p, d, c) && AreShas(d)
    ensures CanonicalReserved(ReservedOf(c)) == ReservedOf(c) && ValidReserved(ReservedOf(c))
  {
    var canonical := CanonicalSpec(c.card.spec);
    assert c.card.spec.tier == canonical.tier;
    assert CanonicalLower(c.card.spec.tier) == c.card.spec.tier;
    assert IsSha(c.signature.sha);
    hide CanonicalSpec, CanonicalLower, CanonicalText, StableId, IsSha, NoNul, NewSignature, Cards, ValidSignature;
    ShaIsCanonical(c.signature.sha);
  }

  lemma GoodSlot(p: Pool, d: Digests, i: nat, w: Candidate, u: Candidate)
    requires Ready(p) && AreShas(d) && GoodCandidate(p, d, w) && GoodCandidate(p, d, u)
    requires w.card.spec.tier == VIABLE && (u.card.spec.tier == VIABLE || u.card.spec.tier == UNCERTAIN)
    ensures CanonicalSlot(SlotOf(i, w, u)) == SlotOf(i, w, u) && ValidSlot(SlotOf(i, w, u), i)
  {
    GoodReserved(p, d, w);
    GoodReserved(p, d, u);
    ShaIsCanonical(d.pool(p));
    PoolHeader(p);
    hide CanonicalSpec, CanonicalLower, CanonicalText, StableId, IsSha, NoNul, NewSignature, Cards, ValidSignature,
         CanonicalSha, CanonicalReserved, ValidReserved, Ready;
  }

  lemma PoolHeader(p: Pool)
    requires Ready(p)
    ensures StableId(p.batchId) && StableId(p.slotId) && IsSha(p.corpusRevision)
    ensures CanonicalText(p.batchId) == p.batchId && CanonicalText(p.slotId) == p.slotId
    ensures CanonicalSha(p.corpusRevision) == p.corpusRevision
  {
    hide CanonicalText, StableId, IsSha, ValidAttempt, Cards, Distinct, Map, Ids, ValidBudget, ValidUsage, ValidReceipt,
         CanonicalSha, CanonicalSpec;
    ShaIsCanonical(p.corpusRevision);
  }

  lemma LettersAreCanonical(t: string)
    requires forall i | 0 <= i < |t| :: 'a' <= t[i] <= 'z'
    ensures CanonicalLower(t) == t
  {
    TidyIsCanonical(t);
  }

  lemma ProvisionalIsCanonical()
    ensures CanonicalLower(PROVISIONAL) == PROVISIONAL
  {
    LettersAreCanonical(PROVISIONAL);
    hide CanonicalLower;
  }

  lemma ScoreIsOrdered(w: seq<Candidate>)
    requires |w| == 3
    ensures 0 <= ScoreOf(w).minimum <= ScoreOf(w).total
  {
    hide Distance;
  }

  /** Ids of cards of different pools differ. */
  lemma PoolsShareNoId(s: seq<Pool>, i: nat, j: nat, a: Card, b: Card)
    requires i < j < |s| && Distinct(Ids(CardsUpTo(s, j + 1)))
    requires a in Cards(s[i]) && b in Cards(s[j])
    ensures a.id != b.id
  {
    hide Cards, Distinct, Ids;
    InCardsUpTo(s, i, j, a);
    IdsDiffer(CardsUpTo(s, j), Cards(s[j]), a, b);
  }

  lemma IdsDiffer(before: seq<Card>, last: seq<Card>, a: Card, b: Card)
    requires Distinct(Ids(before + last)) && a in before && b in last
    ensures a.id != b.id
  {
    hide Map;
    var x :| 0 <= x < |before| && before[x] == a;
    var y :| 0 <= y < |last| && last[y] == b;
    var all := Ids(before + last);
    assert all[x] == a.id && all[|before| + y] == b.id;
  }

  lemma {:induction false} InCardsUpTo(s: seq<Pool>, i: nat, n: nat, a: Card)
    requires i < n <= |s| && a in Cards(s[i])
    ensures a in CardsUpTo(s, n)
  {
    hide Cards;
    if i < n - 1 {
      InCardsUpTo(s, i, n - 1, a);
    }
  }

  lemma ChoiceHasThree()
    ensures forall s, d, w, u :: IsChoice(s, d, w, u) ==> |s| == |w| == |u| == 3
  {
  }

  lemma ChosenForSlot(s: seq<Pool>, d: Digests, w: seq<Candidate>, u: seq<Candidate>, i: nat)
    requires i < 3 && IsChoice(s, d, w, u) && AreShas(d) && Ready(s[i])
    ensures |w| == 3 && w[i].card in Cards(s[i]) && u[i].card in Cards(s[i]) && w[i].card.id != u[i].card.id
    ensures w[i].slotId == s[i].slotId
    ensures CanonicalSlot(SlotOf(i, w[i], u[i])) == SlotOf(i, w[i], u[i]) && ValidSlot(SlotOf(i, w[i], u[i]), i)
  {
    hide Ready, ValidSignature, NewSignature, Cards, Chosen, Signed, NoNul, StableId, CanonicalSlot, ValidSlot,
         OtherViable, Better, ScoreOf, CanonicalSpec, CanonicalText, CandidateOf;
    assert w[i] in ViableOf(s[i], d) && Eligible(i, w, AllOf(s[i], d), u[i]);
    ReadyCandidate(s[i], d, true, w[i]);
    ReadyCandidate(s[i], d, false, u[i]);
    GoodSlot(s[i], d, i, w[i], u[i]);
  }

  lemma SettledSlots(slots: seq<Slot>)
    requires |slots| == 3
    requires forall i | 0 <= i < 3 :: slots[i].index == i && CanonicalSlot(slots[i]) == slots[i]
    ensures Sort(Map(slots, CanonicalSlot), SlotBefore) == slots
  {
    hide CanonicalSlot;
    assert Map(slots, CanonicalSlot) == slots;
    SortOfOrdered(slots, SlotBefore);
  }

  lemma IdsAcrossSlots(s: seq<Pool>, w: seq<Candidate>, u: seq<Candidate>, i: nat, j: nat)
    requires i < j < |s| == |w| == |u| == 3 && BarrierUpTo(s, 3)
    requires w[i].card in Cards(s[i]) && u[i].card in Cards(s[i])
             && w[j].card in Cards(s[j]) && u[j].card in Cards(s[j])
    ensures w[i].card.id != w[j].card.id && w[i].card.id != u[j].card.id
    ensures u[i].card.id != w[j].card.id && u[i].card.id != u[j].card.id
  {
    BarrierPart(s, j + 1, 3);
    hide Cards, Distinct, Ids, CardsUpTo, HasViable, Bound;
    PoolsShareNoId(s, i, j, w[i].card, w[j].card);
    PoolsShareNoId(s, i, j, w[i].card, u[j].card);
    PoolsShareNoId(s, i, j, u[i].card, w[j].card);
    PoolsShareNoId(s, i, j, u[i].card, u[j].card);
  }

  lemma ChoiceIsCanonical(s: seq<Pool>, d: Digests, w: seq<Candidate>, u: seq<Candidate>)
    requires AreShas(d) && IsChoice(s, d, w, u)
    requires forall i | 0 <= i < 3 :: Ready(s[i])
    ensures |w| == 3 && CanonicalReservation(Assembled(s, w, u)) == Assembled(s, w, u)
    ensures ValidHeader(Assembled(s, w, u))
  {
    hide IsChoice, Ready, ScoreOf, CanonicalSlot, SlotOf, CanonicalText, CanonicalSha, CanonicalLower, StableId, IsSha,
         Cards, Sort, Map, AreShas, ValidSlot;
    ChoiceHasThree();
    ChosenForSlot(s, d, w, u, 0);
    ChosenForSlot(s, d, w, u, 1);
    ChosenForSlot(s, d, w, u, 2);
    PoolHeader(s[0]);
    ScoreIsOrdered(w);
    ProvisionalIsCanonical();
    var x, y, z := SlotOf(0, w[0], u[0]), SlotOf(1, w[1], u[1]), SlotOf(2, w[2], u[2]);
    SlotIndexes(x, y, z, w, u);
    SettledSlots([x, y, z]);
  }

  lemma SlotIndexes(x: Slot, y: Slot, z: Slot, w: seq<Candidate>, u: seq<Candidate>)
    requires |w| == |u| == 3
    requires x == SlotOf(0, w[0], u[0]) && y == SlotOf(1, w[1], u[1]) && z == SlotOf(2, w[2], u[2])
    ensures x.index == 0 && y.index == 1 && z.index == 2
  {
  }

  lemma ChoiceIsDistinct(s: seq<Pool>, d: Digests, w: seq<Candidate>, u: seq<Candidate>)
    requires AreShas(d) && IsChoice(s, d, w, u) && BarrierUpTo(s, 3)
    requires forall i | 0 <= i < 3 :: Ready(s[i])
    ensures |w| == 3
    ensures Distinct(SlotIds(Assembled(s, w, u).slots)) && Distinct(ConceptIds(Assembled(s, w, u).slots))
  {
    hide IsChoice, Ready, ScoreOf, CanonicalSlot, ValidSlot, CanonicalText, StableId, IsSha, AreShas,
         Cards, CardsUpTo, Ids, Bound, HasViable, Sort, Map, SlotIds, ConceptIds, Distinct;
    ChoiceHasThree();
    ChosenForSlot(s, d, w, u, 0);
    ChosenForSlot(s, d, w, u, 1);
    ChosenForSlot(s, d, w, u, 2);
    IdsAcrossSlots(s, w, u, 0, 1);
    IdsAcrossSlots(s, w, u, 0, 2);
    IdsAcrossSlots(s, w, u, 1, 2);
    ThreeDiffer(s[0].slotId, s[1].slotId, s[2].slotId);
    IdsOfThree(SlotOf(0, w[0], u[0]), SlotOf(1, w[1], u[1]), SlotOf(2, w[2], u[2]));
    SixDiffer(w[0].card.id, u[0].card.id, w[1].card.id, u[1].card.id, w[2].card.id, u[2].card.id);
  }

  /** A reservation made by the selector is canonical already and passes Validate. */
  lemma ChoiceIsValid(s: seq<Pool>, d: Digests, w: seq<Candidate>, u: seq<Candidate>)
    requires AreShas(d) && IsChoice(s, d, w, u) && BarrierUpTo(s, 3)
    requires forall i | 0 <= i < 3 :: Ready(s[i])
    ensures |w| == 3 && CanonicalReservation(Assembled(s, w, u)) == Assembled(s, w, u)
    ensures ValidReservation(Assembled(s, w, u))
  {
    hide BarrierUpTo, CanonicalReservation, Ready, IsChoice, AreShas, ValidHeader, ValidSlot, Distinct, SlotIds,
         ConceptIds, ScoreOf, SlotOf;
    ChoiceHasThree();
    ChoiceIsCanonical(s, d, w, u);
    ChoiceIsDistinct(s, d, w, u);
    var r := Assembled(s, w, u);
    forall i | 0 <= i < 3
      ensures ValidSlot(r.slots[i], i)
    {
      ChosenForSlot(s, d, w, u, i);
    }
  }

  // -------------------------------------------------------------- the selector

  lemma RankedIsReady(pools: seq<Pool>)
    requires |pools| == 3 && forall i | 0 <= i < 3 :: ValidPool(CanonicalPool(pools[i]))
    ensures |Ranked(pools)| == 3 && forall i | 0 <= i < 3 :: Ready(Ranked(pools)[i])
  {
    hide ValidPool, CanonicalPool, Settled, Sort;
    SortSorts(Map(pools, CanonicalPool), PoolBefore);
    forall i | 0 <= i < 3
      ensures Ready(Ranked(pools)[i])
    {
      var x := SortedMember(pools, CanonicalPool, PoolBefore, Ranked(pools)[i]);
      CanonicalIsSettled(x);
    }
  }

  /** The runner-up loop. */
  method ChooseRunnersUp(s: seq<Pool>, all: seq<seq<Candidate>>, w: seq<Candidate>, d: Digests)
    returns (u: seq<Candidate>, ok: bool)
    requires |s| == |all| == |w| == 3 && AreShas(d)
    requires forall i | 0 <= i < 3 ::
      Ready(s[i]) && Signed(Cards(s[i]), d) && all[i] == AllOf(s[i], d) && w[i] in ViableOf(s[i], d)
    ensures ok <==> forall i | 0 <= i < 3 :: HasSlate(s[i])
    ensures ok ==> |u| == 3 && forall i | 0 <= i < 3 :: IsRunnerUp(i, w, AllOf(s[i], d), u[i])
  {
    hide Ready, ValidSignature, NewSignature, Cards, Chosen, Signed, NoNul, StableId, HasSlate, IsRunnerUp, Eligible,
         Keep;
    u := [];
    forall i | 0 <= i < 3
      ensures ValidSignature(w[i].signature, d)
    {
      ReadyCandidates(s[i], d, true);
    }
    for i := 0 to 3
      invariant |u| == i
      invariant forall k | 0 <= k < i :: HasSlate(s[k]) && IsRunnerUp(k, w, AllOf(s[k], d), u[k])
    {
      ReadyCandidates(s[i], d, false);
      var runnerUp, found := BestRunnerUp(i, w, all[i], d);
      SlateDecides(s[i], d, i, w);
      if !found {
        return [], false;
      }
      u := u + [runnerUp];
    }
    ok := true;
  }

  lemma SlateDecides(p: Pool, d: Digests, i: nat, w: seq<Candidate>)
    requires Ready(p) && AreShas(d) && Signed(Cards(p), d) && i < |w| && w[i] in ViableOf(p, d)
    ensures (exists c :: Eligible(i, w, AllOf(p, d), c)) <==> HasSlate(p)
  {
    hide Ready, NewSignature, Cards, Chosen, Signed, HasSlate, Eligible;
    if exists c :: Eligible(i, w, AllOf(p, d), c) {
      var c :| Eligible(i, w, AllOf(p, d), c);
      SlateFromRunnerUp(p, d, i, w, c);
    }
    if HasSlate(p) {
      var c := RunnerUpFromSlate(p, d, i, w);
    }
  }

  /** The canonicalising loop. */
  method Canonicalize(pools: seq<Pool>) returns (canonical: seq<Pool>, ok: bool)
    requires |pools| == 3
    ensures ok <==> forall i | 0 <= i < 3 :: ValidPool(CanonicalPool(pools[i]))
    ensures ok ==> canonical == Map(pools, CanonicalPool)
  {
    hide ValidPool, CanonicalPool, Map;
    canonical := [];
    for i := 0 to 3
      invariant |canonical| == i
      invariant forall k | 0 <= k < i :: canonical[k] == CanonicalPool(pools[k]) && ValidPool(canonical[k])
    {
      var pool := CanonicalPool(pools[i]);
      if !ValidPool(pool) {
        return [], false;
      }
      canonical := canonical + [pool];
    }
    assert canonical == Map(pools, CanonicalPool);
    ok := true;
  }

  /** SelectMicroBatchV1 */
  method SelectMicroBatch(pools: seq<Pool>, d: Digests) returns (r: Option<Reservation>)
    requires AreShas(d)
    ensures Outcome(pools, d, r)
  {
    hide ValidPool, CanonicalPool, Map, Sort, Signed, Cards, BarrierUpTo, HasSlate, ValidReservation, Chosen, Better,
         ScoreOf, IsRunnerUp, ValidSignature, NewSignature, AreShas, Settled, CanonicalReservation, IdsIdentify;
    if |pools| != 3 {
      return None;
    }
    var canonical, sound := Canonicalize(pools);
    if !sound {
      return None;
    }
    RankedIsReady(pools);
    var s := Sort(canonical, PoolBefore);
    forall i | 0 <= i < 3
      ensures Signed(Cards(s[i]), d)
    {
      ReadyIsSigned(s[i], d);
    }
    var all, viable, passed := CollectBatch(s, d);
    if !passed {
      return None;
    }
    forall i | 0 <= i < 3
      ensures SignaturesValid(viable[i], d) && viable[i] != []
    {
      ReadyCandidates(s[i], d, true);
      BarrierHasViable(s, d, i);
    }
    var best, bestScore, found := BestViableCombination(viable, d);
    assert viable == [ViableOf(s[0], d), ViableOf(s[1], d), ViableOf(s[2], d)];
    var u, served := ChooseRunnersUp(s, all, best, d);
    if !served {
      return None;
    }
    assert IsChoice(s, d, best, u);
    ChoiceIsValid(s, d, best, u);
    var slots := [SlotOf(0, best[0], u[0]), SlotOf(1, best[1], u[1]), SlotOf(2, best[2], u[2])];
    var reservation := Reservation(RESERVATION_SCHEMA, PROVISIONAL, s[0].batchId, s[0].corpusRevision, SELECTOR_VERSION,
                                   SIGNATURE_SCHEMA, bestScore.minimum, bestScore.total, slots);
    var valid := Validate(CanonicalReservation(reservation));
    if !valid {
      return None;
    }
    r := Some(reservation);
  }

  lemma BarrierHasViable(s: seq<Pool>, d: Digests, i: nat)
    requires i < |s| == 3 && BarrierUpTo(s, 3) && Signed(Cards(s[i]), d)
    ensures ViableOf(s[i], d) != []
  {
    hide Cards, Signed, Distinct, Ids, CardsUpTo, HasViable, Chosen;
    ViableShows(s[i], d);
  }

  // ------------------------------------------------------------- the max-min law

  function ViableSlots(s: seq<Pool>, d: Digests): seq<seq<Candidate>>
    requires |s| == 3 && forall i | 0 <= i < 3 :: Signed(Cards(s[i]), d)
  {
    [ViableOf(s[0], d), ViableOf(s[1], d), ViableOf(s[2], d)]
  }

  /** The reservation names the winners w and the stand-ins u: every triple of viable concepts
      yields to the winners and every eligible stand-in to its stand-in; its minimum is the
      distance of their closest pair and its total their spread. */
  ghost predicate IsMaxMin(s: seq<Pool>, d: Digests, w: seq<Candidate>, u: seq<Candidate>, r: Reservation) {
    && |s| == |w| == |u| == 3 && (forall i | 0 <= i < 3 :: Signed(Cards(s[i]), d))
    && IsTriple(ViableSlots(s, d), w) && (forall v | IsTriple(ViableSlots(s, d), v) :: Yields(v, w))
    && (forall i | 0 <= i < 3 :: StandsIn(s, d, w, u, i))
    && (forall p | p in PAIRS :: r.minimum <= Apart(w, p)) && (exists p | p in PAIRS :: r.minimum == Apart(w, p))
    && r.total == Spread(w) && |r.slots| == 3
    && forall i | 0 <= i < 3 :: r.slots[i].winner.id == w[i].card.id && r.slots[i].runnerUp.id == u[i].card.id
  }

  ghost predicate StandsIn(s: seq<Pool>, d: Digests, w: seq<Candidate>, u: seq<Candidate>, i: nat)
    requires |s| == |w| == |u| == 3 && i < 3 && Signed(Cards(s[i]), d)
  {
    && Eligible(i, w, AllOf(s[i], d), u[i])
    && forall x | Eligible(i, w, AllOf(s[i], d), x) :: Yields(w[i := x], w[i := u[i]])
  }

  lemma ReadyIsNulFree(p: Pool, d: Digests, v: bool)
    requires Ready(p) && AreShas(d) && Signed(Cards(p), d)
    ensures NulFree(Chosen(p, Cards(p), d, v))
  {
    hide Ready, ValidSignature, NewSignature, Cards, Chosen, Signed, NoNul, StableId;
    ReadyCandidates(p, d, v);
  }

  lemma ChoiceIsMaxMin(s: seq<Pool>, d: Digests, w: seq<Candidate>, u: seq<Candidate>)
    requires AreShas(d) && IsChoice(s, d, w, u)
    requires forall i | 0 <= i < 3 :: Ready(s[i])
    ensures |w| == 3 && IsMaxMin(s, d, w, u, Assembled(s, w, u))
  {
    hide Ready, AreShas, Cards, Chosen, Signed, Yields, ScoreOf, Spread, Apart, PAIRS, Eligible, IsRunnerUp, NulFree,
         IsBest;
    ChoiceHasThree();
    var cs := ViableSlots(s, d);
    forall i: nat | i < 3
      ensures NulFree(ViableOf(s[i], d)) && NulFree(AllOf(s[i], d)) && NulFree(cs[i])
    {
      ReadyIsNulFree(s[i], d, true);
      ReadyIsNulFree(s[i], d, false);
    }
    BestIsMaxMin(cs, w);
    WinnersAreNulFree(cs, w);
    forall i: nat | i < 3
      ensures StandsIn(s, d, w, u, i)
    {
      RunnerUpIsMaxMin(i, w, AllOf(s[i], d), u[i]);
    }
    MinimumIsLeast(w);
  }

  lemma WinnersAreNulFree(cs: seq<seq<Candidate>>, w: seq<Candidate>)
    requires |cs| == 3 && IsTriple(cs, w) && forall i | 0 <= i < 3 :: NulFree(cs[i])
    ensures NulFree(w)
  {
    hide NoNul;
    assert NulFree(cs[0]) && NulFree(cs[1]) && NulFree(cs[2]);
  }

  /** What the selector reserves obeys the max-min law. */
  lemma SelectedIsMaxMin(pools: seq<Pool>, d: Digests, r: Reservation)
    requires AreShas(d) && Outcome(pools, d, Some(r))
    ensures exists w, u :: IsMaxMin(Ranked(pools), d, w, u, r)
  {
    hide ValidReservation, Ready, AreShas, ValidPool, CanonicalPool, BarrierUpTo, HasSlate, Ranked, IsChoice, Assembled,
         IsMaxMin;
    ChoiceHasThree();
    RankedIsReady(pools);
    var s := Ranked(pools);
    var w, u :| IsChoice(s, d, w, u) && r == Assembled(s, w, u);
    ChoiceIsMaxMin(s, d, w, u);
  }

  // -------------------------------------------------------------------- provenance

  /** The viable candidates of a pool are its viable concepts, all candidates those that are
      viable or uncertain. */
  lemma CandidatesExactly(p: Pool, d: Digests, k: Card)
    requires Ready(p) && AreShas(d) && Signed(Cards(p), d) && NewSignature(k.spec, d).Some?
    ensures CandidateOf(p, k, d) in ViableOf(p, d) <==> k in Cards(p) && k.spec.tier == "viable"
    ensures CandidateOf(p, k, d) in AllOf(p, d) <==> k in Cards(p) && k.spec.tier in {"viable", "uncertain"}
  {
    ValidCards(p);
    hide Ready, NewSignature, Cards, Chosen;
    var c := CandidateOf(p, k, d);
    if c in ViableOf(p, d) {
      ChosenSound(p, Cards(p), d, true, c);
    }
    if c in AllOf(p, d) {
      ChosenSound(p, Cards(p), d, false, c);
    }
    if i :| 0 <= i < |Cards(p)| && Cards(p)[i] == k {
      if k.spec.tier == VIABLE {
        ChosenComplete(p, Cards(p), d, true, i);
      }
      if k.spec.tier != INVALID {
        ChosenComplete(p, Cards(p), d, false, i);
      }
    }
  }

  ghost predicate Offers(p: Pool, c: Card) { exists a | a in p.attempts :: c in a.concepts }

  /** x reserves the concept c as it was sent. */
  ghost predicate Reserves(x: Reserved, c: Card, d: Digests) {
    && x.id == CanonicalText(c.id) && x.tier == CanonicalLower(c.spec.tier)
    && NewSignature(c.spec, d).Some? && x.signatureSha == NewSignature(c.spec, d).value.sha
  }

  /** The slot is about the pool p, and reserves two concepts that p offers. */
  ghost predicate ServesPool(r: Reservation, slot: Slot, p: Pool, d: Digests) {
    && slot.index == p.slotIndex && slot.slotId == CanonicalText(p.slotId) && slot.poolSha == d.pool(CanonicalPool(p))
    && r.batchId == CanonicalText(p.batchId) && r.corpusRevision == CanonicalSha(p.corpusRevision)
    && slot.winner.tier == "viable" && slot.runnerUp.tier in {"viable", "uncertain"}
    && slot.winner.id != slot.runnerUp.id
    && (exists c :: Offers(p, c) && Reserves(slot.winner, c, d))
    && exists c :: Offers(p, c) && Reserves(slot.runnerUp, c, d)
  }

  ghost predicate IsServed(r: Reservation, slot: Slot, pools: seq<Pool>, d: Digests) {
    exists p | p in pools :: ServesPool(r, slot, p, d)
  }

  lemma CardSource(p: Pool, c: Card) returns (x: Card)
    requires c in Cards(CanonicalPool(p))
    ensures Offers(p, x) && c == CanonicalCard(x)
  {
    hide CanonicalCard, Sort, Map, CanonicalReceipt, CanonicalText, CanonicalSha, Flatten;
    var q := CanonicalPool(p);
    var a := FlattenMember(q.attempts, c);
    var b := SortedMember(p.attempts, CanonicalAttempt, AttemptBefore, a);
    x := SortedMember(b.concepts, CanonicalCard, CardBefore, c);
  }

  lemma SameSignature(spec: Spec, d: Digests)
    ensures NewSignature(CanonicalSpec(spec), d) == NewSignature(spec, d)
  {
    CanonicalSpecTwice(spec);
    hide CanonicalSpec, ValidSpec;
  }

  lemma ReservedSource(p: Pool, d: Digests, c: Candidate)
    requires GoodCandidate(CanonicalPool(p), d, c)
    ensures exists x :: Offers(p, x) && Reserves(ReservedOf(c), x, d)
  {
    hide CanonicalPool, NewSignature, Cards, Offers, CanonicalText, CanonicalSpec, CanonicalSet, ValidSignature,
         StableId;
    var x := CardSource(p, c.card);
    SameSignature(x.spec, d);
    TierIsLower(x.spec);
    assert Reserves(ReservedOf(c), x, d);
  }

  lemma TierIsLower(spec: Spec)
    ensures CanonicalSpec(spec).tier == CanonicalLower(spec.tier)
  {
  }

  lemma SlotServes(s: seq<Pool>, p: Pool, d: Digests, w: seq<Candidate>, u: seq<Candidate>, i: nat)
    requires AreShas(d) && IsChoice(s, d, w, u) && BarrierUpTo(s, 3) && i < 3 && s[i] == CanonicalPool(p)
    requires forall k | 0 <= k < 3 :: Ready(s[k])
    ensures |w| == 3 && ServesPool(Assembled(s, w, u), SlotOf(i, w[i], u[i]), p, d)
  {
    hide Ready, AreShas, ValidSignature, NewSignature, Cards, Chosen, Signed, NoNul, Better, ScoreOf, CanonicalText,
         CanonicalSha, CanonicalAttempt, Sort, Map, Offers, Reserves, CanonicalSpec, StableId, Distinct, CardsUpTo, Ids,
         HasViable;
    ReadyCandidate(s[i], d, true, w[i]);
    ReadyCandidate(s[i], d, false, u[i]);
    ReservedSource(p, d, w[i]);
    ReservedSource(p, d, u[i]);
    assert Bound(s, 0) && Bound(s, i);
  }

  lemma SlotIsServed(pools: seq<Pool>, d: Digests, w: seq<Candidate>, u: seq<Candidate>, i: nat)
    requires AreShas(d) && Accepted(pools) && IsChoice(Ranked(pools), d, w, u) && i < 3
    ensures |w| == 3
    ensures var r := Assembled(Ranked(pools), w, u); r.slots[i].index == i && IsServed(r, r.slots[i], pools, d)
  {
    hide ValidPool, CanonicalPool, BarrierUpTo, HasSlate, IsChoice, ServesPool, SlotOf, Sort, Map, Ready, AreShas;
    ChoiceHasThree();
    RankedIsReady(pools);
    var s := Ranked(pools);
    var p := SortedMember(pools, CanonicalPool, PoolBefore, s[i]);
    SlotServes(s, p, d, w, u, i);
    SlotIndexIs(i, w[i], u[i]);
    assert Assembled(s, w, u).slots[i] == SlotOf(i, w[i], u[i]);
  }

  /** What is reserved comes from the input: every slot names one of the pools that were sent,
      and two concepts that this pool offers, the first viable and the second not invalid. */
  lemma SelectedComesFromInput(pools: seq<Pool>, d: Digests, r: Reservation)
    requires AreShas(d) && Outcome(pools, d, Some(r))
    ensures |r.slots| == 3
    ensures forall i | 0 <= i < 3 :: r.slots[i].index == i
    ensures forall i | 0 <= i < 3 :: IsServed(r, r.slots[i], pools, d)
  {
    hide ValidReservation, AreShas, Accepted, IsChoice, IsServed, Assembled, Ranked;
    ChoiceHasThree();
    var w, u :| IsChoice(Ranked(pools), d, w, u) && r == Assembled(Ranked(pools), w, u);
    SlotCount(Ranked(pools), w, u);
    forall i | 0 <= i < 3
      ensures r.slots[i].index == i && IsServed(r, r.slots[i], pools, d)
    {
      SlotIsServed(pools, d, w, u, i);
    }
  }

  lemma SlotCount(s: seq<Pool>, w: seq<Candidate>, u: seq<Candidate>)
    requires |s| == |w| == |u| == 3
    ensures |Assembled(s, w, u).slots| == 3
  {
  }

  lemma SlotIndexIs(i: int, w: Candidate, u: Candidate)
    ensures SlotOf(i, w, u).index == i
  {
  }

  // ------------------------------------------------------- order independence

  lemma RankedIsUnique(s: seq<Pool>, t: seq<Pool>)
    requires multiset(s) == multiset(t) && Ordered(s, PoolBefore) && Ordered(t, PoolBefore)
    requires |s| == 3 && forall i | 0 <= i < 3 :: s[i].slotIndex == i
    ensures s == t
  {
    forall i | 0 <= i < |t| - 1
      ensures t[i + 1].slotIndex >= t[i].slotIndex
    {
      assert !PoolBefore(t[i + 1], t[i]);
    }
    SortedOrderIsUnique(s, t, (p: Pool) => p.slotIndex);
  }

  lemma SameCanonicalPools(pools: seq<Pool>, qools: seq<Pool>)
    requires multiset(Map(pools, BagOfPool)) == multiset(Map(qools, BagOfPool))
    requires |pools| == 3 && forall i | 0 <= i < 3 :: ValidPool(CanonicalPool(pools[i]))
    ensures multiset(Map(pools, CanonicalPool)) == multiset(Map(qools, CanonicalPool))
  {
    hide ValidPool, CanonicalPool, BagOfPool, Map;
    forall p, q | p in pools && q in qools && BagOfPool(p) == BagOfPool(q)
      ensures CanonicalPool(p) == CanonicalPool(q)
    {
      PoolOrderFree(p, q);
    }
    SameImages(pools, qools, BagOfPool, CanonicalPool);
  }

  lemma SameValidity(pools: seq<Pool>, qools: seq<Pool>)
    requires multiset(Map(pools, CanonicalPool)) == multiset(Map(qools, CanonicalPool))
    requires |pools| == 3 && forall i | 0 <= i < 3 :: ValidPool(CanonicalPool(pools[i]))
    ensures |qools| == 3 && forall i | 0 <= i < 3 :: ValidPool(CanonicalPool(qools[i]))
  {
    hide ValidPool, CanonicalPool, Map;
    var x, y := Map(pools, CanonicalPool), Map(qools, CanonicalPool);
    SameLength(x, y);
    forall i | 0 <= i < 3
      ensures ValidPool(CanonicalPool(qools[i]))
    {
      var j := SamePlace(y, x, i);
    }
  }

  /** Pools that differ in order, in the order of their attempts, or in the order of the
      concepts of an attempt, are accepted alike and ranked alike. */
  lemma RankedIgnoresOrder(pools: seq<Pool>, qools: seq<Pool>)
    requires multiset(Map(pools, BagOfPool)) == multiset(Map(qools, BagOfPool))
    requires Accepted(pools)
    ensures Ranked(qools) == Ranked(pools) && Accepted(qools)
  {
    hide ValidPool, CanonicalPool, Sort, HasSlate, BagOfPool, BarrierUpTo, Map;
    SameCanonicalPools(pools, qools);
    SameValidity(pools, qools);
    SortSorts(Map(pools, CanonicalPool), PoolBefore);
    SortSorts(Map(qools, CanonicalPool), PoolBefore);
    BarrierIndexes(Ranked(pools));
    RankedIsUnique(Ranked(pools), Ranked(qools));
  }

  lemma BarrierIndexes(s: seq<Pool>)
    requires |s| == 3 && BarrierUpTo(s, 3)
    ensures forall i | 0 <= i < 3 :: s[i].slotIndex == i
  {
    hide Distinct, Ids, CardsUpTo, HasViable;
    assert Bound(s, 0) && Bound(s, 1) && Bound(s, 2);
  }

  /** The choice, and with it the reservation, is unique. */
  lemma ChoiceIsUnique(s: seq<Pool>, d: Digests, w: seq<Candidate>, u: seq<Candidate>,
    w': seq<Candidate>, u': seq<Candidate>)
    requires AreShas(d) && IsChoice(s, d, w, u) && IsChoice(s, d, w', u')
    requires forall i | 0 <= i < 3 :: Ready(s[i])
    ensures w == w' && u == u'
  {
    hide Ready, ValidSignature, NewSignature, Cards, Chosen, Signed, NoNul, Better, ScoreOf, IsRunnerUp;
    var cs := [ViableOf(s[0], d), ViableOf(s[1], d), ViableOf(s[2], d)];
    forall i | 0 <= i < 3
      ensures IdsIdentify(ViableOf(s[i], d)) && IdsIdentify(AllOf(s[i], d)) && cs[i] == ViableOf(s[i], d)
    {
      ReadyCandidates(s[i], d, true);
      ReadyCandidates(s[i], d, false);
    }
    BestIsUnique(cs, w, w');
    forall i | 0 <= i < 3
      ensures u[i] == u'[i]
    {
      RunnerUpIsUnique(i, w, AllOf(s[i], d), u[i], u'[i]);
    }
  }

  lemma SelectedIsUnique(s: seq<Pool>, d: Digests, r: Reservation, q: Reservation)
    requires AreShas(d) && IsSelected(s, d, r) && IsSelected(s, d, q)
    requires |s| == 3 && forall i | 0 <= i < 3 :: Ready(s[i])
    ensures r == q
  {
    ChoiceHasThree();
    hide IsChoice, Assembled, Ready, AreShas;
    var w, u :| IsChoice(s, d, w, u) && r == Assembled(s, w, u);
    var w', u' :| IsChoice(s, d, w', u') && q == Assembled(s, w', u');
    ChoiceIsUnique(s, d, w, u, w', u');
  }

  /** The same pools in any order, with their attempts and concepts in any order, give the
      same reservation or the same refusal. */
  lemma SelectionIgnoresOrder(pools: seq<Pool>, qools: seq<Pool>, d: Digests,
    r: Option<Reservation>, q: Option<Reservation>)
    requires AreShas(d)
    requires multiset(Map(pools, BagOfPool)) == multiset(Map(qools, BagOfPool))
    requires Outcome(pools, d, r) && Outcome(qools, d, q)
    ensures r == q
  {
    hide ValidReservation, Ready, BagOfPool, AreShas, Map, IsSelected, ValidPool, CanonicalPool, BarrierUpTo,
         HasSlate, Ranked;
    if Accepted(pools) {
      RankedIgnoresOrder(pools, qools);
      RankedIsReady(pools);
      SelectedIsUnique(Ranked(pools), d, r.value, q.value);
    } else if Accepted(qools) {
      RankedIgnoresOrder(qools, pools);
    }
  }
}
