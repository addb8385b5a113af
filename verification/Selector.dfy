/** The deterministic max-min selector (backend/internal/diversity/selector.go). */
module Selector {
  import opened Wrappers
  import opened Ordering
  import opened Concepts
  import Chars

  datatype Candidate = Candidate(slotIndex: int, slotId: string, poolSha: string, card: Card, signature: Signature)

  // ------------------------------------------------------------------- scores

  datatype Score = Score(minimum: int, total: int, ids: string)

  /** strings.Join with a NUL between the ids */
  function Joined(a: string, b: string, c: string): string { a + ("\0" + (b + ("\0" + c))) }

  function Between(w: seq<Candidate>, i: nat, j: nat): nat
    requires i < |w| && j < |w|
  {
    Distance(w[i].signature.descriptor, w[j].signature.descriptor)
  }

  function Min(a: int, b: int): int { if b < a then b else a }

  function ScoreOf(w: seq<Candidate>): Score
    requires |w| == 3
  {
    var x, y, z := Between(w, 0, 1), Between(w, 0, 2), Between(w, 1, 2);
    Score(Min(Min(x, y), z), x + y + z, Joined(w[0].card.id, w[1].card.id, w[2].card.id))
  }

  /** betterSelectorScoreV1 */
  predicate Better(candidate: Score, incumbent: Score) {
    if candidate.minimum != incumbent.minimum then candidate.minimum > incumbent.minimum
    else if candidate.total != incumbent.total then candidate.total > incumbent.total
    else Less(candidate.ids, incumbent.ids)
  }

  lemma BetterIsStrict(a: Score, b: Score)
    ensures !(Better(a, b) && Better(b, a))
    ensures !Better(a, b) && !Better(b, a) ==> a == b
  {
    LessIsStrict(a.ids, b.ids);
  }

  lemma BetterIsTransitive(a: Score, b: Score, c: Score)
    requires Better(a, b) && Better(b, c)
    ensures Better(a, c)
  {
    hide Less;
    if Less(a.ids, b.ids) && Less(b.ids, c.ids) {
      LessIsTransitive(a.ids, b.ids, c.ids);
    }
  }

  /** A score that does not beat the incumbent does not beat what beats the incumbent. */
  lemma StaysBeaten(a: Score, incumbent: Score, better: Score)
    requires !Better(a, incumbent) && Better(better, incumbent)
    ensures !Better(a, better)
  {
    hide Better;
    if Better(a, better) {
      BetterIsTransitive(a, better, incumbent);
    }
  }

  predicate NoNul(s: string) { forall i | 0 <= i < |s| :: s[i] != '\0' }

  lemma SplitAtNul(a: string, rest: string, b: string, tail: string)
    requires NoNul(a) && NoNul(b) && a + ("\0" + rest) == b + ("\0" + tail)
    ensures a == b && rest == tail
  {
    var x, y := a + ("\0" + rest), b + ("\0" + tail);
    assert x[|a|] == '\0' && y[|b|] == '\0';
    assert forall i | 0 <= i < |a| :: x[i] == a[i];
    assert forall i | 0 <= i < |b| :: y[i] == b[i];
    assert |a| == |b|;
    assert a == x[..|a|] && b == y[..|b|];
    assert rest == x[|a| + 1..] && tail == y[|b| + 1..];
  }

  /** The joined ids determine the ids. */
  lemma JoinedIsInjective(v: seq<Candidate>, w: seq<Candidate>)
    requires |v| == |w| == 3 && ScoreOf(v).ids == ScoreOf(w).ids
    requires forall i | 0 <= i < 3 :: NoNul(v[i].card.id) && NoNul(w[i].card.id)
    ensures forall i | 0 <= i < 3 :: v[i].card.id == w[i].card.id
  {
    hide NoNul, Between;
    SplitAtNul(v[0].card.id, v[1].card.id + ("\0" + v[2].card.id), w[0].card.id, w[1].card.id + ("\0" + w[2].card.id));
    SplitAtNul(v[1].card.id, v[2].card.id, w[1].card.id, w[2].card.id);
  }

  function PairDistances(w: seq<Candidate>): seq<nat>
    requires |w| == 3
  {
    [Between(w, 0, 1), Between(w, 0, 2), Between(w, 1, 2)]
  }

  /** How many pairs come before the pair (left, right). */
  function PairIndex(left: nat, right: nat): nat
    requires left <= 3 && left < right <= 4
  {
    if left == 0 then Min(right - 1, 2) else if left == 1 then Min(right, 3) else 3
  }

  ghost predicate SignaturesValid(cs: seq<Candidate>, d: Digests) {
    forall i | 0 <= i < |cs| :: ValidSignature(cs[i].signature, d)
  }

  /** scoreCombinationV1 */
  method ScoreCombination(w: seq<Candidate>, d: Digests) returns (score: Score, ok: bool)
    requires |w| == 3
    ensures ok <==> SignaturesValid(w, d)
    ensures ok ==> score == ScoreOf(w)
  {
    hide ValidSignature, Between;
    var distances: seq<nat> := [];
    for left := 0 to 3
      invariant distances == PairDistances(w)[..PairIndex(left, left + 1)]
      invariant left > 0 ==> SignaturesValid(w, d)
    {
      for right := left + 1 to 3
        invariant distances == PairDistances(w)[..PairIndex(left, right)]
        invariant left > 0 ==> SignaturesValid(w, d)
        invariant left == 0 && right > 1 ==> forall i | 0 <= i < right :: ValidSignature(w[i].signature, d)
      {
        var distance, valid := StructuralDistance(w[left].signature, w[right].signature, d);
        if !valid {
          return Score(0, 0, ""), false;
        }
        BetweenIs(w, left, right);
        distances := distances + [distance];
      }
    }
    assert distances == PairDistances(w);
    var minimum, total := distances[0], 0;
    for i := 0 to 3
      invariant i >= 1 ==>
        minimum == Min(Min(distances[0], distances[if i >= 2 then 1 else 0]), distances[if i >= 3 then 2 else 0])
      invariant minimum == distances[0] || i >= 1
      invariant total == (if i >= 1 then distances[0] else 0) + (if i >= 2 then distances[1] else 0)
                         + (if i >= 3 then distances[2] else 0)
    {
      if distances[i] < minimum {
        minimum := distances[i];
      }
      total := total + distances[i];
    }
    score := Score(minimum, total, Joined(w[0].card.id, w[1].card.id, w[2].card.id));
    ok := true;
  }

  lemma BetweenIs(w: seq<Candidate>, i: nat, j: nat)
    requires i < |w| && j < |w|
    ensures Between(w, i, j) == Distance(w[i].signature.descriptor, w[j].signature.descriptor)
  {
  }

  // --------------------------------------------------------------- the search

  ghost predicate IsTriple(cs: seq<seq<Candidate>>, w: seq<Candidate>)
    requires |cs| == 3
  {
    |w| == 3 && w[0] in cs[0] && w[1] in cs[1] && w[2] in cs[2]
  }

  /** No triple beats w. */
  ghost predicate IsBest(cs: seq<seq<Candidate>>, w: seq<Candidate>)
    requires |cs| == 3
  {
    IsTriple(cs, w) && forall v | IsTriple(cs, v) :: !Better(ScoreOf(v), ScoreOf(w))
  }

  /** The triples tried before (i, j, k) are beaten. */
  ghost predicate BeatenBefore(cs: seq<seq<Candidate>>, found: bool, best: seq<Candidate>, i: nat, j: nat, k: nat)
    requires |cs| == 3 && (found ==> |best| == 3)
  {
    forall x, y, z | 0 <= x < |cs[0]| && 0 <= y < |cs[1]| && 0 <= z < |cs[2]| && Before(x, y, z, i, j, k) ::
      Beaten(cs, found, best, x, y, z)
  }

  ghost predicate Beaten(cs: seq<seq<Candidate>>, found: bool, best: seq<Candidate>, x: int, y: int, z: int)
    requires |cs| == 3 && (found ==> |best| == 3)
    requires 0 <= x < |cs[0]| && 0 <= y < |cs[1]| && 0 <= z < |cs[2]|
  {
    found && !Better(ScoreOf([cs[0][x], cs[1][y], cs[2][z]]), ScoreOf(best))
  }

  predicate Before(x: int, y: int, z: int, i: int, j: int, k: int) {
    x < i || (x == i && (y < j || (y == j && z < k)))
  }

  lemma NextThird(cs: seq<seq<Candidate>>, found: bool, best: seq<Candidate>, best': seq<Candidate>,
    i: nat, j: nat, k: nat)
    requires |cs| == 3 && i < |cs[0]| && j < |cs[1]| && k < |cs[2]|
    requires (found ==> |best| == 3) && |best'| == 3
    requires BeatenBefore(cs, found, best, i, j, k)
    requires var w := [cs[0][i], cs[1][j], cs[2][k]];
             if !found || Better(ScoreOf(w), ScoreOf(best)) then best' == w else best' == best
    ensures BeatenBefore(cs, true, best', i, j, k + 1)
  {
    hide Better, ScoreOf;
    var w := [cs[0][i], cs[1][j], cs[2][k]];
    BetterIsStrict(ScoreOf(w), ScoreOf(w));
    forall x, y, z | 0 <= x < |cs[0]| && 0 <= y < |cs[1]| && 0 <= z < |cs[2]| && Before(x, y, z, i, j, k + 1)
      ensures Beaten(cs, true, best', x, y, z)
    {
      var v := [cs[0][x], cs[1][y], cs[2][z]];
      if Before(x, y, z, i, j, k) {
        assert Beaten(cs, found, best, x, y, z);
        if best' != best {
          StaysBeaten(ScoreOf(v), ScoreOf(best), ScoreOf(w));
        }
      } else {
        assert v == w;
      }
    }
  }

  lemma NextSecond(cs: seq<seq<Candidate>>, found: bool, best: seq<Candidate>, i: nat, j: nat)
    requires |cs| == 3 && (found ==> |best| == 3)
    requires BeatenBefore(cs, found, best, i, j, |cs[2]|)
    ensures BeatenBefore(cs, found, best, i, j + 1, 0)
  {
    hide Better, ScoreOf;
    forall x, y, z | 0 <= x < |cs[0]| && 0 <= y < |cs[1]| && 0 <= z < |cs[2]| && Before(x, y, z, i, j + 1, 0)
      ensures Beaten(cs, found, best, x, y, z)
    {
      assert Before(x, y, z, i, j, |cs[2]|);
    }
  }

  lemma NextFirst(cs: seq<seq<Candidate>>, found: bool, best: seq<Candidate>, i: nat)
    requires |cs| == 3 && (found ==> |best| == 3)
    requires BeatenBefore(cs, found, best, i, |cs[1]|, 0)
    ensures BeatenBefore(cs, found, best, i + 1, 0, 0)
  {
    hide Better, ScoreOf;
    forall x, y, z | 0 <= x < |cs[0]| && 0 <= y < |cs[1]| && 0 <= z < |cs[2]| && Before(x, y, z, i + 1, 0, 0)
      ensures Beaten(cs, found, best, x, y, z)
    {
      assert Before(x, y, z, i, |cs[1]|, 0);
    }
  }

  lemma AllBeaten(cs: seq<seq<Candidate>>, found: bool, best: seq<Candidate>)
    requires |cs| == 3 && (found ==> IsTriple(cs, best))
    requires BeatenBefore(cs, found, best, |cs[0]|, 0, 0)
    ensures found ==> IsBest(cs, best)
    ensures found <==> cs[0] != [] && cs[1] != [] && cs[2] != []
  {
    hide Better, ScoreOf;
    if cs[0] != [] && cs[1] != [] && cs[2] != [] {
      assert Before(0, 0, 0, |cs[0]|, 0, 0) && Beaten(cs, found, best, 0, 0, 0);
    }
    if found {
      forall v | IsTriple(cs, v)
        ensures !Better(ScoreOf(v), ScoreOf(best))
      {
        var x :| 0 <= x < |cs[0]| && cs[0][x] == v[0];
        var y :| 0 <= y < |cs[1]| && cs[1][y] == v[1];
        var z :| 0 <= z < |cs[2]| && cs[2][z] == v[2];
        assert v == [cs[0][x], cs[1][y], cs[2][z]];
        assert Before(x, y, z, |cs[0]|, 0, 0) && Beaten(cs, found, best, x, y, z);
      }
    }
  }

  /** bestViableCombinationV1 */
  method BestViableCombination(cs: seq<seq<Candidate>>, d: Digests)
    returns (best: seq<Candidate>, bestScore: Score, ok: bool)
    requires |cs| == 3
    ensures ok ==> IsBest(cs, best) && bestScore == ScoreOf(best)
    ensures (forall i | 0 <= i < 3 :: SignaturesValid(cs[i], d)) ==> (ok <==> forall i | 0 <= i < 3 :: cs[i] != [])
  {
    hide Better, ScoreOf, ValidSignature, BeatenBefore;
    best, bestScore := [], Score(0, 0, "");
    var found := false;
    assert BeatenBefore(cs, found, best, 0, 0, 0) by {
      NothingBefore(cs, best);
    }
    for i := 0 to |cs[0]|
      invariant found ==> IsTriple(cs, best) && bestScore == ScoreOf(best)
      invariant BeatenBefore(cs, found, best, i, 0, 0)
    {
      for j := 0 to |cs[1]|
        invariant found ==> IsTriple(cs, best) && bestScore == ScoreOf(best)
        invariant BeatenBefore(cs, found, best, i, j, 0)
      {
        for k := 0 to |cs[2]|
          invariant found ==> IsTriple(cs, best) && bestScore == ScoreOf(best)
          invariant BeatenBefore(cs, found, best, i, j, k)
        {
          var combination := [cs[0][i], cs[1][j], cs[2][k]];
          var score, valid := ScoreCombination(combination, d);
          if !valid {
            return best, Score(0, 0, ""), false;
          }
          ghost var before, was := best, found;
          if !found || Better(score, bestScore) {
            best := combination;
            bestScore := score;
            found := true;
          }
          NextThird(cs, was, before, best, i, j, k);
        }
        NextSecond(cs, found, best, i, j);
      }
      NextFirst(cs, found, best, i);
    }
    AllBeaten(cs, found, best);
    if !found {
      return best, Score(0, 0, ""), false;
    }
    ok := true;
  }

  lemma NothingBefore(cs: seq<seq<Candidate>>, best: seq<Candidate>)
    requires |cs| == 3
    ensures BeatenBefore(cs, false, best, 0, 0, 0)
  {
  }

  // ---------------------------------------------------------------- runner-up

  ghost predicate OtherViable(slot: nat, w: seq<Candidate>, cs: seq<Candidate>)
    requires slot < |w|
  {
    exists i | 0 <= i < |cs| :: IsOther(w[slot], cs[i]) && cs[i].card.spec.tier == VIABLE
  }

  predicate IsOther(winner: Candidate, c: Candidate) { c.card.id != winner.card.id }

  /** c may stand in for the winner of its slot: another concept, viable if the slot has
      another viable one, else uncertain. */
  ghost predicate Eligible(slot: nat, w: seq<Candidate>, cs: seq<Candidate>, c: Candidate)
    requires slot < |w|
  {
    && c in cs && IsOther(w[slot], c)
    && c.card.spec.tier == (if OtherViable(slot, w, cs) then VIABLE else UNCERTAIN)
  }

  ghost predicate IsRunnerUp(slot: nat, w: seq<Candidate>, cs: seq<Candidate>, c: Candidate)
    requires slot < |w| == 3
  {
    && Eligible(slot, w, cs, c)
    && forall x | Eligible(slot, w, cs, x) :: !Better(ScoreOf(w[slot := x]), ScoreOf(w[slot := c]))
  }

  /** bestRunnerUpV1 */
  method BestRunnerUp(slot: nat, w: seq<Candidate>, cs: seq<Candidate>, d: Digests) returns (best: Candidate, ok: bool)
    requires slot < |w| == 3
    ensures ok ==> IsRunnerUp(slot, w, cs, best)
    ensures SignaturesValid(w, d) && SignaturesValid(cs, d) ==> (ok <==> exists c :: Eligible(slot, w, cs, c))
  {
    hide Better, ScoreOf, ValidSignature;
    var hasViable := false;
    for n := 0 to |cs|
      invariant !hasViable
      invariant forall i | 0 <= i < n :: !(IsOther(w[slot], cs[i]) && cs[i].card.spec.tier == VIABLE)
    {
      if IsOther(w[slot], cs[n]) && cs[n].card.spec.tier == VIABLE {
        hasViable := true;
        break;
      }
    }
    var preferred := if hasViable then VIABLE else UNCERTAIN;
    assert hasViable == OtherViable(slot, w, cs);
    hide OtherViable;
    best := w[slot];
    var bestScore := Score(0, 0, "");
    var found := false;
    for i := 0 to |cs|
      invariant found ==> Eligible(slot, w, cs, best) && bestScore == ScoreOf(w[slot := best])
      invariant forall x | 0 <= x < i && Eligible(slot, w, cs, cs[x]) ::
          found && !Better(ScoreOf(w[slot := cs[x]]), bestScore)
    {
      var c := cs[i];
      if IsOther(w[slot], c) && c.card.spec.tier == preferred {
        var combination := w[slot := c];
        var score, valid := ScoreCombination(combination, d);
        if !valid {
          return w[slot], false;
        }
        BetterIsStrict(score, score);
        if !found || Better(score, bestScore) {
          forall x | 0 <= x < i && Eligible(slot, w, cs, cs[x])
            ensures !Better(ScoreOf(w[slot := cs[x]]), score)
          {
            StaysBeaten(ScoreOf(w[slot := cs[x]]), bestScore, score);
          }
          best := c;
          bestScore := score;
          found := true;
        }
      }
    }
    ok := found;
  }

  // --------------------------------------------------------------- uniqueness

  /** Candidates are told apart by their concept ids, and the ids hold no NUL. */
  ghost predicate IdsIdentify(cs: seq<Candidate>) {
    && (forall c | c in cs :: NoNul(c.card.id))
    && forall a, b | a in cs && b in cs :: a.card.id == b.card.id ==> a == b
  }

  /** The optimum is unique. */
  lemma BestIsUnique(cs: seq<seq<Candidate>>, v: seq<Candidate>, w: seq<Candidate>)
    requires |cs| == 3 && IsBest(cs, v) && IsBest(cs, w)
    requires forall i | 0 <= i < 3 :: IdsIdentify(cs[i])
    ensures v == w
  {
    hide Better, ScoreOf, NoNul;
    BetterIsStrict(ScoreOf(v), ScoreOf(w));
    assert IdsIdentify(cs[0]) && IdsIdentify(cs[1]) && IdsIdentify(cs[2]);
    JoinedIsInjective(v, w);
  }

  /** ... whatever the order in which the candidates of each slot were listed. */
  lemma BestIgnoresOrder(cs: seq<seq<Candidate>>, ds: seq<seq<Candidate>>, v: seq<Candidate>, w: seq<Candidate>)
    requires |cs| == |ds| == 3 && IsBest(cs, v) && IsBest(ds, w)
    requires forall i | 0 <= i < 3 :: IdsIdentify(cs[i]) && multiset(cs[i]) == multiset(ds[i])
    ensures v == w
  {
    hide Better, ScoreOf, IdsIdentify;
    assert forall i, c | 0 <= i < 3 :: c in cs[i] <==> c in ds[i] by {
      forall i, c | 0 <= i < 3
        ensures c in cs[i] <==> c in ds[i]
      {
        assert c in cs[i] <==> c in multiset(cs[i]);
        assert c in ds[i] <==> c in multiset(ds[i]);
      }
    }
    forall u
      ensures IsTriple(cs, u) <==> IsTriple(ds, u)
    {
    }
    assert IsBest(cs, w);
    BestIsUnique(cs, v, w);
  }

  lemma RunnerUpIsUnique(slot: nat, w: seq<Candidate>, cs: seq<Candidate>, x: Candidate, y: Candidate)
    requires slot < |w| == 3 && IsRunnerUp(slot, w, cs, x) && IsRunnerUp(slot, w, cs, y)
    requires IdsIdentify(cs) && forall i | 0 <= i < 3 :: NoNul(w[i].card.id)
    ensures x == y
  {
    hide Better, ScoreOf, NoNul, OtherViable;
    var v, u := w[slot := x], w[slot := y];
    BetterIsStrict(ScoreOf(v), ScoreOf(u));
    JoinedIsInjective(v, u);
    assert v[slot].card.id == u[slot].card.id;
  }

  // ------------------------------------------------------------- the max-min law

  const PAIRS := {(0, 1), (0, 2), (1, 2)}

  function Apart(w: seq<Candidate>, p: (nat, nat)): nat
    requires |w| == 3 && p in PAIRS
  {
    Distance(w[p.0].signature.descriptor, w[p.1].signature.descriptor)
  }

  /** Some pair of v is no farther apart than every pair of w. */
  ghost predicate NoWider(v: seq<Candidate>, w: seq<Candidate>)
    requires |v| == |w| == 3
  {
    exists p | p in PAIRS :: forall q | q in PAIRS :: Apart(v, p) <= Apart(w, q)
  }

  function Spread(w: seq<Candidate>): nat
    requires |w| == 3
  {
    Apart(w, (0, 1)) + Apart(w, (0, 2)) + Apart(w, (1, 2))
  }

  /** The ids of v come first: the same up to some slot, and there the lesser one. */
  ghost predicate IdsBefore(v: seq<Candidate>, w: seq<Candidate>)
    requires |v| == |w| == 3
  {
    exists k | 0 <= k < 3 ::
      (forall i | 0 <= i < k :: v[i].card.id == w[i].card.id) && Less(v[k].card.id, w[k].card.id)
  }

  /** v does not outdo w: its closest pair is no farther apart; with equally far closest pairs
      it is not more spread; and with the same spread its ids do not come first. */
  ghost predicate Yields(v: seq<Candidate>, w: seq<Candidate>)
    requires |v| == |w| == 3
  {
    && NoWider(v, w)
    && (NoWider(w, v) ==> Spread(v) <= Spread(w) && (Spread(v) == Spread(w) ==> !IdsBefore(v, w)))
  }

  lemma ApartIsBetween(w: seq<Candidate>)
    requires |w| == 3
    ensures (0, 1) in PAIRS && (0, 2) in PAIRS && (1, 2) in PAIRS
    ensures Apart(w, (0, 1)) == Between(w, 0, 1) && Apart(w, (0, 2)) == Between(w, 0, 2)
    ensures Apart(w, (1, 2)) == Between(w, 1, 2)
    ensures forall p | p in PAIRS :: p == (0, 1) || p == (0, 2) || p == (1, 2)
  {
    hide Distance;
  }

  lemma MinimumIsLeast(w: seq<Candidate>)
    requires |w| == 3
    ensures exists p | p in PAIRS :: ScoreOf(w).minimum == Apart(w, p)
    ensures forall p | p in PAIRS :: ScoreOf(w).minimum <= Apart(w, p)
    ensures ScoreOf(w).total == Spread(w)
  {
    hide Apart, Between, PAIRS;
    ApartIsBetween(w);
    var m := ScoreOf(w).minimum;
    assert m == Apart(w, (0, 1)) || m == Apart(w, (0, 2)) || m == Apart(w, (1, 2));
    forall p | p in PAIRS
      ensures m <= Apart(w, p)
    {
      assert p == (0, 1) || p == (0, 2) || p == (1, 2);
    }
  }

  lemma MinimumIsClosest(v: seq<Candidate>, w: seq<Candidate>)
    requires |v| == |w| == 3
    ensures NoWider(v, w) <==> ScoreOf(v).minimum <= ScoreOf(w).minimum
  {
    hide Apart, ScoreOf, PAIRS;
    MinimumIsLeast(v);
    MinimumIsLeast(w);
    var m: (nat, nat) :| m in PAIRS && ScoreOf(v).minimum == Apart(v, m);
    var n: (nat, nat) :| n in PAIRS && ScoreOf(w).minimum == Apart(w, n);
    if ScoreOf(v).minimum <= ScoreOf(w).minimum {
      assert forall q | q in PAIRS :: Apart(v, m) <= Apart(w, q);
    }
    if NoWider(v, w) {
      var p :| p in PAIRS && forall q | q in PAIRS :: Apart(v, p) <= Apart(w, q);
      assert Apart(v, p) <= Apart(w, n);
    }
  }

  /** A text in front of a NUL is compared before what follows it. */
  lemma {:induction false} LessAtNul(a: string, rest: string, b: string, tail: string)
    requires NoNul(a) && NoNul(b)
    ensures Less(a + ("\0" + rest), b + ("\0" + tail)) <==> Less(a, b) || (a == b && Less(rest, tail))
  {
    var x, y := a + ("\0" + rest), b + ("\0" + tail);
    if a == "" {
      assert x[0] == '\0' && x[1..] == rest;
      assert b == "" ==> y[1..] == tail;
      assert b != "" ==> y[0] == b[0];
    } else if b == "" {
      assert y[0] == '\0' && x[0] == a[0];
    } else {
      assert x[0] == a[0] && y[0] == b[0];
      assert x[1..] == a[1..] + ("\0" + rest) && y[1..] == b[1..] + ("\0" + tail);
      LessAtNul(a[1..], rest, b[1..], tail);
      assert a == b <==> a[0] == b[0] && a[1..] == b[1..] by {
        assert a == [a[0]] + a[1..] && b == [b[0]] + b[1..];
      }
    }
  }

  lemma JoinedCompares(v: seq<Candidate>, w: seq<Candidate>)
    requires |v| == |w| == 3
    requires forall i | 0 <= i < 3 :: NoNul(v[i].card.id) && NoNul(w[i].card.id)
    ensures Less(ScoreOf(v).ids, ScoreOf(w).ids) <==> IdsBefore(v, w)
  {
    hide NoNul, Between, Less;
    LessAtNul(v[0].card.id, v[1].card.id + ("\0" + v[2].card.id), w[0].card.id, w[1].card.id + ("\0" + w[2].card.id));
    LessAtNul(v[1].card.id, v[2].card.id, w[1].card.id, w[2].card.id);
    if IdsBefore(v, w) {
      var k :| && 0 <= k < 3 && (forall i | 0 <= i < k :: v[i].card.id == w[i].card.id)
               && Less(v[k].card.id, w[k].card.id);
      assert k == 0 || k == 1 || k == 2;
    }
    if Less(v[0].card.id, w[0].card.id) {
      assert IdsBefore(v, w);
    } else if v[0].card.id == w[0].card.id && Less(v[1].card.id, w[1].card.id) {
      assert IdsBefore(v, w);
    } else if v[0].card.id == w[0].card.id && v[1].card.id == w[1].card.id && Less(v[2].card.id, w[2].card.id) {
      assert IdsBefore(v, w);
    }
  }

  /** Not being better is yielding. */
  lemma NotBetterYields(v: seq<Candidate>, w: seq<Candidate>)
    requires |v| == |w| == 3
    requires forall i | 0 <= i < 3 :: NoNul(v[i].card.id) && NoNul(w[i].card.id)
    ensures !Better(ScoreOf(v), ScoreOf(w)) <==> Yields(v, w)
  {
    hide NoNul, ScoreOf, NoWider, Spread, IdsBefore, Less;
    MinimumIsClosest(v, w);
    MinimumIsClosest(w, v);
    MinimumIsLeast(v);
    MinimumIsLeast(w);
    JoinedCompares(v, w);
  }

  ghost predicate NulFree(cs: seq<Candidate>) { forall c | c in cs :: NoNul(c.card.id) }

  /** The max-min law: the triple that the search returns is one to which every triple yields,
      and every such triple is what the search may return. */
  lemma BestIsMaxMin(cs: seq<seq<Candidate>>, w: seq<Candidate>)
    requires |cs| == 3 && forall i | 0 <= i < 3 :: NulFree(cs[i])
    ensures IsBest(cs, w) <==> IsTriple(cs, w) && forall v | IsTriple(cs, v) :: Yields(v, w)
  {
    hide Better, ScoreOf, Yields, NoNul;
    if IsTriple(cs, w) {
      assert NulFree(cs[0]) && NulFree(cs[1]) && NulFree(cs[2]);
      forall v | IsTriple(cs, v)
        ensures !Better(ScoreOf(v), ScoreOf(w)) <==> Yields(v, w)
      {
        NotBetterYields(v, w);
      }
    }
  }

  /** The same law for a stand-in, among those eligible for its slot. */
  lemma RunnerUpIsMaxMin(slot: nat, w: seq<Candidate>, cs: seq<Candidate>, c: Candidate)
    requires slot < |w| == 3 && NulFree(cs) && NulFree(w)
    ensures IsRunnerUp(slot, w, cs, c) <==>
            Eligible(slot, w, cs, c) && forall x | Eligible(slot, w, cs, x) :: Yields(w[slot := x], w[slot := c])
  {
    hide Better, ScoreOf, Yields, NoNul, OtherViable;
    if Eligible(slot, w, cs, c) {
      forall x | Eligible(slot, w, cs, x)
        ensures !Better(ScoreOf(w[slot := x]), ScoreOf(w[slot := c])) <==> Yields(w[slot := x], w[slot := c])
      {
        NotBetterYields(w[slot := x], w[slot := c]);
      }
    }
  }

  // -------------------------------------------------------------- reservation

  const RESERVATION_SCHEMA := "algoforge.s5-provisional-reservation.v1"
  const SELECTOR_VERSION := "algoforge.s5-deterministic-max-min-selector.v1"
  const SIGNATURE_SCHEMA := "algoforge.s5-structural-signature.v1"
  const PROVISIONAL := "provisional"

  datatype Reserved = Reserved(id: string, tier: string, signatureSha: string)

  datatype Slot = Slot(index: int, slotId: string, poolSha: string, winner: Reserved, runnerUp: Reserved)

  datatype Reservation = Reservation(
    schemaVersion: string, status: string, batchId: string, corpusRevision: string, selectorVersion: string,
    signatureVersion: string, minimum: int, total: int, slots: seq<Slot>)

  /** reservedConceptV1 */
  function ReservedOf(c: Candidate): Reserved { Reserved(c.card.id, c.card.spec.tier, c.signature.sha) }

  function CanonicalReserved(r: Reserved): Reserved {
    Reserved(CanonicalText(r.id), CanonicalLower(r.tier), CanonicalSha(r.signatureSha))
  }

  function CanonicalSlot(s: Slot): Slot {
    Slot(s.index, CanonicalText(s.slotId), CanonicalSha(s.poolSha),
         CanonicalReserved(s.winner), CanonicalReserved(s.runnerUp))
  }

  predicate SlotBefore(a: Slot, b: Slot) { a.index < b.index }

  /** CanonicalProvisionalReservationV1, before it validates */
  function CanonicalReservation(r: Reservation): Reservation {
    r.(status := CanonicalLower(r.status), batchId := CanonicalText(r.batchId),
       corpusRevision := CanonicalSha(r.corpusRevision), slots := Sort(Map(r.slots, CanonicalSlot), SlotBefore))
  }

  predicate ValidReserved(r: Reserved) { StableId(r.id) && IsSha(r.signatureSha) }

  predicate ValidSlot(s: Slot, index: int) {
    && s.index == index && StableId(s.slotId) && IsSha(s.poolSha)
    && s.winner.tier == VIABLE && (s.runnerUp.tier == VIABLE || s.runnerUp.tier == UNCERTAIN)
    && ValidReserved(s.winner) && ValidReserved(s.runnerUp)
  }

  predicate ValidHeader(r: Reservation) {
    && r.schemaVersion == RESERVATION_SCHEMA && r.status == PROVISIONAL && r.selectorVersion == SELECTOR_VERSION
    && r.signatureVersion == SIGNATURE_SCHEMA
    && StableId(r.batchId) && IsSha(r.corpusRevision) && 0 <= r.minimum <= r.total
    && |r.slots| == 3
  }

  function SlotIds(slots: seq<Slot>): seq<string> {
    if slots == [] then [] else SlotIds(slots[..|slots| - 1]) + [slots[|slots| - 1].slotId]
  }

  function ConceptIds(slots: seq<Slot>): seq<string> {
    if slots == [] then []
    else
      var last := slots[|slots| - 1];
      ConceptIds(slots[..|slots| - 1]) + [last.winner.id, last.runnerUp.id]
  }

  ghost predicate ValidReservation(r: Reservation) {
    && ValidHeader(r)
    && (forall i | 0 <= i < 3 :: ValidSlot(r.slots[i], i))
    && Distinct(SlotIds(r.slots)) && Distinct(ConceptIds(r.slots))
  }

  /** ProvisionalReservationV1.Validate */
  method Validate(r: Reservation) returns (ok: bool)
    ensures ok <==> ValidReservation(r)
  {
    hide ValidHeader, ValidSlot, SlotIds, ConceptIds, Distinct;
    if !ValidHeader(r) {
      return false;
    }
    HeaderHasSlots(r);
    var seenSlots: set<string>, seenConcepts: set<string> := {}, {};
    NoIds();
    assert r.slots[..0] == [];
    for i := 0 to 3
      invariant forall k | 0 <= k < i :: ValidSlot(r.slots[k], k)
      invariant forall x :: x in seenSlots <==> x in SlotIds(r.slots[..i])
      invariant forall x :: x in seenConcepts <==> x in ConceptIds(r.slots[..i])
      invariant Distinct(SlotIds(r.slots[..i])) && Distinct(ConceptIds(r.slots[..i]))
    {
      var slot := r.slots[i];
      IdStep(r.slots, i);
      ghost var slotIds, ids := SlotIds(r.slots[..i]), ConceptIds(r.slots[..i]);
      DistinctGrows(slotIds, slot.slotId);
      DistinctGrows(ids, slot.winner.id);
      DistinctGrows(ids + [slot.winner.id], slot.runnerUp.id);
      assert ids + [slot.winner.id, slot.runnerUp.id] == (ids + [slot.winner.id]) + [slot.runnerUp.id];
      if !ValidSlot(slot, i) {
        return false;
      }
      if slot.slotId in seenSlots || slot.winner.id in seenConcepts
         || slot.runnerUp.id in seenConcepts + {slot.winner.id} {
        IdsOfPart(r.slots, i + 1);
        return false;
      }
      seenSlots := seenSlots + {slot.slotId};
      seenConcepts := seenConcepts + {slot.winner.id, slot.runnerUp.id};
    }
    assert r.slots[..3] == r.slots;
    ok := true;
  }

  lemma HeaderHasSlots(r: Reservation)
    requires ValidHeader(r)
    ensures |r.slots| == 3
  {
  }

  lemma NoIds()
    ensures SlotIds([]) == [] && ConceptIds([]) == [] && Distinct<string>([])
  {
  }

  lemma IdStep(slots: seq<Slot>, i: nat)
    requires i < |slots|
    ensures SlotIds(slots[..i + 1]) == SlotIds(slots[..i]) + [slots[i].slotId]
    ensures ConceptIds(slots[..i + 1]) == ConceptIds(slots[..i]) + [slots[i].winner.id, slots[i].runnerUp.id]
  {
    assert slots[..i + 1][..i] == slots[..i];
  }

  lemma {:induction false} IdsOfPart(slots: seq<Slot>, n: nat)
    requires n <= |slots|
    ensures Distinct(SlotIds(slots)) ==> Distinct(SlotIds(slots[..n]))
    ensures Distinct(ConceptIds(slots)) ==> Distinct(ConceptIds(slots[..n]))
  {
    hide Distinct;
    if n == |slots| {
      assert slots[..n] == slots;
    } else {
      var shorter := slots[..|slots| - 1];
      IdsOfPart(shorter, n);
      assert shorter[..n] == slots[..n];
      if Distinct(SlotIds(slots)) {
        DistinctPart(SlotIds(shorter), [slots[|slots| - 1].slotId]);
      }
      if Distinct(ConceptIds(slots)) {
        DistinctPart(ConceptIds(shorter), [slots[|slots| - 1].winner.id, slots[|slots| - 1].runnerUp.id]);
      }
    }
  }

  /** A concept may be reserved: an id that fits, and a digest of its signature. */
  predicate Named(x: Reserved) {
    && x.id != "" && Chars.ByteLength(x.id) <= 256
    && (forall i | 0 <= i < |x.id| :: ' ' <= x.id[i] <= '~' || x.id[i] > '\U{9F}')
    && |x.signatureSha| == 64 && forall i | 0 <= i < 64 :: x.signatureSha[i] in "0123456789abcdef"
  }

  lemma NamedExactly(x: Reserved)
    ensures ValidReserved(x) <==> Named(x)
  {
    hide Chars.ByteLength;
    assert forall c: char :: c in "0123456789abcdef" <==> 'a' <= c <= 'f' || '0' <= c <= '9';
    assert forall c: char :: !IsControl(c) <==> ' ' <= c <= '~' || c > '\U{9F}';
  }

  /** The six concepts are six, and the three slots are three. */
  predicate AllDiffer(slots: seq<Slot>) {
    && (forall i, j | 0 <= i < j < |slots| :: slots[i].slotId != slots[j].slotId)
    && (forall i, j | 0 <= i < |slots| && 0 <= j < |slots| :: slots[i].winner.id != slots[j].runnerUp.id)
    && (forall i, j | 0 <= i < j < |slots| ::
          slots[i].winner.id != slots[j].winner.id && slots[i].runnerUp.id != slots[j].runnerUp.id)
  }

  lemma IdsOfThree(x: Slot, y: Slot, z: Slot)
    ensures SlotIds([x, y, z]) == [x.slotId, y.slotId, z.slotId]
    ensures ConceptIds([x, y, z])
            == [x.winner.id, x.runnerUp.id] + [y.winner.id, y.runnerUp.id] + [z.winner.id, z.runnerUp.id]
  {
    hide SlotIds, ConceptIds;
    var slots := [x, y, z];
    NoIds();
    IdStep(slots, 0);
    IdStep(slots, 1);
    IdStep(slots, 2);
    assert slots[..0] == [] && slots[..3] == slots;
  }

  lemma SixDiffer(a: string, b: string, c: string, d: string, e: string, f: string)
    ensures Distinct([a, b] + [c, d] + [e, f]) <==>
            && a != b && a != c && a != d && a != e && a != f && b != c && b != d && b != e && b != f
            && c != d && c != e && c != f && d != e && d != f && e != f
  {
    var all := [a, b] + [c, d] + [e, f];
    assert all[0] == a && all[1] == b && all[2] == c && all[3] == d && all[4] == e && all[5] == f;
  }

  lemma ThreeDiffer(a: string, b: string, c: string)
    ensures Distinct([a, b, c]) <==> a != b && a != c && b != c
  {
    var all := [a, b, c];
    assert all[0] == a && all[1] == b && all[2] == c;
  }

  lemma DifferMeansDistinct(slots: seq<Slot>)
    requires |slots| == 3
    ensures Distinct(SlotIds(slots)) && Distinct(ConceptIds(slots)) <==> AllDiffer(slots)
  {
    hide Distinct, SlotIds, ConceptIds;
    var x, y, z := slots[0], slots[1], slots[2];
    assert slots == [x, y, z];
    IdsOfThree(x, y, z);
    ThreeDiffer(x.slotId, y.slotId, z.slotId);
    SixDiffer(x.winner.id, x.runnerUp.id, y.winner.id, y.runnerUp.id, z.winner.id, z.runnerUp.id);
    ThreeIndexed(slots);
  }

  lemma ThreeIndexed(slots: seq<Slot>)
    requires |slots| == 3
    ensures var x, y, z := slots[0], slots[1], slots[2];
            AllDiffer(slots) <==>
            && x.slotId != y.slotId && x.slotId != z.slotId && y.slotId != z.slotId
            && x.winner.id != x.runnerUp.id && x.winner.id != y.winner.id && x.winner.id != y.runnerUp.id
            && x.winner.id != z.winner.id && x.winner.id != z.runnerUp.id && x.runnerUp.id != y.winner.id
            && x.runnerUp.id != y.runnerUp.id && x.runnerUp.id != z.winner.id && x.runnerUp.id != z.runnerUp.id
            && y.winner.id != y.runnerUp.id && y.winner.id != z.winner.id && y.winner.id != z.runnerUp.id
            && y.runnerUp.id != z.winner.id && y.runnerUp.id != z.runnerUp.id && z.winner.id != z.runnerUp.id
  {
  }

  /** Exactly these reservations are valid. */
  lemma ReservationExactly(r: Reservation)
    ensures ValidReservation(r) <==>
            && r.schemaVersion == RESERVATION_SCHEMA && r.status == "provisional"
            && r.selectorVersion == SELECTOR_VERSION && r.signatureVersion == SIGNATURE_SCHEMA
            && StableId(r.batchId) && IsSha(r.corpusRevision) && 0 <= r.minimum <= r.total && |r.slots| == 3
            && (forall i | 0 <= i < 3 ::
                  && r.slots[i].index == i && StableId(r.slots[i].slotId) && IsSha(r.slots[i].poolSha)
                  && r.slots[i].winner.tier == "viable" && r.slots[i].runnerUp.tier in {"viable", "uncertain"}
                  && Named(r.slots[i].winner) && Named(r.slots[i].runnerUp))
            && AllDiffer(r.slots)
  {
    hide AllDiffer, Distinct, SlotIds, ConceptIds, Chars.ByteLength, Named, ValidReserved;
    if |r.slots| == 3 {
      DifferMeansDistinct(r.slots);
      forall i | 0 <= i < 3
        ensures ValidReserved(r.slots[i].winner) <==> Named(r.slots[i].winner)
        ensures ValidReserved(r.slots[i].runnerUp) <==> Named(r.slots[i].runnerUp)
      {
        NamedExactly(r.slots[i].winner);
        NamedExactly(r.slots[i].runnerUp);
      }
    }
  }
}
