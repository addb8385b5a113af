/** Three small concept pools that the selector accepts: the statements about accepted
    batches speak of something. */
module BatchExample {
  import opened Chars
  import opened Ordering
  import opened Concepts
  import opened MicroBatch

  function Letter(n: nat): string
    requires n < 12
  {
    ['a' + n as char]
  }

  function Row(n: nat): string { seq(n, _ => 'a') }

  const SHA := Row(64)

  const SPEC := Spec(SPEC_SCHEMA, CANONICALIZER, 0.5, VIABLE, "x", "x", "x", "x", "x",
                     ["x"], "x", ["x"], "x", "x", "x", ["x"])

  const RECEIPT := Receipt(SHA, "x")

  const USAGE := Usage(1, 0, 0, 0)

  const BUDGET := Budget(2, 4, 3, 0, 1, 1)

  function ExampleCard(n: nat, index: int): Card
    requires n < 12
  {
    Card(index, Letter(n), Letter(n), [], SPEC)
  }

  function ExampleAttempt(n: nat, index: int): Attempt
    requires n < 11
  {
    Attempt(index, Letter(n), RECEIPT, USAGE, [ExampleCard(n, 0), ExampleCard(n + 1, 1)])
  }

  function ExamplePool(slot: nat): Pool
    requires slot < 3
  {
    Pool(POOL_SCHEMA, "x", slot, Letter(slot), SHA, SHA, BUDGET,
         [ExampleAttempt(4 * slot, 0), ExampleAttempt(4 * slot + 2, 1)], Normalization("x", RECEIPT, USAGE))
  }

  const POOLS := [ExamplePool(0), ExamplePool(1), ExamplePool(2)]

  // --------------------------------------------------- the texts are canonical

  lemma PlainText(s: string)
    requires forall i | 0 <= i < |s| :: 'a' <= s[i] <= 'z'
    ensures CanonicalText(s) == s && CanonicalLower(s) == s && Trim(s) == s && Lower(s) == s
  {
    hide CanonicalText;
    TidyIsCanonical(s);
    TrimIsId(s);
    hide Trim;
    assert Lower(s) == s;
  }

  lemma OneByte(c: char)
    requires 'a' <= c <= 'z'
    ensures ByteLength([c]) == 1 && StableId([c]) && Bounded([c])
  {
    assert ByteLength([c][1..]) == 0;
  }

  lemma NoTexts()
    ensures CanonicalSet([]) == [] && ValidSet([])
  {
  }

  lemma SpecIsCanonical()
    ensures CanonicalSpec(SPEC) == SPEC
  {
    hide CanonicalLower, CanonicalLowerSet, CanonicalLowerList, SPEC_SCHEMA, CANONICALIZER, VIABLE;
    PlainText("x");
    TierIsPlain();
    SetIsCanonical();
  }

  lemma TierIsPlain()
    ensures CanonicalLower(VIABLE) == VIABLE
  {
    hide CanonicalLower;
    PlainText(VIABLE);
  }

  lemma SetIsCanonical()
    requires CanonicalLower("x") == "x"
    ensures CanonicalLowerList(["x"]) == ["x"] && CanonicalLowerSet(["x"]) == ["x"]
  {
    hide CanonicalLower, Less, Sort;
    assert CanonicalLowerList(["x"]) == ["x"];
    SortOfOrdered(["x"], Less);
  }

  lemma SpecIsValid()
    ensures ValidSpec(SPEC)
  {
    hide Less, ByteLength, StableId;
    OneByte('x');
  }

  lemma ReceiptIsFine()
    ensures CanonicalReceipt(RECEIPT) == RECEIPT && ValidReceipt(RECEIPT) && IsSha(SHA) && CanonicalSha(SHA) == SHA
  {
    hide Trim, CanonicalSha, ByteLength, StableId;
    assert IsSha(SHA);
    ShaIsCanonical(SHA);
    PlainText("x");
    OneByte('x');
  }

  lemma CardIsFine(n: nat, index: int)
    requires n < 12
    ensures CanonicalCard(ExampleCard(n, index)) == ExampleCard(n, index) && ValidCard(ExampleCard(n, index), index)
    ensures StableId(Letter(n)) && CanonicalText(Letter(n)) == Letter(n)
  {
    hide CanonicalText, CanonicalSet, CanonicalSpec, ValidSpec, ValidSet, StableId, ByteLength, SPEC;
    PlainText(Letter(n));
    OneByte(Letter(n)[0]);
    NoTexts();
    SpecIsCanonical();
    SpecIsValid();
  }

  lemma AttemptIsFine(n: nat, index: int)
    requires n < 11
    ensures CanonicalAttempt(ExampleAttempt(n, index)) == ExampleAttempt(n, index)
    ensures ValidAttempt(ExampleAttempt(n, index), index)
  {
    hide CanonicalText, CanonicalCard, CanonicalReceipt, ValidReceipt, ValidCard, StableId, RECEIPT, Letter, Sort;
    ReceiptIsFine();
    CardIsFine(n, 0);
    CardIsFine(n + 1, 1);
    var cards := ExampleAttempt(n, index).concepts;
    assert Map(cards, CanonicalCard) == cards;
    SortOfOrdered(cards, CardBefore);
  }

  lemma AttemptsAreCanonical(slot: nat)
    requires slot < 3
    ensures var attempts := ExamplePool(slot).attempts;
            Sort(Map(attempts, CanonicalAttempt), AttemptBefore) == attempts
  {
    hide CanonicalAttempt, RECEIPT, USAGE, Letter, ExampleCard, Sort;
    AttemptIsFine(4 * slot, 0);
    AttemptIsFine(4 * slot + 2, 1);
    var attempts := ExamplePool(slot).attempts;
    assert Map(attempts, CanonicalAttempt) == attempts;
    SortOfOrdered(attempts, AttemptBefore);
  }

  lemma PoolIsCanonical(slot: nat)
    requires slot < 3
    ensures CanonicalPool(ExamplePool(slot)) == ExamplePool(slot)
  {
    hide CanonicalText, CanonicalReceipt, CanonicalSha, SHA, RECEIPT, USAGE, BUDGET, Letter, Sort, Map, ExampleAttempt,
         POOL_SCHEMA;
    ReceiptIsFine();
    PlainText("x");
    CardIsFine(slot, 0);
    AttemptsAreCanonical(slot);
  }

  // -------------------------------------------------------- the pools are valid

  lemma ExampleCards(slot: nat)
    requires slot < 3
    ensures var n, cards := 4 * slot, Cards(ExamplePool(slot));
            cards == [ExampleCard(n, 0), ExampleCard(n + 1, 1), ExampleCard(n + 2, 0), ExampleCard(n + 3, 1)]
  {
    hide ExampleCard;
    var attempts := ExamplePool(slot).attempts;
    assert attempts[1..][1..] == [];
    assert Flatten(attempts) == attempts[0].concepts + (attempts[1].concepts + []);
  }

  lemma LogicalIdsDiffer(slot: nat)
    requires slot < 3
    ensures var attempts := ExamplePool(slot).attempts;
            |attempts| == 2 && attempts[0].logicalId != attempts[1].logicalId
  {
    assert Letter(4 * slot)[0] != Letter(4 * slot + 2)[0];
  }

  lemma ExampleBudget(slot: nat)
    requires slot < 3
    ensures var p := ExamplePool(slot);
            && ValidBudget(p.budget) && ValidUsage(p.normalization.usage)
            && WithinBudget(Plus(p.normalization.usage, Plus(p.attempts[0].usage, p.attempts[1].usage)), p.budget)
  {
  }

  lemma PoolIsValid(slot: nat)
    requires slot < 3
    ensures ValidPool(ExamplePool(slot))
  {
    hide ValidAttempt, ExampleAttempt, ValidReceipt, ValidUsage, ValidBudget, WithinBudget, Plus, StableId, IsSha,
         SHA, RECEIPT, USAGE, BUDGET, Cards, Ids, Map, Distinct, Letter;
    ReceiptIsFine();
    OneByte('x');
    CardIsFine(slot, 0);
    AttemptIsFine(4 * slot, 0);
    AttemptIsFine(4 * slot + 2, 1);
    LogicalIdsDiffer(slot);
    ExampleBudget(slot);
    PoolIsDistinct(slot);
  }

  lemma ExampleCardAt(slot: nat, k: nat)
    requires slot < 3 && k < 4
    ensures var cards := Cards(ExamplePool(slot)); |cards| == 4 && cards[k] == ExampleCard(4 * slot + k, k % 2)
  {
    hide Cards, ExampleCard, ExamplePool;
    ExampleCards(slot);
    assert k == 0 || k == 1 || k == 2 || k == 3;
  }

  /** The letters of the cards are their ids and their pitch keys. */
  lemma CardLetters(slot: nat, k: nat)
    requires slot < 3 && k < 4
    ensures var cards := Cards(ExamplePool(slot));
            |cards| == 4 && CardId(cards[k]) == Letter(4 * slot + k) == PitchKey(cards[k])
  {
    hide Cards, ExamplePool, SPEC, Lower, Letter, Trim;
    ExampleCardAt(slot, k);
    LetterIsPlain(4 * slot + k);
    PlainText(Letter(4 * slot + k));
  }

  lemma LetterIsPlain(n: nat)
    requires n < 12
    ensures |Letter(n)| == 1 && 'a' <= Letter(n)[0] <= 'l'
  {
  }

  lemma LettersDiffer(texts: seq<string>, n: nat)
    requires n + |texts| <= 12 && forall k | 0 <= k < |texts| :: texts[k] == Letter(n + k)
    ensures Distinct(texts)
  {
    forall i, j | 0 <= i < j < |texts|
      ensures texts[i] != texts[j]
    {
      assert texts[i][0] != texts[j][0];
    }
  }

  lemma PoolIsDistinct(slot: nat)
    requires slot < 3
    ensures Distinct(Ids(Cards(ExamplePool(slot)))) && Distinct(Map(Cards(ExamplePool(slot)), PitchKey))
  {
    hide Cards, ExamplePool, Letter, CardId, PitchKey, Map, Distinct;
    var cards := Cards(ExamplePool(slot));
    CardLetters(slot, 0);
    CardLetters(slot, 1);
    CardLetters(slot, 2);
    CardLetters(slot, 3);
    LettersDiffer(Ids(cards), 4 * slot);
    LettersDiffer(Map(cards, PitchKey), 4 * slot);
  }

  // -------------------------------------------------------- the batch is accepted

  lemma {:induction false} IdsUpTo(n: nat)
    requires n <= 3
    ensures |Ids(CardsUpTo(POOLS, n))| == 4 * n
    ensures forall k | 0 <= k < 4 * n :: Ids(CardsUpTo(POOLS, n))[k] == Letter(k)
  {
    hide Cards, SPEC, Letter;
    if n > 0 {
      IdsUpTo(n - 1);
      ExampleCards(n - 1);
      var front, more := CardsUpTo(POOLS, n - 1), Cards(POOLS[n - 1]);
      assert POOLS[n - 1] == ExamplePool(n - 1);
      assert CardsUpTo(POOLS, n) == front + more;
      assert |front| == 4 * (n - 1);
      forall k | 0 <= k < 4 * n
        ensures CardId((front + more)[k]) == Letter(k)
      {
        if k < |front| {
          assert Ids(front)[k] == CardId(front[k]);
        }
      }
    }
  }

  lemma ExampleSlate(slot: nat)
    requires slot < 3
    ensures HasSlate(ExamplePool(slot)) && HasViable(ExamplePool(slot))
  {
    hide Cards;
    ExampleCards(slot);
    var cards := Cards(ExamplePool(slot));
    assert cards[0] in cards && cards[1] in cards && cards[0].id != cards[1].id;
  }

  lemma ExampleIsBound(slot: nat)
    requires slot < 3
    ensures |POOLS| == 3 && POOLS[slot] == ExamplePool(slot) && POOLS[slot].slotId == Letter(slot) && Bound(POOLS, slot)
  {
    hide Letter, ExampleAttempt;
  }

  lemma ExampleIdsDiffer()
    ensures Distinct(Ids(CardsUpTo(POOLS, 3)))
  {
    hide Ids, CardsUpTo, POOLS, ExamplePool, Letter, Distinct;
    ExampleIsBound(0);
    IdsUpTo(3);
    LettersDiffer(Ids(CardsUpTo(POOLS, 3)), 0);
  }

  lemma ExampleBarrier()
    ensures BarrierUpTo(POOLS, 3)
  {
    hide HasViable, Bound, Ids, CardsUpTo, Distinct, ExamplePool, POOLS;
    ExampleIdsDiffer();
    ExampleIsBound(0);
    forall i: nat | i < 3
      ensures Bound(POOLS, i) && HasViable(POOLS[i])
    {
      ExampleIsBound(i);
      ExampleSlate(i);
    }
    forall i: nat, j: nat | i < j < 3
      ensures POOLS[i].slotId != POOLS[j].slotId
    {
      ExampleIsBound(i);
      ExampleIsBound(j);
      assert Letter(i)[0] != Letter(j)[0];
    }
  }

  lemma ExampleIsRanked()
    ensures Ranked(POOLS) == POOLS
  {
    hide CanonicalPool, ExamplePool, Sort;
    ExampleSlots();
    PoolIsCanonical(0);
    PoolIsCanonical(1);
    PoolIsCanonical(2);
    assert Map(POOLS, CanonicalPool) == POOLS;
    SortOfOrdered(POOLS, PoolBefore);
  }

  lemma ExampleSlots()
    ensures POOLS[0].slotIndex == 0 && POOLS[1].slotIndex == 1 && POOLS[2].slotIndex == 2
  {
  }

  /** The batches that are accepted are not an empty class. */
  lemma ExampleIsAccepted()
    ensures Accepted(POOLS)
  {
    hide CanonicalPool, ExamplePool, ValidPool, Ranked, BarrierUpTo, HasSlate;
    ExampleIsRanked();
    ExampleBarrier();
    forall i: nat | i < 3
      ensures POOLS[i] == ExamplePool(i) && ValidPool(CanonicalPool(POOLS[i])) && HasSlate(POOLS[i])
    {
      PoolIsCanonical(i);
      PoolIsValid(i);
      ExampleSlate(i);
    }
  }
}
