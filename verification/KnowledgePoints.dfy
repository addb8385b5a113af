/** Knowledge-point combinations
    (backend/internal/domain/knowledge_point_combination.go). */
module KnowledgePoints {
  import opened Wrappers
  import opened Chars
  import opened Ordering

  const SCHEMA := "algoforge.knowledge-point-combination.v1"
  const SINGLE := "single"
  const SET := "set"
  const SEQUENCE := "sequence"
  const MIXED := "mixed"

  datatype Contract = Contract(schemaVersion: string, mode: string, maxConcepts: int)

  /** strings.ToLower(strings.TrimSpace(value)) */
  function Slug(value: string): string { Lower(Trim(value)) }

  predicate IsMode(mode: string) { mode == SINGLE || mode == SET || mode == SEQUENCE || mode == MIXED }

  predicate NonEmpty(xs: seq<string>) { forall i | 0 <= i < |xs| :: xs[i] != "" }

  /** The first slug stays, the others are sorted. */
  function SortTail(xs: seq<string>): seq<string> {
    if xs == [] then [] else [xs[0]] + Sort(xs[1..], Less)
  }

  function Arranged(mode: string, slugs: seq<string>): seq<string> {
    if mode == SET then Sort(slugs, Less) else if mode == MIXED then SortTail(slugs) else slugs
  }

  /** CanonicalKnowledgePointSlugs */
  function CanonicalSlugs(mode: string, values: seq<string>): Option<seq<string>> {
    var slugs := Map(values, Slug);
    if IsMode(Slug(mode)) && NonEmpty(slugs) && Distinct(slugs) then Some(Arranged(Slug(mode), slugs)) else None
  }

  method CanonicalKnowledgePointSlugs(mode: string, values: seq<string>) returns (r: Option<seq<string>>)
    ensures r == CanonicalSlugs(mode, values)
  {
    hide Slug, Sort, Less;
    var m := Slug(mode);
    if !IsMode(m) {
      return None;
    }
    var result: seq<string> := [];
    var seen: set<string> := {};
    for i := 0 to |values|
      invariant result == Map(values, Slug)[..i]
      invariant forall x :: x in seen <==> x in result
      invariant NonEmpty(result) && Distinct(result)
    {
      var value := Slug(values[i]);
      assert Map(values, Slug)[i] == value;
      if value == "" {
        return None;
      }
      if value in seen {
        var k :| 0 <= k < |result| && result[k] == value;
        assert Map(values, Slug)[k] == value;
        return None;
      }
      seen := seen + {value};
      result := result + [value];
    }
    assert result == Map(values, Slug);
    r := Some(Arranged(m, result));
  }

  /** Validate of a contract that is present. */
  predicate ValidContract(c: Contract, required: seq<string>) {
    var canonical := CanonicalSlugs(c.mode, required);
    && c.schemaVersion == SCHEMA
    && canonical == Some(required) && required != []
    && (c.mode == SINGLE ==> |required| == 1)
    && (c.mode == MIXED ==> |required| >= 2)
    && c.maxConcepts >= |required|
  }

  /** Conform; no contract returns what was observed. */
  function Conform(c: Option<Contract>, required: seq<string>, observed: seq<string>): Option<seq<string>> {
    if c.None? then Some(observed)
    else if !ValidContract(c.value, required) then None
    else
      var canonical := CanonicalSlugs(c.value.mode, observed);
      if canonical == Some(required) then canonical else None
  }

  // ---- slugs ----

  lemma SlugTwice(s: string)
    ensures Trim(Slug(s)) == Slug(s) && Slug(Slug(s)) == Slug(s)
  {
    assert forall c :: IsSpace(LowerChar(c)) == IsSpace(c);
    assert forall c :: LowerChar(LowerChar(c)) == LowerChar(c);
    hide Trim, IsSpace, LowerChar;
    TrimShape(s);
    TrimIsId(Slug(s));
  }

  lemma SlugsTwice(values: seq<string>)
    ensures Map(Map(values, Slug), Slug) == Map(values, Slug) && Map(Map(values, Slug), Trim) == Map(values, Slug)
  {
    forall i | 0 <= i < |values|
      ensures Slug(Slug(values[i])) == Slug(values[i]) && Trim(Slug(values[i])) == Slug(values[i])
    {
      SlugTwice(values[i]);
    }
  }

  lemma MapOfPermuted(xs: seq<string>, ys: seq<string>, f: string -> string)
    requires Map(xs, f) == xs && multiset(xs) == multiset(ys)
    ensures Map(ys, f) == ys
  {
    SameLength(xs, ys);
    forall i | 0 <= i < |ys|
      ensures f(ys[i]) == ys[i]
    {
      var j := SamePlace(ys, xs, i);
      assert f(xs[j]) == xs[j];
    }
  }

  // ---- what conforming means ----

  /** A primary slug and auxiliary slugs in any order. */
  ghost predicate SamePrimary(slugs: seq<string>, required: seq<string>) {
    |slugs| == |required|
    && (slugs != [] ==> slugs[0] == required[0] && multiset(slugs[1..]) == multiset(required[1..]))
  }

  lemma PrimaryPermutes(slugs: seq<string>, required: seq<string>)
    requires SamePrimary(slugs, required)
    ensures multiset(slugs) == multiset(required)
  {
    if slugs != [] {
      assert required == [required[0]] + required[1..];
      assert slugs == [slugs[0]] + slugs[1..];
    }
  }

  lemma HeadAndTail(slugs: seq<string>, required: seq<string>)
    requires slugs != [] && required != []
    ensures SortTail(slugs) == required <==> slugs[0] == required[0] && Sort(slugs[1..], Less) == required[1..]
  {
    hide Sort, Less;
    var sorted := SortTail(slugs);
    assert sorted[0] == slugs[0] && sorted[1..] == Sort(slugs[1..], Less);
    assert required == [required[0]] + required[1..] && sorted == [sorted[0]] + sorted[1..];
  }

  lemma MixedMeansSamePrimary(slugs: seq<string>, required: seq<string>)
    requires required != [] && Sort(required[1..], Less) == required[1..]
    ensures SortTail(slugs) == required <==> SamePrimary(slugs, required)
  {
    hide Sort, Less;
    if slugs != [] {
      hide SortTail;
      HeadAndTail(slugs, required);
      SortMeansPermutation(slugs[1..], required[1..]);
      if slugs[0] == required[0] && multiset(slugs[1..]) == multiset(required[1..]) {
        SameLength(slugs[1..], required[1..]);
      }
    }
  }

  lemma ArrangedMeansMatch(m: string, slugs: seq<string>, required: seq<string>)
    requires required != [] && NonEmpty(required) && Distinct(required)
    requires m == SET ==> Sort(required, Less) == required
    requires m == MIXED ==> Sort(required[1..], Less) == required[1..]
    ensures NonEmpty(slugs) && Distinct(slugs) && Arranged(m, slugs) == required <==>
            if m == SET then multiset(slugs) == multiset(required)
            else if m == MIXED then SamePrimary(slugs, required)
            else slugs == required
  {
    hide Sort, Less, SortTail, NonEmpty, Distinct, SamePrimary;
    if m == SET {
      SortMeansPermutation(slugs, required);
    } else if m == MIXED {
      MixedMeansSamePrimary(slugs, required);
      if SamePrimary(slugs, required) {
        PrimaryPermutes(slugs, required);
      }
    }
    if multiset(slugs) == multiset(required) {
      SameMembers(slugs, required);
    }
  }

  /** Observed slugs conform to a valid request exactly when, up to case and surrounding
      space, they are the requested ones: in any order for a set, with the primary slug first
      and the others in any order for a mixed combination, in the same order otherwise. */
  lemma ConformMeansMatch(c: Contract, required: seq<string>, observed: seq<string>)
    requires ValidContract(c, required)
    ensures var slugs := Map(observed, Slug);
            Conform(Some(c), required, observed) == Some(required) <==>
            if Slug(c.mode) == SET then multiset(slugs) == multiset(required)
            else if Slug(c.mode) == MIXED then SamePrimary(slugs, required)
            else slugs == required
    ensures Conform(Some(c), required, observed) in {None, Some(required)}
  {
    hide Sort, Less, Slug, Arranged, NonEmpty, Distinct, SamePrimary, Map;
    RequiredIsArranged(c, required);
    ArrangedMeansMatch(Slug(c.mode), Map(observed, Slug), required);
  }

  /** The requested slugs are distinct, non-empty and arranged already. */
  lemma RequiredIsArranged(c: Contract, required: seq<string>)
    requires ValidContract(c, required)
    ensures var m := Slug(c.mode);
            && IsMode(m) && NonEmpty(required) && Distinct(required)
            && (m == SET ==> Sort(required, Less) == required)
            && (m == MIXED ==> Sort(required[1..], Less) == required[1..])
  {
    hide Sort, Less, Slug;
    var m, slugs := Slug(c.mode), Map(required, Slug);
    LessIsAsymmetric();
    if m == SET {
      SortSorts(slugs, Less);
      SameMembers(slugs, required);
      SortOfOrdered(required, Less);
    } else if m == MIXED {
      SortSorts(slugs[1..], Less);
      assert required == [slugs[0]] + Sort(slugs[1..], Less);
      assert required[1..] == Sort(slugs[1..], Less);
      SortOfOrdered(required[1..], Less);
      assert slugs == [slugs[0]] + slugs[1..];
      assert multiset(slugs) == multiset(required);
      SameMembers(slugs, required);
    }
  }

  /** Exactly these contracts are valid: the requested slugs are in lower case without
      surrounding space, distinct and not empty, they stand in the order of the mode, and
      their number fits. */
  lemma ContractExactly(c: Contract, required: seq<string>)
    ensures ValidContract(c, required) <==>
            && c.schemaVersion == SCHEMA && Slug(c.mode) in {"single", "set", "sequence", "mixed"}
            && (forall i | 0 <= i < |required| :: required[i] != "" && Lower(Trim(required[i])) == required[i])
            && (forall i, j | 0 <= i < j < |required| :: required[i] != required[j])
            && (Slug(c.mode) == "set" ==> Ordered(required, Less))
            && (Slug(c.mode) == "mixed" && required != [] ==> Ordered(required[1..], Less))
            && 1 <= |required| <= c.maxConcepts
            && (c.mode == "single" ==> |required| == 1) && (c.mode == "mixed" ==> |required| >= 2)
  {
    hide Less, Sort, Lower, Trim;
    var m := Slug(c.mode);
    if ValidContract(c, required) {
      ContractSlugs(c, required);
    } else if forall i | 0 <= i < |required| :: Slug(required[i]) == required[i] {
      assert Map(required, Slug) == required;
      if m == SET && Ordered(required, Less) {
        SortOfOrdered(required, Less);
      } else if m == MIXED && required != [] && Ordered(required[1..], Less) {
        SortOfOrdered(required[1..], Less);
        assert required == [required[0]] + required[1..];
      }
    }
  }

  lemma ContractSlugs(c: Contract, required: seq<string>)
    requires ValidContract(c, required)
    ensures Map(required, Slug) == required
    ensures Slug(c.mode) == SET ==> Ordered(required, Less)
    ensures Slug(c.mode) == MIXED ==> Ordered(required[1..], Less)
  {
    hide Less, Sort, Slug, NonEmpty, Distinct;
    var m, slugs := Slug(c.mode), Map(required, Slug);
    LessIsAsymmetric();
    SlugsTwice(required);
    if m == SET {
      SortSorts(slugs, Less);
    } else if m == MIXED {
      assert slugs != [];
      SortSorts(slugs[1..], Less);
      assert slugs == [slugs[0]] + slugs[1..] && required == [slugs[0]] + Sort(slugs[1..], Less);
      assert required[1..] == Sort(slugs[1..], Less);
    }
    MapOfPermuted(slugs, required, Slug);
  }

  /** Distinctness and non-emptiness depend on the members only. */
  lemma SameMembers(xs: seq<string>, ys: seq<string>)
    requires multiset(xs) == multiset(ys)
    ensures |xs| == |ys|
    ensures Distinct(xs) <==> Distinct(ys)
    ensures NonEmpty(xs) <==> NonEmpty(ys)
  {
    SameLength(xs, ys);
    DistinctByCount(xs);
    DistinctByCount(ys);
    forall i | 0 <= i < |xs|
      ensures xs[i] in ys
    {
      var j := SamePlace(xs, ys, i);
    }
    forall i | 0 <= i < |ys|
      ensures ys[i] in xs
    {
      var j := SamePlace(ys, xs, i);
    }
  }

  lemma {:induction false} DistinctByCount(xs: seq<string>)
    ensures Distinct(xs) <==> forall x :: multiset(xs)[x] <= 1
  {
    if xs != [] {
      var shorter, x := xs[..|xs| - 1], xs[|xs| - 1];
      DistinctByCount(shorter);
      assert xs == shorter + [x];
      assert multiset(xs) == multiset(shorter) + multiset{x};
      assert x in shorter <==> multiset(shorter)[x] > 0;
      DistinctGrows(shorter, x);
      forall y
        ensures multiset(xs)[y] == multiset(shorter)[y] + (if y == x then 1 else 0)
      {
      }
      assert multiset(xs)[x] == multiset(shorter)[x] + 1;
    }
  }
}
