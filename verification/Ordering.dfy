/** Go's string order, sorting, and the canonical text forms of
    backend/internal/diversity/contract.go. */
module Ordering {
  import opened Chars

  // ------------------------------------------------------------- string order

  /** a < b in Go. Comparing characters is comparing UTF-8 bytes: UTF-8 keeps the order. */
  predicate Less(a: string, b: string) {
    b != "" && (a == "" || a[0] < b[0] || (a[0] == b[0] && Less(a[1..], b[1..])))
  }

  lemma {:induction false} LessIsStrict(a: string, b: string)
    ensures !(Less(a, b) && Less(b, a))
    ensures Less(a, b) || Less(b, a) || a == b
    ensures !Less(a, a)
  {
    if a != "" {
      LessIsStrict(a[1..], if b == "" then "" else b[1..]);
      if b != "" && a[0] == b[0] && a[1..] == b[1..] {
        assert a == [a[0]] + a[1..] && b == [b[0]] + b[1..];
      }
    }
  }

  lemma {:induction false} LessIsTransitive(a: string, b: string, c: string)
    requires Less(a, b) && Less(b, c)
    ensures Less(a, c)
  {
    if a != "" && a[0] == b[0] && b[0] == c[0] {
      LessIsTransitive(a[1..], b[1..], c[1..]);
    }
  }

  /** a comes first at position k: the same before, then a ends or has the smaller character. */
  predicate FirstDiffers(a: string, b: string, k: nat) {
    && k <= |a| && k < |b| && a[..k] == b[..k]
    && (k == |a| || a[k] < b[k])
  }

  /** The order is the lexicographic one. */
  lemma {:induction false} LessIsLexicographic(a: string, b: string)
    ensures Less(a, b) <==> exists k: nat :: FirstDiffers(a, b, k)
  {
    if b == "" || a == "" || a[0] != b[0] {
      FirstAtFront(a, b);
    } else {
      LessIsLexicographic(a[1..], b[1..]);
      if Less(a[1..], b[1..]) {
        var k: nat :| FirstDiffers(a[1..], b[1..], k);
        assert a == [a[0]] + a[1..] && b == [b[0]] + b[1..];
        assert a[..k + 1] == [a[0]] + a[1..][..k] && b[..k + 1] == [b[0]] + b[1..][..k];
        assert FirstDiffers(a, b, k + 1);
      }
      if exists k: nat :: FirstDiffers(a, b, k) {
        var k: nat :| FirstDiffers(a, b, k);
        assert a[1..][..k - 1] == a[..k][1..] && b[1..][..k - 1] == b[..k][1..];
        assert FirstDiffers(a[1..], b[1..], k - 1);
      }
    }
  }

  lemma FirstAtFront(a: string, b: string)
    requires b == "" || a == "" || a[0] != b[0]
    ensures Less(a, b) <==> exists k: nat :: FirstDiffers(a, b, k)
  {
    if exists k: nat :: FirstDiffers(a, b, k) {
      var k: nat :| FirstDiffers(a, b, k);
      if k > 0 {
        assert a[..k][0] == b[..k][0];
      }
    }
    if Less(a, b) {
      assert FirstDiffers(a, b, 0);
    }
  }

  // ------------------------------------------------------------------ sorting

  function Insert<T>(x: T, ys: seq<T>, less: (T, T) -> bool): seq<T> {
    if ys == [] || !less(ys[0], x) then [x] + ys else [ys[0]] + Insert(x, ys[1..], less)
  }

  /** A stable sort. sort.Slice promises no more than some sorted order; where it is used
      the keys are afterwards required to be distinct, and then there is one sorted order
      only: SortedOrderIsUnique. */
  function Sort<T>(xs: seq<T>, less: (T, T) -> bool): seq<T> {
    if xs == [] then [] else Insert(xs[0], Sort(xs[1..], less), less)
  }

  ghost predicate Ordered<T>(xs: seq<T>, less: (T, T) -> bool) {
    forall i | 0 <= i < |xs| - 1 :: !less(xs[i + 1], xs[i])
  }

  ghost predicate Asymmetric<T(!new)>(less: (T, T) -> bool) {
    forall a, b :: less(a, b) ==> !less(b, a)
  }

  lemma {:induction false} InsertKeeps<T>(x: T, ys: seq<T>, less: (T, T) -> bool)
    ensures multiset(Insert(x, ys, less)) == multiset([x]) + multiset(ys)
    ensures Insert(x, ys, less)[0] == if ys == [] || !less(ys[0], x) then x else ys[0]
  {
    if ys == [] || !less(ys[0], x) {
    } else {
      InsertKeeps(x, ys[1..], less);
      assert ys == [ys[0]] + ys[1..];
    }
  }

  lemma {:induction false} InsertOrdered<T(!new)>(x: T, ys: seq<T>, less: (T, T) -> bool)
    requires Ordered(ys, less) && Asymmetric(less)
    ensures Ordered(Insert(x, ys, less), less)
  {
    if ys == [] || !less(ys[0], x) {
    } else {
      assert Ordered(ys[1..], less);
      InsertOrdered(x, ys[1..], less);
      InsertKeeps(x, ys[1..], less);
      var rest := Insert(x, ys[1..], less);
      var whole := [ys[0]] + rest;
      forall i | 0 <= i < |whole| - 1
        ensures !less(whole[i + 1], whole[i])
      {
        if i == 0 {
          assert |ys| > 1 ==> !less(ys[0 + 1], ys[0]);
        } else {
          assert !less(rest[i - 1 + 1], rest[i - 1]);
        }
      }
    }
  }

  lemma {:induction false} SortSorts<T(!new)>(xs: seq<T>, less: (T, T) -> bool)
    requires Asymmetric(less)
    ensures multiset(Sort(xs, less)) == multiset(xs) && |Sort(xs, less)| == |xs|
    ensures Ordered(Sort(xs, less), less)
  {
    if xs != [] {
      SortSorts(xs[1..], less);
      InsertKeeps(xs[0], Sort(xs[1..], less), less);
      InsertOrdered(xs[0], Sort(xs[1..], less), less);
      assert xs == [xs[0]] + xs[1..];
      assert |Sort(xs, less)| == |multiset(Sort(xs, less))|;
    }
  }

  lemma {:induction false} SortOfOrdered<T>(xs: seq<T>, less: (T, T) -> bool)
    requires Ordered(xs, less)
    ensures Sort(xs, less) == xs
  {
    if xs != [] {
      assert forall i | 0 <= i < |xs[1..]| - 1 :: !less(xs[1..][i + 1], xs[1..][i]) by {
        forall i | 0 <= i < |xs[1..]| - 1
          ensures !less(xs[1..][i + 1], xs[1..][i])
        {
          assert !less(xs[(i + 1) + 1], xs[i + 1]);
        }
      }
      SortOfOrdered(xs[1..], less);
      assert |xs| > 1 ==> !less(xs[0 + 1], xs[0]);
      assert xs == [xs[0]] + xs[1..];
    }
  }

  ghost predicate Ascending<T>(xs: seq<T>, key: T -> int) {
    forall i, j | 0 <= i < j < |xs| :: key(xs[i]) < key(xs[j])
  }

  /** Two arrangements of the same elements, one strictly ascending by key and one sorted by
      key, are the same. */
  lemma {:induction false} SortedOrderIsUnique<T>(xs: seq<T>, ys: seq<T>, key: T -> int)
    requires multiset(xs) == multiset(ys) && Ascending(xs, key)
    requires Ordered(ys, (a, b) => key(a) < key(b))
    ensures xs == ys
  {
    SameLength(xs, ys);
    if xs != [] {
      SameFirst(xs, ys, key);
      SameRest(xs, ys);
      TailOrdered(ys, (a, b) => key(a) < key(b));
      SortedOrderIsUnique(xs[1..], ys[1..], key);
      assert xs == [xs[0]] + xs[1..] && ys == [ys[0]] + ys[1..];
    }
  }

  lemma SameRest<T>(xs: seq<T>, ys: seq<T>)
    requires multiset(xs) == multiset(ys) && xs != [] && ys != [] && xs[0] == ys[0]
    ensures multiset(xs[1..]) == multiset(ys[1..])
  {
    assert xs == [xs[0]] + xs[1..] && ys == [ys[0]] + ys[1..];
    assert multiset(xs[1..]) == multiset(xs) - multiset{xs[0]};
    assert multiset(ys[1..]) == multiset(ys) - multiset{ys[0]};
  }

  lemma SameFirst<T>(xs: seq<T>, ys: seq<T>, key: T -> int)
    requires multiset(xs) == multiset(ys) && Ascending(xs, key) && xs != [] && ys != []
    requires Ordered(ys, (a, b) => key(a) < key(b))
    ensures xs[0] == ys[0]
  {
    FirstIsLeast(ys, key);
    var i := SamePlace(ys, xs, 0);
    var j := SamePlace(xs, ys, 0);
  }

  lemma TailOrdered<T>(ys: seq<T>, less: (T, T) -> bool)
    requires ys != [] && Ordered(ys, less)
    ensures Ordered(ys[1..], less)
  {
    forall i | 0 <= i < |ys[1..]| - 1
      ensures !less(ys[1..][i + 1], ys[1..][i])
    {
      assert !less(ys[(i + 1) + 1], ys[i + 1]);
    }
  }

  lemma {:induction false} FirstIsLeast<T>(ys: seq<T>, key: T -> int)
    requires ys != [] && Ordered(ys, (a, b) => key(a) < key(b))
    ensures forall i | 0 <= i < |ys| :: key(ys[0]) <= key(ys[i])
  {
    if |ys| > 1 {
      TailOrdered(ys, (a, b) => key(a) < key(b));
      FirstIsLeast(ys[1..], key);
      assert key(ys[0]) <= key(ys[0 + 1]);
      forall i | 0 <= i < |ys|
        ensures key(ys[0]) <= key(ys[i])
      {
        if i > 0 {
          assert ys[1..][i - 1] == ys[i];
        }
      }
    }
  }

  // ---- elements seen through a function ----

  function Map<T, U>(xs: seq<T>, f: T -> U): (r: seq<U>)
    ensures |r| == |xs| && forall i | 0 <= i < |xs| :: r[i] == f(xs[i])
  {
    if xs == [] then [] else [f(xs[0])] + Map(xs[1..], f)
  }

  function Without<T>(xs: seq<T>, j: nat): (r: seq<T>)
    requires j < |xs|
    ensures |r| == |xs| - 1 && forall x | x in r :: x in xs
  {
    xs[..j] + xs[j + 1..]
  }

  lemma MapWithout<T, U>(xs: seq<T>, f: T -> U, j: nat)
    requires j < |xs|
    ensures multiset(Map(xs, f)) == multiset{f(xs[j])} + multiset(Map(Without(xs, j), f))
    ensures multiset(Map(Without(xs, j), f)) == multiset(Map(xs, f)) - multiset{f(xs[j])}
  {
    hide Map, Without;
    WithoutIsMapped(xs, f, j);
    WithoutOne(Map(xs, f), j);
  }

  lemma WithoutAt<T>(xs: seq<T>, j: nat, i: nat)
    requires j < |xs| && i < |xs| - 1
    ensures Without(xs, j)[i] == xs[if i < j then i else i + 1]
  {
  }

  lemma WithoutIsMapped<T, U>(xs: seq<T>, f: T -> U, j: nat)
    requires j < |xs|
    ensures Map(Without(xs, j), f) == Without(Map(xs, f), j)
  {
    hide Map, Without;
    var x, y := Map(Without(xs, j), f), Without(Map(xs, f), j);
    forall i: nat | i < |x|
      ensures x[i] == y[i]
    {
      WithoutAt(xs, j, i);
      WithoutAt(Map(xs, f), j, i);
    }
    assert |x| == |y|;
  }

  lemma WithoutOne<T>(xs: seq<T>, j: nat)
    requires j < |xs|
    ensures multiset(xs) == multiset{xs[j]} + multiset(Without(xs, j))
    ensures multiset(Without(xs, j)) == multiset(xs) - multiset{xs[j]}
  {
    assert xs == xs[..j] + ([xs[j]] + xs[j + 1..]);
    assert multiset(xs) == multiset(xs[..j]) + (multiset{xs[j]} + multiset(xs[j + 1..]));
    assert multiset(Without(xs, j)) == multiset(xs[..j]) + multiset(xs[j + 1..]);
  }

  /** Sequences that hold the same elements as far as view tells hold the same images, when
      the view determines the image. */
  lemma {:induction false} SameImages<T, V, U>(xs: seq<T>, ys: seq<T>, view: T -> V, image: T -> U)
    requires multiset(Map(xs, view)) == multiset(Map(ys, view))
    requires forall x, y | x in xs && y in ys && view(x) == view(y) :: image(x) == image(y)
    ensures multiset(Map(xs, image)) == multiset(Map(ys, image))
  {
    SameLength(Map(xs, view), Map(ys, view));
    if xs != [] {
      var j := SamePlace(Map(xs, view), Map(ys, view), 0);
      hide Map, Without;
      assert view(xs[0]) == view(ys[j]) && xs[0] in xs && ys[j] in ys;
      MapWithout(ys, view, j);
      MapWithout(ys, image, j);
      MapWithout(xs, view, 0);
      MapWithout(xs, image, 0);
      SameImages(Without(xs, 0), Without(ys, j), view, image);
    }
  }

  lemma SameLength<T>(xs: seq<T>, ys: seq<T>)
    requires multiset(xs) == multiset(ys)
    ensures |xs| == |ys|
  {
    assert |xs| == |multiset(xs)| && |ys| == |multiset(ys)|;
  }

  lemma SamePlace<T>(xs: seq<T>, ys: seq<T>, i: nat) returns (j: nat)
    requires multiset(xs) == multiset(ys) && i < |xs|
    ensures j < |ys| && ys[j] == xs[i]
  {
    assert xs[i] in multiset(xs);
    assert xs[i] in ys;
    j :| 0 <= j < |ys| && ys[j] == xs[i];
  }

  // ---- distinct elements ----

  predicate Distinct<T(==)>(xs: seq<T>) { forall i, j | 0 <= i < j < |xs| :: xs[i] != xs[j] }

  lemma DistinctGrows<T>(xs: seq<T>, x: T)
    ensures Distinct(xs + [x]) <==> Distinct(xs) && x !in xs
  {
    if Distinct(xs + [x]) {
      forall i, j | 0 <= i < j < |xs|
        ensures xs[i] != xs[j]
      {
        assert (xs + [x])[i] != (xs + [x])[j];
      }
      forall i | 0 <= i < |xs|
        ensures xs[i] != x
      {
        assert (xs + [x])[i] != (xs + [x])[|xs|];
      }
    }
  }

  lemma DistinctPart<T>(xs: seq<T>, ys: seq<T>)
    requires Distinct(xs + ys)
    ensures Distinct(xs)
  {
    forall i, j | 0 <= i < j < |xs|
      ensures xs[i] != xs[j]
    {
      assert (xs + ys)[i] != (xs + ys)[j];
    }
  }

  lemma DistinctJoin<T>(xs: seq<T>, ys: seq<T>)
    requires Distinct(xs)
    ensures Distinct(xs + ys) <==> Distinct(ys) && forall y | y in ys :: y !in xs
  {
    var all := xs + ys;
    if Distinct(all) {
      forall i, j | 0 <= i < j < |ys|
        ensures ys[i] != ys[j]
      {
        assert all[|xs| + i] != all[|xs| + j];
      }
      forall j | 0 <= j < |ys|
        ensures ys[j] !in xs
      {
        forall i | 0 <= i < |xs|
          ensures xs[i] != ys[j]
        {
          assert all[i] != all[|xs| + j];
        }
      }
    }
    if Distinct(ys) && forall y | y in ys :: y !in xs {
      forall i, j | 0 <= i < j < |all|
        ensures all[i] != all[j]
      {
        if i < |xs| <= j {
          assert ys[j - |xs|] in ys && xs[i] in xs;
        }
      }
    }
  }

  // ------------------------------------------------------------ sorted strings

  lemma LessIsAsymmetric()
    ensures Asymmetric(Less)
  {
    forall a, b: string
      ensures Less(a, b) ==> !Less(b, a)
    {
      LessIsStrict(a, b);
    }
  }

  lemma {:induction false} FirstIsSmallest(xs: seq<string>)
    requires xs != [] && Ordered(xs, Less)
    ensures forall i | 0 <= i < |xs| :: !Less(xs[i], xs[0])
  {
    LessIsStrict(xs[0], xs[0]);
    if |xs| > 1 {
      TailOrdered(xs, Less);
      FirstIsSmallest(xs[1..]);
      assert !Less(xs[0 + 1], xs[0]);
      forall i | 0 <= i < |xs|
        ensures !Less(xs[i], xs[0])
      {
        if i > 0 && Less(xs[i], xs[0]) {
          assert xs[1..][i - 1] == xs[i];
          NotLessChain(xs[i], xs[1], xs[0]);
        }
      }
    }
  }

  lemma NotLessChain(a: string, b: string, c: string)
    requires !Less(a, b) && !Less(b, c)
    ensures !Less(a, c)
  {
    LessIsStrict(a, b);
    LessIsStrict(b, c);
    if Less(b, a) && Less(c, b) {
      LessIsTransitive(c, b, a);
      LessIsStrict(a, c);
    }
  }

  /** There is one sorted arrangement of given strings. */
  lemma {:induction false} SortedStringsAreUnique(xs: seq<string>, ys: seq<string>)
    requires multiset(xs) == multiset(ys) && Ordered(xs, Less) && Ordered(ys, Less)
    ensures xs == ys
  {
    SameLength(xs, ys);
    if xs != [] {
      hide Less;
      FirstIsSmallest(xs);
      FirstIsSmallest(ys);
      var i := SamePlace(ys, xs, 0);
      var j := SamePlace(xs, ys, 0);
      LessIsStrict(xs[0], ys[0]);
      assert xs == [xs[0]] + xs[1..] && ys == [ys[0]] + ys[1..];
      assert multiset(xs[1..]) == multiset(xs) - multiset{xs[0]};
      assert multiset(ys[1..]) == multiset(ys) - multiset{ys[0]};
      TailOrdered(xs, Less);
      TailOrdered(ys, Less);
      SortedStringsAreUnique(xs[1..], ys[1..]);
    }
  }

  lemma SortMeansPermutation(xs: seq<string>, sorted: seq<string>)
    requires Sort(sorted, Less) == sorted
    ensures Sort(xs, Less) == sorted <==> multiset(xs) == multiset(sorted)
  {
    hide Sort, Less;
    LessIsAsymmetric();
    SortSorts(xs, Less);
    SortSorts(sorted, Less);
    if multiset(xs) == multiset(sorted) {
      SortedStringsAreUnique(Sort(xs, Less), sorted);
    }
  }

  // ----------------------------------------------------------- canonical text

  /** strings.Fields of s, where word is the unfinished word before s. */
  function Words(s: string, word: string): seq<string> {
    if s == "" then (if word == "" then [] else [word])
    else if IsSpace(s[0]) then (if word == "" then [] else [word]) + Words(s[1..], "")
    else Words(s[1..], word + [s[0]])
  }

  /** strings.Join(words, " ") */
  function Spaced(words: seq<string>): string {
    if words == [] then "" else if |words| == 1 then words[0] else words[0] + " " + Spaced(words[1..])
  }

  function CanonicalText(s: string): string { Spaced(Words(Unix(s), "")) }

  function CanonicalLower(s: string): string { Lower(CanonicalText(s)) }

  /** Single blanks, and only between words. */
  ghost predicate Tidy(t: string) {
    forall i | 0 <= i < |t| :: IsSpace(t[i]) ==> t[i] == ' ' && 0 < i < |t| - 1 && !IsSpace(t[i - 1])
  }

  ghost predicate IsWord(w: string) { w != "" && forall i | 0 <= i < |w| :: !IsSpace(w[i]) }

  lemma {:induction false} WordsAreWords(s: string, word: string)
    requires word == "" || IsWord(word)
    ensures forall k | 0 <= k < |Words(s, word)| :: IsWord(Words(s, word)[k])
  {
    if s != "" {
      if IsSpace(s[0]) {
        WordsAreWords(s[1..], "");
      } else {
        WordsAreWords(s[1..], word + [s[0]]);
      }
    }
  }

  lemma {:induction false} SpacedIsTidy(words: seq<string>)
    requires forall k | 0 <= k < |words| :: IsWord(words[k])
    ensures Tidy(Spaced(words))
    ensures words != [] ==> Spaced(words) != "" && !IsSpace(Spaced(words)[0])
  {
    if |words| > 1 {
      var w, rest := words[0], Spaced(words[1..]);
      SpacedIsTidy(words[1..]);
      assert IsWord(words[0]) && IsWord(words[1]) && words[1..] != [];
      hide Spaced;
      TidyJoined(w, rest);
    }
  }

  lemma TidyJoined(w: string, rest: string)
    requires IsWord(w) && Tidy(rest) && rest != "" && !IsSpace(rest[0])
    ensures Tidy(w + " " + rest)
  {
    hide IsSpace;
    var t := w + " " + rest;
    forall i | 0 <= i < |t| && IsSpace(t[i])
      ensures t[i] == ' ' && 0 < i < |t| - 1 && !IsSpace(t[i - 1])
    {
      if i > |w| {
        assert t[i] == rest[i - |w| - 1] && t[i - 1] == (if i == |w| + 1 then ' ' else rest[i - |w| - 2]);
        assert i != |w| + 1;
      }
    }
  }

  /** In tidy text a blank ends a word, and another word follows. */
  lemma TidyBlank(s: string, word: string)
    requires Tidy(word + s) && s != "" && IsSpace(s[0])
    ensures s[0] == ' ' && word != "" && |s| > 1 && Tidy(s[1..])
  {
    hide IsSpace;
    var t, n := word + s, |word|;
    assert t[n] == s[0];
    TidyTail(t, n + 1);
    assert t[n + 1..] == s[1..];
  }

  lemma SpacedCons(word: string, words: seq<string>)
    requires words != []
    ensures Spaced([word] + words) == word + " " + Spaced(words)
  {
    assert ([word] + words)[1..] == words;
  }

  lemma {:induction false} TidyIsKept(s: string, word: string)
    requires word == "" || IsWord(word)
    requires Tidy(word + s)
    ensures Spaced(Words(s, word)) == word + s
  {
    if s == "" {
      assert word + s == word;
    } else if !IsSpace(s[0]) {
      hide IsSpace, Spaced, Tidy;
      assert (word + [s[0]]) + s[1..] == word + s;
      TidyIsKept(s[1..], word + [s[0]]);
    } else {
      hide IsSpace, Spaced, Tidy;
      TidyBlank(s, word);
      assert "" + s[1..] == s[1..];
      TidyIsKept(s[1..], "");
      EmptySpaced();
      SpacedCons(word, Words(s[1..], ""));
      assert word + " " + s[1..] == word + s;
    }
  }

  lemma EmptySpaced()
    ensures Spaced([]) == ""
  {
  }

  lemma TidyTail(t: string, n: nat)
    requires Tidy(t) && 0 < n < |t| && t[n - 1] == ' '
    ensures Tidy(t[n..])
  {
    assert IsSpace(t[n - 1]);
    hide IsSpace;
    forall i | 0 <= i < |t[n..]| && IsSpace(t[n..][i])
      ensures t[n..][i] == ' ' && 0 < i < |t[n..]| - 1 && !IsSpace(t[n..][i - 1])
    {
      assert t[n..][i] == t[n + i];
      assert i > 0 ==> t[n..][i - 1] == t[n + i - 1];
    }
  }

  /** The canonical text is tidy, and tidy text is exactly the text it leaves alone. */
  lemma CanonicalIsTidy(s: string)
    ensures Tidy(CanonicalText(s)) && CanonicalText(CanonicalText(s)) == CanonicalText(s)
    ensures CanonicalText(s) == s <==> Tidy(s)
  {
    WordsAreWords(Unix(s), "");
    SpacedIsTidy(Words(Unix(s), ""));
    TidyIsCanonical(CanonicalText(s));
    if Tidy(s) {
      TidyIsCanonical(s);
    }
  }

  lemma TidyIsCanonical(t: string)
    requires Tidy(t)
    ensures CanonicalText(t) == t
  {
    assert NoCrLf(t) by {
      forall i | 0 <= i < |t| - 1
        ensures !(t[i] == '\r' && t[i + 1] == '\n')
      {
        assert IsSpace(t[i]) ==> t[i] == ' ';
      }
    }
    UnixIsId(t);
    assert "" + t == t;
    TidyIsKept(t, "");
  }

  lemma LowerKeepsTidy(t: string)
    requires Tidy(t)
    ensures Tidy(Lower(t)) && Lower(Lower(t)) == Lower(t)
  {
    assert forall c :: IsSpace(LowerChar(c)) == IsSpace(c);
    assert forall c :: LowerChar(c) == ' ' <==> c == ' ';
    hide IsSpace, LowerChar;
    var l := Lower(t);
    forall i | 0 <= i < |l| && IsSpace(l[i])
      ensures l[i] == ' ' && 0 < i < |l| - 1 && !IsSpace(l[i - 1])
    {
      assert IsSpace(t[i]);
    }
  }

  lemma CanonicalLowerTwice(s: string)
    ensures CanonicalLower(CanonicalLower(s)) == CanonicalLower(s)
  {
    CanonicalIsTidy(s);
    LowerKeepsTidy(CanonicalText(s));
    CanonicalIsTidy(CanonicalLower(s));
  }

  // ---- what canonicalising does ----

  ghost predicate AllSpace(s: string) { forall i | 0 <= i < |s| :: IsSpace(s[i]) }

  lemma {:induction false} NoWords(s: string)
    ensures Words(s, "") == [] <==> AllSpace(s)
  {
    hide IsSpace;
    if s != "" {
      if IsSpace(s[0]) {
        NoWords(s[1..]);
        assert forall i | 1 <= i < |s| :: s[i] == s[1..][i - 1];
      } else {
        assert "" + [s[0]] == [s[0]];
        SomeWord(s[1..], [s[0]]);
      }
    }
  }

  lemma {:induction false} SomeWord(s: string, word: string)
    requires word != ""
    ensures Words(s, word) != []
  {
    hide IsSpace;
    if s != "" {
      if !IsSpace(s[0]) {
        SomeWord(s[1..], word + [s[0]]);
      }
    }
  }

  lemma {:induction false} SkipsSpace(gap: string, rest: string)
    requires AllSpace(gap)
    ensures Words(gap + rest, "") == Words(rest, "")
  {
    hide IsSpace;
    if gap == "" {
      assert gap + rest == rest;
    } else {
      assert (gap + rest)[1..] == gap[1..] + rest;
      SkipsSpace(gap[1..], rest);
      assert [] + Words(gap[1..] + rest, "") == Words(gap[1..] + rest, "");
    }
  }

  lemma {:induction false} TakesWord(front: string, word: string, rest: string)
    requires (forall i | 0 <= i < |word| :: !IsSpace(word[i])) && front + word != ""
    requires rest == "" || IsSpace(rest[0])
    ensures Words(word + rest, front) == [front + word] + Words(rest, "")
    decreases word
  {
    hide IsSpace;
    if word == "" {
      assert word + rest == rest && front + word == front;
      if rest != "" {
        assert [] + Words(rest[1..], "") == Words(rest[1..], "");
      }
    } else {
      assert (word + rest)[1..] == word[1..] + rest;
      assert front + [word[0]] + word[1..] == front + word;
      TakesWord(front + [word[0]], word[1..], rest);
    }
  }

  /** A break is white space either way. */
  lemma {:induction false} UnixKeepsWords(s: string, word: string)
    ensures Words(Unix(s), word) == Words(s, word)
  {
    if s != "" {
      hide IsSpace, Unix;
      UnixFirst(s);
      if StartsCrLf(s) {
        UnixKeepsWords(s[2..], "");
        BreakIsSpace(s, word);
        BreakWords(Unix(s[2..]), word);
      } else {
        var rest := Unix(s[1..]);
        assert ([s[0]] + rest)[1..] == rest;
        UnixKeepsWords(s[1..], if IsSpace(s[0]) then "" else word + [s[0]]);
      }
    } else {
      UnixEmpty();
    }
  }

  lemma BreakWords(rest: string, word: string)
    ensures Words("\n" + rest, word) == (if word == "" then [] else [word]) + Words(rest, "")
  {
    assert ("\n" + rest)[1..] == rest;
  }

  lemma BreakIsSpace(s: string, word: string)
    requires StartsCrLf(s)
    ensures Words(s, word) == (if word == "" then [] else [word]) + Words(s[2..], "")
  {
    assert s[1..][1..] == s[2..];
    assert Words(s[1..], "") == [] + Words(s[2..], "");
  }

  /** Read word by word: the canonical text of white space is empty, and one word behind white
      space stands alone if only white space follows, and otherwise in front of a blank and the
      canonical text of what follows. */
  lemma CanonicalExactly(gap: string, word: string, rest: string)
    requires AllSpace(gap) && IsWord(word) && (rest == "" || IsSpace(rest[0]))
    ensures CanonicalText(gap) == ""
    ensures CanonicalText(gap + word + rest) == if AllSpace(rest) then word else word + " " + CanonicalText(rest)
  {
    hide IsSpace, Unix;
    UnixKeepsWords(gap, "");
    UnixKeepsWords(gap + word + rest, "");
    UnixKeepsWords(rest, "");
    NoWords(gap);
    NoWords(rest);
    assert gap + word + rest == gap + (word + rest);
    SkipsSpace(gap, word + rest);
    TakesWord("", word, rest);
    hide Words;
    assert "" + word == word;
    var words := [word] + Words(rest, "");
    assert words[1..] == Words(rest, "");
  }

  // ---- canonical lists ----

  function CanonicalSet(values: seq<string>): seq<string> { Sort(Map(values, CanonicalText), Less) }

  function CanonicalLowerList(values: seq<string>): seq<string> { Map(values, CanonicalLower) }

  function CanonicalLowerSet(values: seq<string>): seq<string> { Sort(CanonicalLowerList(values), Less) }

  lemma LowerListTwice(values: seq<string>)
    ensures CanonicalLowerList(CanonicalLowerList(values)) == CanonicalLowerList(values)
  {
    forall i | 0 <= i < |values|
      ensures CanonicalLower(CanonicalLower(values[i])) == CanonicalLower(values[i])
    {
      CanonicalLowerTwice(values[i]);
    }
  }

  lemma LowerSetTwice(values: seq<string>)
    ensures CanonicalLowerSet(CanonicalLowerSet(values)) == CanonicalLowerSet(values)
  {
    hide CanonicalLower, Less, Map, Sort;
    var list := CanonicalLowerList(values);
    var sorted := CanonicalLowerSet(values);
    forall a, b: string
      ensures Less(a, b) ==> !Less(b, a)
    {
      LessIsStrict(a, b);
    }
    SortSorts(list, Less);
    forall i | 0 <= i < |sorted|
      ensures CanonicalLower(sorted[i]) == sorted[i]
    {
      assert sorted[i] in multiset(sorted);
      var k :| 0 <= k < |list| && list[k] == sorted[i];
      CanonicalLowerTwice(values[k]);
    }
    assert CanonicalLowerList(sorted) == sorted;
    SortOfOrdered(sorted, Less);
  }
}
