/** Sequence vocabulary shared by the text-processing models: the parts of Go's
    `strings` package that are the same for characters and for bytes. */
module Text {

  /** p stands in s at position i. */
  predicate OccursAt<T(==)>(s: seq<T>, p: seq<T>, i: int) {
    0 <= i <= |s| - |p| && s[i..i + |p|] == p
  }

  /** strings.Contains */
  predicate Contains<T(==)>(s: seq<T>, p: seq<T>) {
    exists i | 0 <= i <= |s| :: OccursAt(s, p, i)
  }

  lemma Associates<T>(a: seq<T>, b: seq<T>, c: seq<T>)
    ensures a + (b + c) == (a + b) + c
  {
  }

  /** A part of a part is a part. */
  lemma ContainsWithin<T>(left: seq<T>, mid: seq<T>, right: seq<T>, p: seq<T>)
    requires Contains(mid, p)
    ensures Contains(left + mid + right, p)
  {
    var i :| 0 <= i <= |mid| && OccursAt(mid, p, i);
    var whole := left + mid + right;
    assert whole[|left| + i..|left| + i + |p|] == mid[i..i + |p|];
    assert OccursAt(whole, p, |left| + i);
  }

  lemma SliceOfSlice<T>(s: seq<T>, i: nat, j: nat, a: nat, b: nat)
    requires i <= j <= |s| && a <= b <= j - i
    ensures s[i..j][a..b] == s[i + a..i + b]
  {
    var mid, x, y := s[i..j], s[i..j][a..b], s[i + a..i + b];
    assert |x| == |y| == b - a;
    forall k | 0 <= k < b - a
      ensures x[k] == y[k]
    {
      assert x[k] == mid[a + k] == s[i + (a + k)];
      assert y[k] == s[(i + a) + k];
    }
  }

  /** A contiguous part of s is contained in s. */
  lemma SliceIsContained<T>(s: seq<T>, i: nat, j: nat)
    requires i <= j <= |s|
    ensures Contains(s, s[i..j])
  {
    assert OccursAt(s, s[i..j], i);
  }

  /** strings.Index: the first position of p in s, or -1. */
  function IndexOf<T(==)>(s: seq<T>, p: seq<T>): (i: int)
    ensures -1 <= i <= |s|
    ensures i >= 0 ==> OccursAt(s, p, i)
    ensures forall j | 0 <= j < (if i >= 0 then i else |s| + 1) :: !OccursAt(s, p, j)
  {
    if |s| < |p| then -1
    else if s[..|p|] == p then 0
    else
      var i := IndexOf(s[1..], p);
      OccursInTail(s, p);
      if i < 0 then -1 else i + 1
  }

  lemma OccursInTail<T>(s: seq<T>, p: seq<T>)
    requires s != []
    ensures forall j | 1 <= j <= |s| :: OccursAt(s, p, j) == OccursAt(s[1..], p, j - 1)
  {
    forall j | 1 <= j <= |s|
      ensures OccursAt(s, p, j) == OccursAt(s[1..], p, j - 1)
    {
      if j + |p| <= |s| {
        assert s[1..][j - 1..j - 1 + |p|] == s[j..j + |p|];
      }
    }
  }

  // ---- numbers ----

  function Digit(d: nat): char
    requires d < 10
  {
    '0' + d as char
  }

  /** %d */
  function Decimal(n: nat): (text: string)
    ensures text != "" && forall i :: 0 <= i < |text| ==> '0' <= text[i] <= '9'
  {
    if n < 10 then [Digit(n)] else Decimal(n / 10) + [Digit(n % 10)]
  }
}
