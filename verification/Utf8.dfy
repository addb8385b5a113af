/** Byte strings. In the JSON models a string is Go's string: every char stands for one
    byte, 0 to 255. UTF-8 is that of sections 3 and 4 of RFC 3629, read the way
    unicode/utf8 reads it: a byte that starts no valid sequence is one error byte. */
module Utf8 {

  const RUNE_SELF := '\U{80}'

  /** U+FFFD in UTF-8 */
  const REPLACEMENT := "\U{EF}\U{BF}\U{BD}"

  predicate IsTail(c: char) { '\U{80}' <= c <= '\U{BF}' }

  /** The length of the valid sequence at the front of s; 0 when there is none. */
  function ValidWidth(s: string): (w: nat)
    ensures w <= 4 && w <= |s|
    ensures w == 1 <==> s != "" && s[0] < RUNE_SELF
    ensures w > 1 ==> forall i :: 0 <= i < w ==> s[i] >= RUNE_SELF
  {
    if s == "" then 0
    else if s[0] < RUNE_SELF then 1
    else if |s| >= 2 && '\U{C2}' <= s[0] <= '\U{DF}' && IsTail(s[1]) then 2
    else if |s| >= 3 && IsTail(s[1]) && IsTail(s[2])
            && (|| (s[0] == '\U{E0}' && s[1] >= '\U{A0}')
                || '\U{E1}' <= s[0] <= '\U{EC}' || '\U{EE}' <= s[0] <= '\U{EF}'
                || (s[0] == '\U{ED}' && s[1] <= '\U{9F}')) then 3
    else if |s| >= 4 && IsTail(s[1]) && IsTail(s[2]) && IsTail(s[3])
            && (|| (s[0] == '\U{F0}' && s[1] >= '\U{90}') || '\U{F1}' <= s[0] <= '\U{F3}'
                || (s[0] == '\U{F4}' && s[1] <= '\U{8F}')) then 4
    else 0
  }

  /** utf8.ValidString */
  predicate Valid(s: string) {
    s == "" || (ValidWidth(s) > 0 && Valid(s[ValidWidth(s)..]))
  }

  /** Every error byte replaced by U+FFFD. */
  function Sanitize(s: string): string {
    if s == "" then ""
    else if ValidWidth(s) == 0 then REPLACEMENT + Sanitize(s[1..])
    else s[..ValidWidth(s)] + Sanitize(s[ValidWidth(s)..])
  }

  lemma {:induction false} SanitizeIsId(s: string)
    ensures |Sanitize(s)| >= |s|
    ensures Sanitize(s) == s <==> Valid(s)
  {
    if s != "" {
      var w := ValidWidth(s);
      var k := if w == 0 then 1 else w;
      SanitizeIsId(s[k..]);
      assert s == s[..k] + s[k..];
      if w == 0 {
        assert |Sanitize(s)| > |s|;
      } else {
        assert Sanitize(s)[w..] == Sanitize(s[w..]);
      }
    }
  }

  // ---- the encoding itself, section 3 of RFC 3629 ----

  /** A code point that is no surrogate. */
  predicate Scalar(cp: nat) { cp <= 0x10_FFFF && !(0xD800 <= cp <= 0xDFFF) }

  function Encode(cp: nat): string
    requires Scalar(cp)
  {
    if cp < 0x80 then [cp as char]
    else if cp < 0x800 then [(0xC0 + cp / 0x40) as char, Tail(cp)]
    else if cp < 0x1_0000 then [(0xE0 + cp / 0x1000) as char, Tail(cp / 0x40), Tail(cp)]
    else [(0xF0 + cp / 0x4_0000) as char, Tail(cp / 0x1000), Tail(cp / 0x40), Tail(cp)]
  }

  /** A byte that carries the lowest six bits. */
  function Tail(cp: nat): char { (0x80 + cp % 0x40) as char }

  /** strings.Builder.WriteRune: what is no scalar value is written as U+FFFD. */
  function RuneBytes(cp: nat): string { if Scalar(cp) then Encode(cp) else REPLACEMENT }

  /** The value whose encoding stands at the front of s. */
  function ValueAtFront(s: string): (cp: nat)
    requires ValidWidth(s) > 0
  {
    match ValidWidth(s)
    case 1 => s[0] as nat
    case 2 => (s[0] as nat - 0xC0) * 0x40 + Bits(s[1])
    case 3 => (s[0] as nat - 0xE0) * 0x1000 + Bits(s[1]) * 0x40 + Bits(s[2])
    case _ => (s[0] as nat - 0xF0) * 0x4_0000 + Bits(s[1]) * 0x1000 + Bits(s[2]) * 0x40 + Bits(s[3])
  }

  function Bits(c: char): (n: nat)
    requires IsTail(c)
    ensures n < 0x40
  {
    c as nat - 0x80
  }

  lemma SplitBits(a: nat, b: nat, c: nat, d: nat)
    requires b < 0x40 && c < 0x40 && d < 0x40
    ensures var cp := a * 0x4_0000 + b * 0x1000 + c * 0x40 + d;
            && cp / 0x4_0000 == a && cp / 0x1000 == a * 0x40 + b && cp / 0x1000 % 0x40 == b
            && cp / 0x40 % 0x40 == c && cp % 0x40 == d && (a == b == 0 ==> cp / 0x40 == c)
  {
    var high, mid := a * 0x40 + b, a * 0x1000 + b * 0x40 + c;
    SplitLast(mid, d);
    SplitLast(high, c);
    SplitLast(a, b);
    JoinBits(mid * 0x40 + d);
  }

  lemma SplitLast(front: nat, last: nat)
    requires last < 0x40
    ensures (front * 0x40 + last) / 0x40 == front && (front * 0x40 + last) % 0x40 == last
  {
  }

  lemma JoinBits(cp: nat)
    ensures cp == cp / 0x4_0000 * 0x4_0000 + cp / 0x1000 % 0x40 * 0x1000 + cp / 0x40 % 0x40 * 0x40 + cp % 0x40
    ensures cp / 0x1000 == cp / 0x4_0000 * 0x40 + cp / 0x1000 % 0x40
    ensures cp / 0x1000 / 0x40 == cp / 0x4_0000 && cp / 0x40 / 0x40 == cp / 0x1000
  {
    assert cp / 0x1000 / 0x40 == cp / 0x4_0000;
    assert cp / 0x40 / 0x40 == cp / 0x1000;
  }

  lemma FrontOfTwo(s: string)
    requires ValidWidth(s) == 2
    ensures var cp := ValueAtFront(s); 0x80 <= cp < 0x800 && Encode(cp) == s[..2]
  {
    SplitBits(0, 0, s[0] as nat - 0xC0, Bits(s[1]));
  }

  lemma FrontOfThree(s: string)
    requires ValidWidth(s) == 3
    ensures var cp := ValueAtFront(s); 0x800 <= cp < 0x1_0000 && Scalar(cp) && Encode(cp) == s[..3]
  {
    SplitBits(0, s[0] as nat - 0xE0, Bits(s[1]), Bits(s[2]));
  }

  lemma FrontOfFour(s: string)
    requires ValidWidth(s) == 4
    ensures var cp := ValueAtFront(s); 0x1_0000 <= cp <= 0x10_FFFF && Encode(cp) == s[..4]
  {
    SplitBits(s[0] as nat - 0xF0, Bits(s[1]), Bits(s[2]), Bits(s[3]));
  }

  lemma FrontIsEncoded(s: string)
    requires ValidWidth(s) > 0
    ensures Scalar(ValueAtFront(s)) && Encode(ValueAtFront(s)) == s[..ValidWidth(s)]
  {
    if ValidWidth(s) == 1 {
      assert s[..1] == [s[0]];
    } else {
      hide ValidWidth, ValueAtFront, Encode;
      if ValidWidth(s) == 2 {
        FrontOfTwo(s);
      } else if ValidWidth(s) == 3 {
        FrontOfThree(s);
      } else {
        FrontOfFour(s);
      }
    }
  }

  lemma TwoIsValid(cp: nat, s: string)
    requires 0x80 <= cp < 0x800 && |s| >= 2 && s[0] == (0xC0 + cp / 0x40) as char && s[1] == Tail(cp)
    ensures ValidWidth(s) == 2 && ValueAtFront(s) == cp
  {
    JoinBits(cp);
  }

  lemma ThreeIsValid(cp: nat, s: string)
    requires 0x800 <= cp < 0x1_0000 && Scalar(cp)
    requires |s| >= 3 && s[0] == (0xE0 + cp / 0x1000) as char && s[1] == Tail(cp / 0x40) && s[2] == Tail(cp)
    ensures ValidWidth(s) == 3 && ValueAtFront(s) == cp
  {
    JoinBits(cp);
  }

  lemma FourIsValid(cp: nat, s: string)
    requires 0x1_0000 <= cp <= 0x10_FFFF
    requires |s| >= 4 && s[0] == (0xF0 + cp / 0x4_0000) as char
    requires s[1] == Tail(cp / 0x1000) && s[2] == Tail(cp / 0x40) && s[3] == Tail(cp)
    ensures ValidWidth(s) == 4 && ValueAtFront(s) == cp
  {
    JoinBits(cp);
  }

  lemma EncodedIsValid(cp: nat, s: string)
    requires Scalar(cp) && Encode(cp) <= s
    ensures ValidWidth(s) == |Encode(cp)| > 0 && ValueAtFront(s) == cp
  {
    var e := Encode(cp);
    assert forall i | 0 <= i < |e| :: s[i] == e[i];
    if cp < 0x80 {
      assert ValidWidth(s) == 1;
    } else {
      hide ValidWidth, ValueAtFront, Tail;
      if cp < 0x800 {
        TwoIsValid(cp, s);
      } else if cp < 0x1_0000 {
        ThreeIsValid(cp, s);
      } else {
        FourIsValid(cp, s);
      }
    }
  }

  /** A sequence of the standard stands at the front exactly when it is the encoding of a
      scalar value, and then of one only, whose length is the width. */
  lemma WidthIsStandard(s: string)
    ensures ValidWidth(s) > 0 <==> exists cp :: Scalar(cp) && Encode(cp) <= s
    ensures forall cp | Scalar(cp) && Encode(cp) <= s :: ValidWidth(s) == |Encode(cp)| > 0 && ValueAtFront(s) == cp
  {
    hide Scalar, Encode, ValueAtFront;
    if ValidWidth(s) > 0 {
      FrontIsEncoded(s);
      assert Scalar(ValueAtFront(s)) && Encode(ValueAtFront(s)) <= s;
    }
    forall cp | Scalar(cp) && Encode(cp) <= s
      ensures ValidWidth(s) == |Encode(cp)| > 0 && ValueAtFront(s) == cp
    {
      EncodedIsValid(cp, s);
    }
  }

  predicate Scalars(cps: seq<nat>) { forall k | 0 <= k < |cps| :: Scalar(cps[k]) }

  function EncodeAll(cps: seq<nat>): string
    requires Scalars(cps)
  {
    if cps == [] then "" else Encode(cps[0]) + EncodeAll(cps[1..])
  }

  lemma {:induction false} EncodingsAreValid(cps: seq<nat>)
    requires Scalars(cps)
    ensures Valid(EncodeAll(cps))
  {
    if cps != [] {
      hide ValidWidth, Scalar, Encode, ValueAtFront;
      var s := EncodeAll(cps);
      EncodedIsValid(cps[0], s);
      EncodingsAreValid(cps[1..]);
      assert s[|Encode(cps[0])|..] == EncodeAll(cps[1..]);
    }
  }

  /** The values that valid text encodes. */
  function ScalarsOf(s: string): seq<nat>
    requires Valid(s)
  {
    if s == "" then [] else [ValueAtFront(s)] + ScalarsOf(s[ValidWidth(s)..])
  }

  lemma EncodeAllCons(cp: nat, cps: seq<nat>)
    requires Scalar(cp) && Scalars(cps)
    ensures Scalars([cp] + cps) && EncodeAll([cp] + cps) == Encode(cp) + EncodeAll(cps)
  {
    hide Scalar, Encode;
    assert ([cp] + cps)[1..] == cps;
  }

  lemma {:induction false} ScalarsEncoded(s: string)
    requires Valid(s)
    ensures Scalars(ScalarsOf(s)) && EncodeAll(ScalarsOf(s)) == s
  {
    if s != "" {
      hide ValidWidth, Scalar, Encode, ValueAtFront, Scalars, EncodeAll;
      FrontIsEncoded(s);
      ScalarsEncoded(s[ValidWidth(s)..]);
      EncodeAllCons(ValueAtFront(s), ScalarsOf(s[ValidWidth(s)..]));
    } else {
      assert ScalarsOf(s) == [];
    }
  }

  /** Valid text is the encodings of scalar values, one behind the other. */
  lemma ValidIsStandard(s: string)
    ensures Valid(s) <==> exists cps :: Scalars(cps) && EncodeAll(cps) == s
  {
    hide Valid, Scalars, EncodeAll, ScalarsOf;
    if Valid(s) {
      ScalarsEncoded(s);
    }
    forall cps | Scalars(cps) && EncodeAll(cps) == s
      ensures Valid(s)
    {
      EncodingsAreValid(cps);
    }
  }

  // ---- white space in UTF-8 ----

  /** The length of the white-space character at the front of s; 0 when there is none. */
  function SpaceAtFront(s: string): (w: nat)
    ensures w <= |s|
  {
    if s != "" && ('\t' <= s[0] <= '\r' || s[0] == ' ') then 1
    else if |s| >= 2 && IsSpace2(s[0], s[1]) then 2
    else if |s| >= 3 && IsSpace3(s[0], s[1], s[2]) then 3
    else 0
  }

  /** The length of the white-space character at the end of s; 0 when there is none. */
  function SpaceAtEnd(s: string): (w: nat)
    ensures w <= |s|
  {
    var n := |s|;
    if n >= 1 && ('\t' <= s[n - 1] <= '\r' || s[n - 1] == ' ') then 1
    else if n >= 2 && IsSpace2(s[n - 2], s[n - 1]) then 2
    else if n >= 3 && IsSpace3(s[n - 3], s[n - 2], s[n - 1]) then 3
    else 0
  }

  /** U+0085, U+00A0 */
  predicate IsSpace2(a: char, b: char) { a == '\U{C2}' && (b == '\U{85}' || b == '\U{A0}') }

  /** U+1680, U+2000 to U+200A, U+2028, U+2029, U+202F, U+205F, U+3000 */
  predicate IsSpace3(a: char, b: char, c: char) {
    || (a == '\U{E1}' && b == '\U{9A}' && c == '\U{80}')
    || (a == '\U{E2}' && b == '\U{80}'
        && ('\U{80}' <= c <= '\U{8A}' || c == '\U{A8}' || c == '\U{A9}' || c == '\U{AF}'))
    || (a == '\U{E2}' && b == '\U{81}' && c == '\U{9F}')
    || (a == '\U{E3}' && b == '\U{80}' && c == '\U{80}')
  }

  /** unicode.IsSpace */
  predicate IsWhite(cp: nat) {
    cp in {0x9, 0xA, 0xB, 0xC, 0xD, 0x20, 0x85, 0xA0, 0x1680, 0x2000, 0x2001, 0x2002, 0x2003, 0x2004, 0x2005, 0x2006,
           0x2007, 0x2008, 0x2009, 0x200A, 0x2028, 0x2029, 0x202F, 0x205F, 0x3000}
  }

  /** The white space that is cut is exactly the encodings of the white-space characters. */
  lemma SpaceIsWhite(s: string)
    ensures SpaceAtFront(s) == if ValidWidth(s) > 0 && IsWhite(ValueAtFront(s)) then ValidWidth(s) else 0
  {
    if |s| >= 3 && ValidWidth(s) == 3 {
      assert ValueAtFront(s) == (s[0] as nat - 0xE0) * 0x1000 + Bits(s[1]) * 0x40 + Bits(s[2]);
    }
  }

  lemma EndIsFront(s: string, w: nat)
    requires 1 <= w <= 3 && w <= |s| && SpaceAtFront(s[|s| - w..]) == w
    ensures SpaceAtEnd(s) == w
  {
    var z := s[|s| - w..];
    assert forall i | 0 <= i < w :: z[i] == s[|s| - w + i];
  }

  lemma EndOfEncoding(cp: nat, front: string)
    requires Scalar(cp) && IsWhite(cp)
    ensures SpaceAtEnd(front + Encode(cp)) == |Encode(cp)| > 0
  {
    hide SpaceAtEnd;
    var z := Encode(cp);
    var s := front + z;
    EncodedIsValid(cp, z);
    SpaceIsWhite(z);
    assert s[|s| - |z|..] == z;
    assert |z| <= 3;
    EndIsFront(s, |z|);
  }

  lemma EncodingAtEnd(s: string) returns (cp: nat, front: string)
    requires SpaceAtEnd(s) > 0
    ensures Scalar(cp) && IsWhite(cp) && s == front + Encode(cp) && |Encode(cp)| == SpaceAtEnd(s)
  {
    var w := SpaceAtEnd(s);
    var z := s[|s| - w..];
    EndStarts(s);
    hide SpaceAtEnd, SpaceAtFront, ValidWidth, ValueAtFront, Encode, Scalar, IsWhite;
    SpaceIsWhite(z);
    FrontIsEncoded(z);
    cp, front := ValueAtFront(z), s[..|s| - w];
    assert z[..w] == z;
  }

  lemma EndStarts(s: string)
    requires SpaceAtEnd(s) > 0
    ensures var w := SpaceAtEnd(s); SpaceAtFront(s[|s| - w..]) == w
  {
  }

  /** ... and so it is at the end of a text. */
  lemma SpaceAtEndIsWhite(s: string)
    ensures SpaceAtEnd(s) > 0 <==> exists cp, front :: Scalar(cp) && IsWhite(cp) && s == front + Encode(cp)
  {
    hide SpaceAtEnd, Scalar, IsWhite, Encode;
    if SpaceAtEnd(s) > 0 {
      var cp, front := EncodingAtEnd(s);
    }
    forall cp, front | Scalar(cp) && IsWhite(cp) && s == front + Encode(cp)
      ensures SpaceAtEnd(s) > 0
    {
      EndOfEncoding(cp, front);
    }
  }

  function TrimFront(s: string): string {
    if SpaceAtFront(s) > 0 then TrimFront(s[SpaceAtFront(s)..]) else s
  }

  function TrimEnd(s: string): string {
    if SpaceAtEnd(s) > 0 then TrimEnd(s[..|s| - SpaceAtEnd(s)]) else s
  }

  /** strings.TrimSpace */
  function TrimBytes(s: string): string { TrimEnd(TrimFront(s)) }

  lemma {:induction false} TrimFrontDone(s: string)
    ensures SpaceAtFront(TrimFront(s)) == 0
    decreases |s|
  {
    if SpaceAtFront(s) > 0 {
      TrimFrontDone(s[SpaceAtFront(s)..]);
    }
  }

  lemma {:induction false} TrimEndDone(s: string)
    ensures SpaceAtEnd(TrimEnd(s)) == 0 && TrimEnd(s) <= s
    ensures SpaceAtFront(s) == 0 ==> SpaceAtFront(TrimEnd(s)) == 0
    decreases |s|
  {
    if SpaceAtEnd(s) > 0 {
      var shorter := s[..|s| - SpaceAtEnd(s)];
      assert SpaceAtFront(s) == 0 ==> SpaceAtFront(shorter) == 0;
      TrimEndDone(shorter);
    }
  }

  /** Trimming twice is trimming once. */
  lemma TrimTwice(s: string)
    ensures TrimBytes(TrimBytes(s)) == TrimBytes(s)
  {
    TrimFrontDone(s);
    TrimEndDone(TrimFront(s));
  }
}
