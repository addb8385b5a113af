/** Which string literals the lenient decoder of Editorial reads, and what they stand for:
    every escape that a provider may send, not only those that the encoder writes. */
module Literals {
  import opened Utf8
  import opened Editorial

  /** One character or escape of a literal: a byte that stands for itself, a backslash with
      one byte that is no u, or a backslash and u with four digits and their values. */
  datatype Unit = Plain(c: char) | Short(c: char) | Hex(digits: string, values: seq<nat>)

  const SMALL_HEX := "0123456789abcdef"
  const CAPITAL_HEX := "0123456789ABCDEF"

  predicate IsDigit(c: char, v: nat) { v < 16 && (c == SMALL_HEX[v] || c == CAPITAL_HEX[v]) }

  predicate Formed(u: Unit) {
    match u
    case Plain(c) => c != '"' && c != '\\'
    case Short(c) => c != 'u'
    case Hex(digits, values) => |digits| == |values| == 4 && forall i | 0 <= i < 4 :: IsDigit(digits[i], values[i])
  }

  predicate AllFormed(us: seq<Unit>) { forall k | 0 <= k < |us| :: Formed(us[k]) }

  function Written(u: Unit): string {
    match u
    case Plain(c) => [c]
    case Short(c) => ['\\', c]
    case Hex(digits, _) => ['\\', 'u'] + digits
  }

  function WrittenAll(us: seq<Unit>): string {
    if us == [] then "" else Written(us[0]) + WrittenAll(us[1..])
  }

  /** The letters of the short escapes, and what they stand for at the same place. */
  const LETTERS := "\"\\/bfnrt"
  const MEANINGS := "\"\\/\U{8}\U{C}\n\r\t"

  /** A short escape with another letter keeps its backslash; a surrogate is replaced. */
  ghost predicate StandsFor(u: Unit, meaning: string)
    requires Formed(u)
  {
    match u
    case Plain(c) => meaning == [c]
    case Short(c) =>
      && (c !in LETTERS ==> meaning == ['\\', c])
      && (forall i | 0 <= i < 8 && c == LETTERS[i] :: meaning == [MEANINGS[i]])
    case Hex(_, v) =>
      var code := v[0] * 0x1000 + v[1] * 0x100 + v[2] * 0x10 + v[3];
      if 0xD800 <= code <= 0xDFFF then meaning == "\U{EF}\U{BF}\U{BD}" else Scalar(code) && meaning == Encode(code)
  }

  ghost predicate AllStandFor(us: seq<Unit>, meaning: string)
    requires AllFormed(us)
  {
    if us == [] then meaning == ""
    else
      assert Formed(us[0]) && AllFormed(us[1..]);
      exists a, b :: meaning == a + b && StandsFor(us[0], a) && AllStandFor(us[1..], b)
  }

  lemma Digit(c: char, v: nat)
    ensures IsDigit(c, v) ==> HexValue(c) == v
    ensures HexValue(c) >= 0 ==> IsDigit(c, HexValue(c))
  {
  }

  lemma HexDecoded(digits: string, values: seq<nat>, tail: string)
    requires Formed(Hex(digits, values))
    ensures var code := values[0] * 0x1000 + values[1] * 0x100 + values[2] * 0x10 + values[3];
            DecodeFirst(Written(Hex(digits, values)) + tail) == Done(RuneBytes(code), 6)
  {
    hide IsDigit, HexValue, RuneBytes, Unescape;
    var rest := Written(Hex(digits, values)) + tail;
    assert rest[2..6] == digits;
    Digit(digits[0], values[0]);
    Digit(digits[1], values[1]);
    Digit(digits[2], values[2]);
    Digit(digits[3], values[3]);
  }

  /** One unit is decoded to what it stands for. */
  lemma UnitMeans(u: Unit, tail: string)
    requires Formed(u)
    ensures var d := DecodeFirst(Written(u) + tail);
            d.Done? && d.used == |Written(u)| && StandsFor(u, d.value)
    ensures Written(u) != "" && Written(u)[0] != '"'
  {
    hide IsDigit, ParseHex;
    if u.Hex? {
      HexDecoded(u.digits, u.values, tail);
      assert forall i | 0 <= i < 4 :: IsDigit(u.digits[i], u.values[i]);
      CodeIsSmall(u.values);
    } else {
      hide Encode, Scalar;
      var rest := Written(u) + tail;
      assert rest[0] == Written(u)[0];
    }
  }

  lemma CodeIsSmall(v: seq<nat>)
    requires |v| == 4 && forall i | 0 <= i < 4 :: exists c :: IsDigit(c, v[i])
    ensures v[0] * 0x1000 + v[1] * 0x100 + v[2] * 0x10 + v[3] < 0x1_0000
  {
  }

  /** A literal of such units, closed by a quote, is decoded to what the units stand for, and
      the decoder stops behind the quote. */
  lemma {:induction false} LiteralMeans(us: seq<Unit>, suffix: string)
    requires AllFormed(us)
    ensures var d := Lenient(WrittenAll(us) + ("\"" + suffix));
            d.Done? && d.used == |WrittenAll(us)| + 1 && AllStandFor(us, d.value)
  {
    hide DecodeFirst, StandsFor, Written, Formed;
    var tail := "\"" + suffix;
    if us == [] {
      assert WrittenAll(us) + tail == tail;
    } else {
      var u, rest := us[0], WrittenAll(us[1..]) + tail;
      LiteralMeans(us[1..], suffix);
      UnitMeans(u, rest);
      var first := DecodeFirst(Written(u) + rest);
      UnitDecoded(Written(u), first.value, rest);
      assert WrittenAll(us) + tail == Written(u) + rest;
      hide Lenient;
    }
  }

  lemma UnitRead(rest: string) returns (u: Unit)
    requires rest != "" && rest[0] != '"' && DecodeFirst(rest).Done?
    ensures Formed(u) && rest == Written(u) + rest[DecodeFirst(rest).used..]
  {
    hide HexValue, IsDigit, Unescape, RuneBytes;
    if rest[0] != '\\' {
      u := Plain(rest[0]);
    } else if rest[1] != 'u' {
      u := Short(rest[1]);
    } else {
      var digits := rest[2..6];
      Digit(digits[0], if HexValue(digits[0]) < 0 then 0 else HexValue(digits[0]));
      Digit(digits[1], if HexValue(digits[1]) < 0 then 0 else HexValue(digits[1]));
      Digit(digits[2], if HexValue(digits[2]) < 0 then 0 else HexValue(digits[2]));
      Digit(digits[3], if HexValue(digits[3]) < 0 then 0 else HexValue(digits[3]));
      u := Hex(digits, [HexValue(digits[0]), HexValue(digits[1]), HexValue(digits[2]), HexValue(digits[3])]);
      assert rest[..6] == ['\\', 'u'] + digits;
    }
  }

  lemma {:induction false} LiteralRead(rest: string) returns (us: seq<Unit>, suffix: string)
    requires Lenient(rest).Done?
    ensures AllFormed(us) && rest == WrittenAll(us) + ("\"" + suffix)
    decreases |rest|
  {
    hide DecodeFirst, Written, Formed;
    if rest[0] == '"' {
      us, suffix := [], rest[1..];
      assert rest == "\"" + rest[1..];
    } else {
      var u := UnitRead(rest);
      var more := rest[DecodeFirst(rest).used..];
      us, suffix := LiteralRead(more);
      us := [u] + us;
      assert us[1..] == us[1..];
      assert WrittenAll(us) == Written(u) + WrittenAll(us[1..]);
    }
  }

  /** Exactly the texts that begin with such units and a quote are decoded. */
  lemma LiteralExactly(rest: string)
    ensures Lenient(rest).Done? <==>
            exists us, suffix :: AllFormed(us) && rest == WrittenAll(us) + ("\"" + suffix)
  {
    hide Lenient, AllFormed, WrittenAll;
    if Lenient(rest).Done? {
      var us, suffix := LiteralRead(rest);
    }
    forall us, suffix | AllFormed(us) && rest == WrittenAll(us) + ("\"" + suffix)
      ensures Lenient(rest).Done?
    {
      LiteralMeans(us, suffix);
    }
  }

  // ---- what may stand behind the value of the field ----

  lemma {:induction false} WhiteSkipped(cps: seq<nat>, rest: string)
    requires Scalars(cps) && forall k | 0 <= k < |cps| :: IsWhite(cps[k])
    ensures TrimFront(EncodeAll(cps) + rest) == TrimFront(rest)
  {
    hide Encode, Scalar, IsWhite, SpaceAtFront;
    if cps == [] {
      assert EncodeAll(cps) + rest == rest;
    } else {
      var cp, tail := cps[0], EncodeAll(cps[1..]) + rest;
      var whole := EncodeAll(cps) + rest;
      assert whole == Encode(cp) + tail && Scalar(cp) && IsWhite(cp);
      EncodedIsValid(cp, whole);
      SpaceIsWhite(whole);
      assert whole[|Encode(cp)|..] == tail;
      WhiteSkipped(cps[1..], rest);
    }
  }

  lemma {:induction false} EndKeepsFirst(s: string)
    requires s != "" && SpaceAtFront(s) == 0
    ensures TrimEnd(s) != "" && TrimEnd(s)[0] == s[0]
    decreases |s|
  {
    if SpaceAtEnd(s) > 0 {
      var shorter := s[..|s| - SpaceAtEnd(s)];
      EndStarts(s);
      assert s[0..] == s;
      assert SpaceAtEnd(s) < |s|;
      assert SpaceAtFront(shorter) == 0;
      EndKeepsFirst(shorter);
    }
  }

  /** Behind white space the value must be followed by the end, a closing bracket or a comma. */
  lemma ClosesExactly(cps: seq<nat>, rest: string)
    requires Scalars(cps) && forall k | 0 <= k < |cps| :: IsWhite(cps[k])
    requires SpaceAtFront(rest) == 0
    ensures Closes(EncodeAll(cps) + rest) <==> rest == "" || rest[0] in "}],"
  {
    hide Scalars, IsWhite, EncodeAll, SpaceAtFront, SpaceAtEnd;
    WhiteSkipped(cps, rest);
    if rest != "" {
      EndKeepsFirst(rest);
    } else {
      EndOfNothing();
    }
  }

  lemma EndOfNothing()
    ensures TrimEnd("") == ""
  {
  }
}
