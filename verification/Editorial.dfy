/** Editorial text as providers send it (backend/internal/domain/editorial_markdown.go):
    the lenient field scanner, the bracket scanner, and the normaliser of layout escapes.
    Text is a byte string, as in Utf8. */
module Editorial {
  import opened Wrappers
  import opened Text
  import opened Utf8
  import opened Json
  import Layout

  // ------------------------------------------------------- lenient JSON strings

  datatype Decoded = Done(value: string, used: nat) | Bad

  function HexValue(c: char): (d: int)
    ensures -1 <= d < 16
  {
    if '0' <= c <= '9' then c as int - '0' as int
    else if 'a' <= c <= 'f' then c as int - 'a' as int + 10
    else if 'A' <= c <= 'F' then c as int - 'A' as int + 10
    else -1
  }

  /** strconv.ParseUint(digits, 16, 16) on four digits; -1 is its error. */
  function ParseHex(digits: string): (v: int)
    requires |digits| == 4
    ensures -1 <= v < 0x1_0000
  {
    var a, b, c, d := HexValue(digits[0]), HexValue(digits[1]), HexValue(digits[2]), HexValue(digits[3]);
    if a < 0 || b < 0 || c < 0 || d < 0 then -1 else a * 0x1000 + b * 0x100 + c * 0x10 + d
  }

  function Unescape(c: char): string {
    match c
    case '"' => "\""
    case '\\' => "\\"
    case '/' => "/"
    case 'b' => "\U{8}"
    case 'f' => "\U{C}"
    case 'n' => "\n"
    case 'r' => "\r"
    case 't' => "\t"
    case _ => ['\\', c]
  }

  /** What the character or escape at the front of rest stands for, and its length. */
  function DecodeFirst(rest: string): (d: Decoded)
    requires rest != ""
    ensures d.Done? ==> 1 <= d.used <= |rest|
  {
    if rest[0] != '\\' then Done([rest[0]], 1)
    else if |rest| < 2 then Bad
    else if rest[1] != 'u' then Done(Unescape(rest[1]), 2)
    else if |rest| < 6 || ParseHex(rest[2..6]) < 0 then Bad
    else Done(RuneBytes(ParseHex(rest[2..6])), 6)
  }

  /** The string whose opening quote stands just before rest; used counts its closing
      quote. */
  function Lenient(rest: string): (d: Decoded)
    ensures d.Done? ==> 1 <= d.used <= |rest|
  {
    if rest == "" then Bad
    else if rest[0] == '"' then Done("", 1)
    else
      var first := DecodeFirst(rest);
      if first.Bad? then Bad else Prepend(first.value, first.used, Lenient(rest[first.used..]))
  }

  function Prepend(value: string, used: nat, d: Decoded): Decoded {
    if d.Bad? then Bad else Done(value + d.value, used + d.used)
  }

  /** decodeLenientJSONStringV1 */
  method DecodeLenient(text: string, quoteStart: int) returns (value: string, end: int, ok: bool)
    ensures ok <==> 0 <= quoteStart < |text| && text[quoteStart] == '"' && Lenient(text[quoteStart + 1..]).Done?
    ensures ok ==> end > quoteStart && Lenient(text[quoteStart + 1..]) == Done(value, end - quoteStart - 1)
  {
    hide Lenient, DecodeFirst, Unescape, ParseHex, RuneBytes;
    if quoteStart < 0 || quoteStart >= |text| || text[quoteStart] != '"' {
      return "", quoteStart, false;
    }
    value := "";
    ghost var whole := Lenient(text[quoteStart + 1..]);
    var index := quoteStart + 1;
    while index < |text|
      invariant quoteStart < index <= |text|
      invariant whole == Prepend(value, index - quoteStart - 1, Lenient(text[index..]))
    {
      var ch := text[index];
      LenientStep(text, index, value, index - quoteStart - 1);
      if ch == '"' {
        assert value + "" == value;
        return value, index + 1, true;
      }
      FirstUnit(text, index);
      if ch != '\\' {
        value := value + [ch];
        index := index + 1;
        continue;
      }
      if index + 1 >= |text| {
        return "", index, false;
      }
      if text[index + 1] != 'u' {
        value := value + Unescape(text[index + 1]);
        index := index + 2;
        continue;
      }
      if index + 5 >= |text| {
        return "", index + 1, false;
      }
      var codePoint := ParseHex(text[index + 2..index + 6]);
      if codePoint < 0 {
        return "", index + 1, false;
      }
      value := value + RuneBytes(codePoint);
      index := index + 6;
    }
    LenientEnd(text[index..]);
    return "", |text|, false;
  }

  lemma LenientEnd(rest: string)
    requires rest == ""
    ensures Lenient(rest) == Bad
  {
  }

  lemma FirstUnit(text: string, i: nat)
    requires i < |text|
    ensures DecodeFirst(text[i..]) ==
            if text[i] != '\\' then Done([text[i]], 1)
            else if i + 1 >= |text| then Bad
            else if text[i + 1] != 'u' then Done(Unescape(text[i + 1]), 2)
            else if i + 5 >= |text| || ParseHex(text[i + 2..i + 6]) < 0 then Bad
            else Done(RuneBytes(ParseHex(text[i + 2..i + 6])), 6)
  {
    hide Unescape, ParseHex, RuneBytes;
    if i + 6 <= |text| {
      assert text[i..][2..6] == text[i + 2..i + 6];
    }
  }

  lemma LenientStep(text: string, i: nat, value: string, used: nat)
    requires i < |text|
    ensures text[i] == '"' ==> Lenient(text[i..]) == Done("", 1)
    ensures text[i] != '"' ==>
              var first := DecodeFirst(text[i..]);
              Prepend(value, used, Lenient(text[i..])) ==
              if first.Bad? then Bad
              else Prepend(value + first.value, used + first.used, Lenient(text[i + first.used..]))
  {
    hide DecodeFirst;
    var first := DecodeFirst(text[i..]);
    if text[i] != '"' && first.Done? {
      assert text[i..][first.used..] == text[i + first.used..];
      var d := Lenient(text[i + first.used..]);
      if d.Done? {
        assert (value + first.value) + d.value == value + (first.value + d.value);
      }
    }
  }

  // ---- the decoder undoes the encoder ----

  lemma HexRoundTrip(d: nat)
    requires d < 16
    ensures HexValue(HexDigit(d)) == d
  {
  }

  /** Decoding the escape of an ASCII character, whatever follows. */
  lemma AsciiRoundTrip(c: char, tail: string)
    requires c < RUNE_SELF
    ensures var rest := EncodeAscii(c) + tail;
            rest[0] != '"' && DecodeFirst(rest) == Done([c], |EncodeAscii(c)|)
  {
    var e := EncodeAscii(c);
    var rest := e + tail;
    if |e| == 6 {
      HexRoundTrip(c as nat / 16);
      HexRoundTrip(c as nat % 16);
      assert rest[2..6] == e[2..6];
    }
  }

  lemma UnitDecoded(unit: string, meaning: string, tail: string)
    requires unit != "" && unit[0] != '"' && DecodeFirst(unit + tail) == Done(meaning, |unit|)
    ensures Lenient(unit + tail) == Prepend(meaning, |unit|, Lenient(tail))
  {
    hide DecodeFirst;
    assert (unit + tail)[|unit|..] == tail;
  }

  lemma ByteDecoded(c: char, tail: string)
    requires c != '"' && c != '\\'
    ensures Lenient([c] + tail) == Prepend([c], 1, Lenient(tail))
  {
    hide Lenient, Unescape;
    UnitDecoded([c], [c], tail);
  }

  lemma {:induction false} BytesCopied(bytes: string, tail: string)
    requires forall i :: 0 <= i < |bytes| ==> bytes[i] != '"' && bytes[i] != '\\'
    ensures Lenient(bytes + tail) == Prepend(bytes, |bytes|, Lenient(tail))
  {
    hide Lenient;
    var d := Lenient(tail);
    if bytes == "" {
      assert bytes + tail == tail;
      assert d.Done? ==> "" + d.value == d.value;
    } else {
      BytesCopied(bytes[1..], tail);
      ByteDecoded(bytes[0], bytes[1..] + tail);
      assert [bytes[0]] + (bytes[1..] + tail) == bytes + tail;
      assert d.Done? ==> [bytes[0]] + (bytes[1..] + d.value) == bytes + d.value;
    }
  }

  lemma ErrorByteDecoded(tail: string)
    ensures DecodeFirst("\\ufffd" + tail) == Done(REPLACEMENT, 6)
    ensures DecodeFirst("\\u2028" + tail) == Done("\U{E2}\U{80}\U{A8}", 6)
    ensures DecodeFirst("\\u2029" + tail) == Done("\U{E2}\U{80}\U{A9}", 6)
  {
    assert ("\\ufffd" + tail)[2..6] == "fffd";
    assert ("\\u2028" + tail)[2..6] == "2028";
    assert ("\\u2029" + tail)[2..6] == "2029";
  }

  /** What the decoder makes of the encoding of s[..EncodeFirst(s).1]. */
  function Meaning(s: string): string
    requires s != ""
  {
    if ValidWidth(s) == 0 then REPLACEMENT else s[..EncodeFirst(s).1]
  }

  lemma FirstRoundTrip(s: string, tail: string)
    requires s != ""
    ensures var first := EncodeFirst(s);
            Lenient(first.0 + tail) == Prepend(Meaning(s), |first.0|, Lenient(tail))
  {
    var first := EncodeFirst(s);
    FirstSize(s);
    hide Lenient, DecodeFirst;
    if s[0] < RUNE_SELF {
      AsciiRoundTrip(s[0], tail);
      assert s[..1] == [s[0]];
      assert EncodeAscii(s[0]) != "" && EncodeAscii(s[0])[0] == (EncodeAscii(s[0]) + tail)[0];
      UnitDecoded(EncodeAscii(s[0]), [s[0]], tail);
    } else {
      hide EncodeAscii;
      ErrorByteDecoded(tail);
      var w := ValidWidth(s);
      if w == 0 {
        UnitDecoded("\\ufffd", REPLACEMENT, tail);
      } else if s[..w] == "\U{E2}\U{80}\U{A8}" {
        UnitDecoded("\\u2028", s[..w], tail);
      } else if s[..w] == "\U{E2}\U{80}\U{A9}" {
        UnitDecoded("\\u2029", s[..w], tail);
      } else {
        BytesCopied(s[..w], tail);
      }
    }
  }

  lemma SanitizeFirst(s: string)
    requires s != ""
    ensures Sanitize(s) == Meaning(s) + Sanitize(s[EncodeFirst(s).1..])
  {
    FirstSize(s);
    hide EncodeFirst, ValidWidth;
  }

  lemma EncodedStep(s: string, tail: string)
    requires s != ""
    ensures |EncodeBody(s)| == |EncodeFirst(s).0| + |EncodeBody(s[EncodeFirst(s).1..])|
    ensures Lenient(EncodeBody(s) + tail)
            == Prepend(Meaning(s), |EncodeFirst(s).0|, Lenient(EncodeBody(s[EncodeFirst(s).1..]) + tail))
  {
    hide EncodeFirst, Lenient, ValidWidth, Prepend;
    var first, rest := EncodeFirst(s).0, EncodeBody(s[EncodeFirst(s).1..]);
    FirstRoundTrip(s, rest + tail);
    assert EncodeBody(s) + tail == first + (rest + tail);
  }

  /** For every byte string: lenient decoding of its JSON encoding, whatever stands behind
      it, gives the string with error bytes replaced, and ends just after the closing
      quote. */
  lemma {:induction false} DecodesEncoded(s: string, suffix: string)
    ensures Lenient(EncodeBody(s) + "\"" + suffix) == Done(Sanitize(s), |EncodeBody(s)| + 1)
  {
    var tail := "\"" + suffix;
    assert EncodeBody(s) + "\"" + suffix == EncodeBody(s) + tail;
    if s == "" {
      assert EncodeBody(s) + tail == tail;
    } else {
      hide EncodeFirst, Lenient, EncodeBody, Sanitize, Meaning;
      var rest := s[EncodeFirst(s).1..];
      DecodesEncoded(rest, suffix);
      SanitizeFirst(s);
      EncodedStep(s, tail);
      assert EncodeBody(rest) + "\"" + suffix == EncodeBody(rest) + tail;
    }
  }

  /** ... hence exactly the string itself when, and only when, it is valid UTF-8. */
  lemma DecodeUndoesEncode(s: string, suffix: string)
    ensures Lenient(EncodeBody(s) + "\"" + suffix) == Done(s, |EncodeBody(s)| + 1) <==> Valid(s)
  {
    hide Lenient, EncodeBody, Sanitize, Valid;
    DecodesEncoded(s, suffix);
    SanitizeIsId(s);
  }

  // ------------------------------------------------------- the editorial field

  const KEY := "\"editorial\""

  predicate StartsKey(rest: string) { |rest| >= |KEY| && rest[..|KEY|] == KEY }

  predicate IsBlank(c: char) { c == ' ' || c == '\t' || c == '\r' || c == '\n' }

  function SkipBlanks(s: string): (rest: string)
    ensures |rest| <= |s|
  {
    if s != "" && IsBlank(s[0]) then SkipBlanks(s[1..]) else s
  }

  /** What may stand behind the value of the field. */
  predicate Closes(after: string) {
    var suffix := TrimBytes(after);
    suffix == "" || suffix[0] == '}' || suffix[0] == ']' || suffix[0] == ','
  }

  /** The value of the field whose key stands at the front of rest. */
  function FieldAt(rest: string): Option<string>
    requires StartsKey(rest)
  {
    var colon := SkipBlanks(rest[|KEY|..]);
    if colon == "" || colon[0] != ':' then None
    else
      var quote := SkipBlanks(colon[1..]);
      if quote == "" || quote[0] != '"' then None else ValueAt(quote[1..])
  }

  function ValueAt(rest: string): Option<string> {
    var d := Lenient(rest);
    if d.Done? && Closes(rest[d.used..]) then Some(d.value) else None
  }

  /** The value of the first editorial field that reads as one. */
  function Field(text: string): Option<string> {
    if text == "" then None
    else if StartsKey(text) && FieldAt(text).Some? then FieldAt(text)
    else Field(text[1..])
  }

  method SkipBlankRun(text: string, from: nat) returns (i: nat)
    requires from <= |text|
    ensures from <= i <= |text| && text[i..] == SkipBlanks(text[from..])
  {
    i := from;
    while i < |text| && IsBlank(text[i])
      invariant from <= i <= |text|
      invariant SkipBlanks(text[i..]) == SkipBlanks(text[from..])
    {
      assert text[i..][1..] == text[i + 1..];
      i := i + 1;
    }
  }

  /** The value whose opening quote stands at quote. */
  method ParseValueAt(text: string, quote: nat) returns (value: string, found: bool)
    requires quote < |text| && text[quote] == '"'
    ensures ValueAt(text[quote..][1..]) == if found then Some(value) else None
  {
    hide Lenient, Closes;
    var end, ok;
    value, end, ok := DecodeLenient(text, quote);
    assert text[quote..][1..] == text[quote + 1..];
    if ok {
      assert text[quote + 1..][end - quote - 1..] == text[end..];
      if Closes(text[end..]) {
        return value, true;
      }
    }
    return "", false;
  }

  /** One round of the search loop: the field whose key stands at keyStart. */
  method ParseFieldAt(text: string, keyStart: nat) returns (value: string, found: bool)
    requires keyStart < |text| && StartsKey(text[keyStart..])
    ensures FieldAt(text[keyStart..]) == if found then Some(value) else None
  {
    FieldParts(text, keyStart);
    hide FieldAt, ValueAt, SkipBlanks, StartsKey;
    var colon := SkipBlankRun(text, keyStart + |KEY|);
    if colon >= |text| || text[colon] != ':' {
      return "", false;
    }
    assert text[colon..][1..] == text[colon + 1..];
    var quote := SkipBlankRun(text, colon + 1);
    if quote >= |text| || text[quote] != '"' {
      return "", false;
    }
    value, found := ParseValueAt(text, quote);
  }

  /** parseLenientEditorialFieldV1 */
  method ParseLenientField(text: string) returns (value: string, found: bool)
    ensures Field(text) == if found then Some(value) else None
  {
    hide *;
    var searchFrom := 0;
    assert text[0..] == text;
    while searchFrom < |text|
      invariant 0 <= searchFrom <= |text|
      invariant Field(text[searchFrom..]) == Field(text)
    {
      var relative := IndexOf(text[searchFrom..], KEY);
      KeySearched(text, searchFrom);
      FieldSkips(text, searchFrom, if relative < 0 then |text| else searchFrom + relative);
      if relative < 0 {
        FieldStep(text, |text|);
        return "", false;
      }
      var keyStart := searchFrom + relative;
      FieldStep(text, keyStart);
      value, found := ParseFieldAt(text, keyStart);
      if found {
        return;
      }
      searchFrom := keyStart + 1;
    }
    FieldStep(text, |text|);
    return "", false;
  }

  lemma KeyOccurs(text: string, from: nat, at: nat)
    requires from <= at <= |text|
    ensures OccursAt(text[from..], KEY, at - from) == StartsKey(text[at..])
  {
    if at + |KEY| <= |text| {
      assert text[from..][at - from..at - from + |KEY|] == text[at..][..|KEY|];
    }
  }

  /** What a search for the key tells. */
  lemma KeySearched(text: string, from: nat)
    requires from <= |text|
    ensures var r := IndexOf(text[from..], KEY);
            && (r >= 0 ==> from + r < |text| && StartsKey(text[from + r..]))
            && forall j | from <= j < (if r < 0 then |text| else from + r) :: !StartsKey(text[j..])
  {
    hide *;
    var r := IndexOf(text[from..], KEY);
    if r >= 0 {
      KeyOccurs(text, from, from + r);
      KeyStartsWithQuote(text[from + r..]);
    }
    forall j | from <= j < (if r < 0 then |text| else from + r)
      ensures !StartsKey(text[j..])
    {
      KeyOccurs(text, from, j);
    }
  }

  lemma FieldStep(text: string, at: nat)
    requires at <= |text|
    ensures at == |text| ==> Field(text[at..]) == None
    ensures at < |text| ==>
              Field(text[at..]) == if StartsKey(text[at..]) && FieldAt(text[at..]).Some? then FieldAt(text[at..])
                                   else Field(text[at + 1..])
  {
    hide FieldAt, StartsKey;
    if at < |text| {
      assert text[at..][1..] == text[at + 1..];
    }
  }

  lemma FieldParts(text: string, at: nat)
    requires at < |text| && StartsKey(text[at..])
    ensures at + |KEY| <= |text|
    ensures FieldAt(text[at..]) ==
            var colon := SkipBlanks(text[at + |KEY|..]);
            if colon == "" || colon[0] != ':' then None
            else
              var quote := SkipBlanks(colon[1..]);
              if quote == "" || quote[0] != '"' then None else ValueAt(quote[1..])
  {
    hide SkipBlanks, ValueAt;
    assert text[at..][|KEY|..] == text[at + |KEY|..];
  }

  /** Where the key does not occur there is no field. */
  lemma {:induction false} FieldSkips(text: string, from: nat, to: nat)
    requires from <= to <= |text|
    requires forall j | from <= j < to :: !StartsKey(text[j..])
    ensures Field(text[from..]) == Field(text[to..])
    decreases |text| - from
  {
    hide *;
    if from < to {
      FieldStep(text, from);
      FieldSkips(text, from + 1, to);
    }
  }

  // ---- the scanner finds what the encoder wrote ----

  lemma {:induction false} BlanksSkipped(blanks: string, rest: string)
    requires forall i :: 0 <= i < |blanks| ==> IsBlank(blanks[i])
    requires rest != "" && !IsBlank(rest[0])
    ensures SkipBlanks(blanks + rest) == rest
  {
    if blanks == "" {
      assert blanks + rest == rest;
    } else {
      assert (blanks + rest)[1..] == blanks[1..] + rest;
      BlanksSkipped(blanks[1..], rest);
    }
  }

  lemma KeyStartsWithQuote(rest: string)
    ensures StartsKey(rest) ==> rest != "" && rest[0] == '"'
  {
    if StartsKey(rest) {
      assert rest[0] == rest[..|KEY|][0];
    }
  }

  lemma {:induction false} NoKeyBefore(before: string, rest: string)
    requires '"' !in before
    ensures Field(before + rest) == Field(rest)
  {
    if before == "" {
      assert before + rest == rest;
    } else {
      assert (before + rest)[1..] == before[1..] + rest;
      assert (before + rest)[0] == before[0] && before[0] in before;
      hide FieldAt;
      KeyStartsWithQuote(before + rest);
      NoKeyBefore(before[1..], rest);
    }
  }

  lemma ValueFound(s: string, after: string)
    requires Closes(after)
    ensures ValueAt(EncodeBody(s) + "\"" + after) == Some(Sanitize(s))
  {
    DecodesEncoded(s, after);
    hide Closes, Lenient, EncodeBody, Sanitize;
    assert (EncodeBody(s) + "\"" + after)[|EncodeBody(s)| + 1..] == after;
  }

  /** The field is found behind any text without quotes, with any blanks around its colon
      and any closing text behind its value. */
  lemma FieldFound(before: string, blanks1: string, blanks2: string, s: string, after: string)
    requires '"' !in before && Closes(after)
    requires forall i :: 0 <= i < |blanks1| ==> blanks1[i] in " \t\r\n"
    requires forall i :: 0 <= i < |blanks2| ==> blanks2[i] in " \t\r\n"
    ensures Field(before + (KEY + (blanks1 + (":" + (blanks2 + (EncodeString(s) + after)))))) == Some(Sanitize(s))
  {
    hide Closes, EncodeBody, Sanitize, Lenient, Field, FieldAt, StartsKey, SkipBlanks, ValueAt;
    var quote := EncodeString(s) + after;
    var colon := ":" + (blanks2 + quote);
    var rest := KEY + (blanks1 + colon);
    NoKeyBefore(before, rest);
    BlanksSkipped(blanks1, colon);
    BlanksSkipped(blanks2, quote);
    assert quote[1..] == EncodeBody(s) + "\"" + after;
    ValueFound(s, after);
    KeyAtFront(blanks1 + colon);
    assert rest[0..] == rest;
    FieldStep(rest, 0);
    FieldParts(rest, 0);
    assert rest[|KEY|..] == blanks1 + colon;
    assert colon[1..] == blanks2 + quote;
  }

  lemma KeyAtFront(rest: string)
    ensures StartsKey(KEY + rest)
  {
    assert (KEY + rest)[..|KEY|] == KEY;
  }

  // ------------------------------------------------------------ the whole parser

  datatype Parsed = Ok(text: string) | Empty | Invalid

  /** parseEditorialPayloadV1 at depth 0. otherwise stands for its later attempts: a fence,
      a strict JSON document, a document inside prose. */
  function Payload(text: string, otherwise: string -> Option<string>): Option<string> {
    var t := TrimBytes(text);
    if t == "" then Some("")
    else if Field(t).Some? then Field(t)
    else otherwise(t)
  }

  /** looksLikeJSONDocumentV1 */
  predicate LooksLikeJson(text: string) {
    var t := TrimBytes(text);
    t != "" && (t[0] == '{' || t[0] == '[' || t[0] == '"' || (OccursAt(t, "```", 0) && '{' in t))
  }

  function Finish(value: string): Parsed {
    if Layout.Normalize(value) == "" then Empty else Ok(Layout.Normalize(value))
  }

  /** ParseEditorialMarkdownV1 */
  function Parse(raw: string, otherwise: string -> Option<string>): Parsed {
    var text := TrimBytes(raw);
    if text == "" then Empty
    else
      match Payload(text, otherwise)
      case Some(value) => Finish(value)
      case None => if LooksLikeJson(text) then Invalid else Finish(text)
  }

  /** NormalizeEditorialMarkdownV1, the read path */
  function Read(raw: string, otherwise: string -> Option<string>): string {
    if TrimBytes(raw) == "" then ""
    else
      var parsed := Parse(raw, otherwise);
      if parsed.Ok? then parsed.text else Layout.Normalize(raw)
  }

  method ParseEditorial(raw: string, otherwise: string -> Option<string>) returns (p: Parsed)
    ensures p == Parse(raw, otherwise)
  {
    hide Field, LooksLikeJson, TrimBytes, Layout.Normalize;
    var text := TrimBytes(raw);
    if text == "" {
      return Empty;
    }
    TrimTwice(raw);
    var value, found := ParseLenientField(text);
    if !found {
      var later := otherwise(text);
      if later.Some? {
        value := later.value;
      } else {
        if LooksLikeJson(text) {
          return Invalid;
        }
        value := text;
      }
    }
    value := Layout.NormalizeText(value);
    p := if value == "" then Empty else Ok(value);
  }

  /** {"editorial": s} */
  function Envelope(s: string): string { "{\"editorial\":" + EncodeString(s) + "}" }

  lemma EnvelopeIsTrim(s: string)
    ensures TrimBytes(Envelope(s)) == Envelope(s)
  {
    hide EncodeString;
    var e := Envelope(s);
    assert e[0] == '{' && e[|e| - 1] == '}';
  }

  lemma BraceCloses()
    ensures Closes("}")
  {
  }

  lemma Shape(v: string)
    ensures "{\"editorial\":" + v + "}" == "{" + (KEY + ("" + (":" + ("" + (v + "}")))))
  {
    var rest := v + "}";
    assert "" + rest == rest && "" + (":" + rest) == ":" + rest;
    Regroup("{", KEY, ":", rest);
    assert "{\"editorial\":" == ("{" + KEY) + ":";
    hide KEY;
    assert ("{\"editorial\":" + v) + "}" == "{\"editorial\":" + rest;
  }

  lemma Regroup(a: string, b: string, c: string, d: string)
    ensures ((a + b) + c) + d == a + (b + (c + d))
  {
  }

  lemma EnvelopeField(s: string)
    ensures Field(Envelope(s)) == Some(Sanitize(s))
  {
    BraceCloses();
    FieldFound("{", "", "", s, "}");
    Shape(EncodeString(s));
    hide EncodeString, Field, Sanitize, Closes;
  }

  /** Whatever the later attempts would do, the JSON envelope of s parses to the normalised
      s, error bytes replaced, and is refused as empty exactly when nothing of s is left. */
  lemma EnvelopeParses(s: string, otherwise: string -> Option<string>)
    ensures Parse(Envelope(s), otherwise) == Finish(Sanitize(s))
    ensures Valid(s) ==> Parse(Envelope(s), otherwise) == Finish(s)
  {
    EnvelopeIsTrim(s);
    EnvelopeField(s);
    SanitizeIsId(s);
    assert Envelope(s) != "";
    hide Envelope, Field, TrimBytes, Sanitize, Valid, Finish, LooksLikeJson;
  }

  /** The three ways of reading a text, in their order, and what is refused: a text that no way
      reads, and that begins like JSON or, with a brace in it, like a code fence. */
  lemma ParseExactly(raw: string, otherwise: string -> Option<string>)
    ensures var t := TrimBytes(raw);
            Parse(raw, otherwise)
            == if t == "" then Empty
               else if Field(t).Some? then Finish(Field(t).value)
               else if otherwise(t).Some? then Finish(otherwise(t).value)
               else if t[0] in "{[\"" || ("```" <= t && '{' in t) then Invalid
               else Finish(t)
  {
    hide TrimBytes, Field, Finish;
    var t := TrimBytes(raw);
    TrimTwice(raw);
    FenceOccurs(t);
  }

  lemma FenceOccurs(t: string)
    ensures OccursAt(t, "```", 0) <==> "```" <= t
  {
  }

  /** A parsed text is a fixed point of the normaliser, and the read path returns a stored
      text unchanged unless the text is itself an envelope. */
  lemma StoredIsStable(raw: string, otherwise: string -> Option<string>)
    requires Parse(raw, otherwise).Ok?
    ensures var stored := Parse(raw, otherwise).text;
            && stored != "" && Layout.Normalize(stored) == stored
            && (Field(stored).None? && otherwise(stored).None? ==> Read(stored, otherwise) == stored)
  {
    var text := TrimBytes(raw);
    var payload := Payload(text, otherwise);
    var value := if payload.Some? then payload.value else text;
    hide Field, LooksLikeJson;
    Layout.NormalizeTwice(value);
    TrimTwice(Layout.Decoded(false, Layout.DropCr(Layout.Chars.Unix(value))));
    hide TrimBytes;
    assert TrimBytes(Layout.Normalize(value)) == Layout.Normalize(value);
    hide Layout.Normalize;
  }

  // ------------------------------------------------------------ bracket scanner

  datatype Mode = Outside | InString | Escaped

  function Shift(n: nat, r: Option<nat>): Option<nat> {
    if r.None? then None else Some(n + r.value)
  }

  predicate Opens(c: char) { c == '{' || c == '[' }

  predicate Matches(open: char, close: char) { (close == '}' && open == '{') || (close == ']' && open == '[') }

  /** How many bytes of rest it takes to close every bracket of the stack; None when
      brackets do not match or the text ends. */
  function Scan(rest: string, stack: string, mode: Mode): (r: Option<nat>)
    ensures r.Some? ==> 0 < r.value <= |rest|
    decreases rest
  {
    if rest == "" then None
    else
      var c := rest[0];
      if mode.Escaped? then Shift(1, Scan(rest[1..], stack, InString))
      else if mode.InString? then
        Shift(1, Scan(rest[1..], stack, if c == '\\' then Escaped else if c == '"' then Outside else InString))
      else if c == '"' then Shift(1, Scan(rest[1..], stack, InString))
      else if Opens(c) then Shift(1, Scan(rest[1..], stack + [c], Outside))
      else if c != '}' && c != ']' then Shift(1, Scan(rest[1..], stack, Outside))
      else if stack == "" || !Matches(stack[|stack| - 1], c) then None
      else if |stack| == 1 then Some(1)
      else Shift(1, Scan(rest[1..], stack[..|stack| - 1], Outside))
  }

  /** balancedJSONCandidateV1; valid is json.Valid. */
  method BalancedCandidate(text: string, start: int, valid: string -> bool)
    returns (candidate: string, end: int, ok: bool)
    ensures ok <==>
            && 0 <= start < |text| && Opens(text[start])
            && Scan(text[start..], "", Outside).Some?
            && valid(text[start..start + Scan(text[start..], "", Outside).value])
    ensures ok ==> end == start + Scan(text[start..], "", Outside).value && candidate == text[start..end]
  {
    hide Scan;
    if start < 0 || start >= |text| || !Opens(text[start]) {
      return "", start, false;
    }
    var stack, inString, escaped := "", false, false;
    var index := start;
    ghost var whole := Scan(text[start..], "", Outside);
    while index < |text|
      invariant start <= index <= |text|
      invariant escaped ==> inString
      invariant whole == Shift(index - start, Scan(text[index..], stack,
                                                 if escaped then Escaped else if inString then InString else Outside))
    {
      var ch := text[index];
      ScanAt(text, index, stack, if escaped then Escaped else if inString then InString else Outside);
      if inString {
        if escaped {
          escaped := false;
        } else if ch == '\\' {
          escaped := true;
        } else if ch == '"' {
          inString := false;
        }
      } else if ch == '"' {
        inString := true;
      } else if Opens(ch) {
        stack := stack + [ch];
      } else if ch == '}' || ch == ']' {
        if stack == "" || !Matches(stack[|stack| - 1], ch) {
          return "", index, false;
        }
        stack := stack[..|stack| - 1];
        if stack == "" {
          candidate := text[start..index + 1];
          if valid(candidate) {
            return candidate, index + 1, true;
          }
          return "", index + 1, false;
        }
      }
      index := index + 1;
    }
    ScanEnd(text[index..], stack, if escaped then Escaped else if inString then InString else Outside);
    return "", |text|, false;
  }

  lemma ScanEnd(rest: string, stack: string, mode: Mode)
    requires rest == ""
    ensures Scan(rest, stack, mode) == None
  {
  }

  lemma ScanAt(text: string, index: nat, stack: string, mode: Mode)
    requires index < |text|
    ensures var c := text[index];
            Scan(text[index..], stack, mode) ==
            if mode.Escaped? then Shift(1, Scan(text[index + 1..], stack, InString))
            else if mode.InString? then
              Shift(1, Scan(text[index + 1..], stack,
                                             if c == '\\' then Escaped else if c == '"' then Outside else InString))
            else if c == '"' then Shift(1, Scan(text[index + 1..], stack, InString))
            else if Opens(c) then Shift(1, Scan(text[index + 1..], stack + [c], Outside))
            else if c != '}' && c != ']' then Shift(1, Scan(text[index + 1..], stack, Outside))
            else if stack == "" || !Matches(stack[|stack| - 1], c) then None
            else if |stack| == 1 then Some(1)
            else Shift(1, Scan(text[index + 1..], stack[..|stack| - 1], Outside))
  {
    assert text[index..][1..] == text[index + 1..];
  }

  lemma {:induction false} ScanPlain(plain: string, tail: string, stack: string)
    requires forall i :: 0 <= i < |plain| ==> plain[i] != '"' && plain[i] != '\\'
    ensures Scan(plain + tail, stack, InString) == Shift(|plain|, Scan(tail, stack, InString))
  {
    if plain == "" {
      assert plain + tail == tail;
    } else {
      assert (plain + tail)[1..] == plain[1..] + tail;
      ScanPlain(plain[1..], tail, stack);
    }
  }

  /** An encoded character is one escape of two bytes and harmless bytes behind it, or
      harmless bytes only. */
  lemma FirstIsHarmless(s: string)
    requires s != ""
    ensures var e := EncodeFirst(s).0;
            var k := if e[0] == '\\' then 2 else 0;
            k <= |e| && forall i :: k <= i < |e| ==> e[i] != '"' && e[i] != '\\'
  {
    FirstSize(s);
  }

  lemma ScanFirst(s: string, tail: string, stack: string)
    requires s != ""
    ensures Scan(EncodeFirst(s).0 + tail, stack, InString) == Shift(|EncodeFirst(s).0|, Scan(tail, stack, InString))
  {
    hide EncodeFirst;
    var e := EncodeFirst(s).0;
    FirstSize(s);
    FirstIsHarmless(s);
    if e[0] == '\\' {
      ScanEscape(e + tail, stack);
      hide Scan;
      assert (e + tail)[2..] == e[2..] + tail;
      ScanPlain(e[2..], tail, stack);
    } else {
      ScanPlain(e, tail, stack);
    }
  }

  lemma ScanEscape(rest: string, stack: string)
    requires |rest| >= 2 && rest[0] == '\\'
    ensures Scan(rest, stack, InString) == Shift(2, Scan(rest[2..], stack, InString))
  {
    assert rest[1..][1..] == rest[2..];
  }

  lemma ScanStep(s: string, tail: string, stack: string)
    requires s != ""
    ensures |EncodeBody(s)| == |EncodeFirst(s).0| + |EncodeBody(s[EncodeFirst(s).1..])|
    ensures Scan(EncodeBody(s) + tail, stack, InString)
            == Shift(|EncodeFirst(s).0|, Scan(EncodeBody(s[EncodeFirst(s).1..]) + tail, stack, InString))
  {
    hide Scan, Shift, EncodeFirst;
    var first, rest := EncodeFirst(s).0, EncodeBody(s[EncodeFirst(s).1..]);
    ScanFirst(s, rest + tail, stack);
    assert EncodeBody(s) + tail == first + (rest + tail);
  }

  lemma ScanClosingQuote(tail: string, stack: string)
    ensures Scan(EncodeBody("") + ("\"" + tail), stack, InString) == Shift(1, Scan(tail, stack, Outside))
  {
    assert EncodeBody("") + ("\"" + tail) == "\"" + tail;
    assert ("\"" + tail)[1..] == tail;
  }

  /** The scanner passes over an encoded string, whatever brackets, quotes and backslashes
      the string holds. */
  lemma {:induction false} ScanSkipsString(s: string, tail: string, stack: string)
    ensures Scan(EncodeBody(s) + ("\"" + tail), stack, InString)
            == Shift(|EncodeBody(s)| + 1, Scan(tail, stack, Outside))
  {
    if s == "" {
      hide Scan;
      ScanClosingQuote(tail, stack);
    } else {
      hide Scan, EncodeFirst, EncodeBody;
      ScanSkipsString(s[EncodeFirst(s).1..], tail, stack);
      ScanStep(s, "\"" + tail, stack);
    }
  }

  /** Inside any text, the balanced candidate that starts at an envelope is the envelope. */
  lemma EnvelopeIsCandidate(s: string, after: string)
    ensures Scan(Envelope(s) + after, "", Outside) == Some(|Envelope(s)|)
  {
    hide EncodeBody, Scan;
    var body := EncodeBody(s) + ("\"" + ("}" + after));
    var text := Envelope(s) + after;
    assert text == "{" + (KEY + (":" + ("\"" + body))) by {
      assert "{\"editorial\":" == "{" + (KEY + ":");
    }
    ScanSkipsString(s, "}" + after, "{");
    CloseBrace(after);
    OpenEnvelope(body);
  }

  lemma CloseBrace(after: string)
    ensures Scan("}" + after, "{", Outside) == Some(1)
  {
  }

  lemma OpenValue(body: string)
    ensures Scan(":" + ("\"" + body), "{", Outside) == Shift(2, Scan(body, "{", InString))
  {
    assert (":" + ("\"" + body))[1..] == "\"" + body;
    assert ("\"" + body)[1..] == body;
  }

  lemma OpenKey(value: string)
    ensures Scan(KEY + value, "{", Outside) == Shift(11, Scan(value, "{", Outside))
  {
    var closing := "\"" + value;
    var key := "editorial" + closing;
    assert KEY + value == "\"" + key;
    assert ("\"" + key)[1..] == key;
    ScanPlain("editorial", closing, "{");
    assert closing[1..] == value;
    assert Scan(closing, "{", InString) == Shift(1, Scan(value, "{", Outside));
  }

  lemma OpenBrace(rest: string)
    ensures Scan("{" + rest, "", Outside) == Shift(1, Scan(rest, "{", Outside))
  {
    assert ("{" + rest)[1..] == rest;
    assert "" + ['{'] == "{";
  }

  lemma OpenEnvelope(body: string)
    ensures Scan("{" + (KEY + (":" + ("\"" + body))), "", Outside) == Shift(14, Scan(body, "{", InString))
  {
    hide Scan;
    var value := ":" + ("\"" + body);
    OpenBrace(KEY + value);
    OpenKey(value);
    OpenValue(body);
  }

  /** The candidate depends on nothing behind it. */
  lemma {:induction false} CandidateIsLocal(rest: string, stack: string, mode: Mode, other: string)
    requires Scan(rest, stack, mode).Some?
    ensures var n := Scan(rest, stack, mode).value;
            Scan(rest[..n] + other, stack, mode) == Some(n)
    decreases rest
  {
    var n := Scan(rest, stack, mode).value;
    var c := rest[0];
    assert (rest[..n] + other)[0] == c;
    var stack', mode' :=
      if mode.Outside? && Opens(c) then stack + [c]
      else if mode.Outside? && (c == '}' || c == ']') then stack[..|stack| - 1] else stack,
      if mode.Escaped? then InString
      else if mode.InString? then if c == '\\' then Escaped else if c == '"' then Outside else InString
      else if c == '"' then InString else Outside;
    if !(mode.Outside? && (c == '}' || c == ']') && |stack| == 1) {
      CandidateIsLocal(rest[1..], stack', mode', other);
      assert (rest[..n] + other)[1..] == rest[1..][..n - 1] + other;
    }
  }
}
