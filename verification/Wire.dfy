/** A reader of JSON text in the sense of section 7 of RFC 8259, without white space between
    tokens, and what it makes of the responses that the sandbox sends
    (sandbox/protocol.go, sandbox/server.go:373-391). */
module Wire {
  import opened Text
  import opened Utf8
  import opened Json
  import Editorial

  datatype Value = Null | Flag(flag: bool) | Num(number: int) | Str(text: string) | Arr(items: seq<Value>)
                 | Obj(fields: map<string, Value>)

  datatype Reading<T> = Read(value: T, rest: string) | Malformed

  // -------------------------------------------------------------------- the reader

  predicate IsDigit(c: char) { '0' <= c <= '9' }

  function DigitRun(text: string): (n: nat)
    ensures n <= |text| && forall i | 0 <= i < n :: IsDigit(text[i])
  {
    if text != "" && IsDigit(text[0]) then 1 + DigitRun(text[1..]) else 0
  }

  function ValueOf(digits: string): nat
    requires forall i | 0 <= i < |digits| :: IsDigit(digits[i])
  {
    if digits == "" then 0
    else
      var last := digits[|digits| - 1];
      assert IsDigit(last);
      ValueOf(digits[..|digits| - 1]) * 10 + (last as int - '0' as int)
  }

  function ReadNumber(text: string): (r: Reading<Value>)
    ensures r.Read? ==> |r.rest| < |text|
  {
    var sign := if text != "" && text[0] == '-' then 1 else 0;
    var n := DigitRun(text[sign..]);
    if n == 0 then Malformed
    else
      var magnitude: int := ValueOf(text[sign..][..n]);
      Read(Num(if sign == 1 then -magnitude else magnitude), text[sign + n..])
  }

  function ReadString(text: string): (r: Reading<string>)
    ensures r.Read? ==> |r.rest| < |text|
  {
    if text == "" || text[0] != '"' then Malformed
    else
      match Editorial.Lenient(text[1..])
      case Bad => Malformed
      case Done(value, used) => Read(value, text[1..][used..])
  }

  function ReadWord(text: string, word: string, meaning: Value): (r: Reading<Value>)
    requires word != ""
    ensures r.Read? ==> |r.rest| < |text|
  {
    if word <= text then Read(meaning, text[|word|..]) else Malformed
  }

  function ReadValue(text: string): (r: Reading<Value>)
    ensures r.Read? ==> |r.rest| < |text|
    decreases |text|, 1
  {
    if text == "" then Malformed
    else if text[0] == '"' then
      match ReadString(text)
      case Read(s, rest) => Read(Str(s), rest)
      case Malformed => Malformed
    else if text[0] == '{' then
      if |text| > 1 && text[1] == '}' then Read(Obj(map[]), text[2..])
      else
        match ReadMembers(text[1..])
        case Read(fields, rest) => Read(Obj(fields), rest)
        case Malformed => Malformed
    else if text[0] == '[' then
      if |text| > 1 && text[1] == ']' then Read(Arr([]), text[2..])
      else
        match ReadItems(text[1..])
        case Read(items, rest) => Read(Arr(items), rest)
        case Malformed => Malformed
    else if text[0] == 't' then ReadWord(text, "true", Flag(true))
    else if text[0] == 'f' then ReadWord(text, "false", Flag(false))
    else if text[0] == 'n' then ReadWord(text, "null", Null)
    else ReadNumber(text)
  }

  /** Members up to the closing brace; of two with one key the later one counts. */
  function ReadMembers(text: string): (r: Reading<map<string, Value>>)
    ensures r.Read? ==> |r.rest| < |text|
    decreases |text|, 0
  {
    match ReadString(text)
    case Malformed => Malformed
    case Read(key, behind) =>
      if behind == "" || behind[0] != ':' then Malformed
      else
        match ReadValue(behind[1..])
        case Malformed => Malformed
        case Read(value, rest) =>
          if rest != "" && rest[0] == '}' then Read(map[key := value], rest[1..])
          else if rest != "" && rest[0] == ',' then
            match ReadMembers(rest[1..])
            case Malformed => Malformed
            case Read(more, end) => Read(map[key := value] + more, end)
          else Malformed
  }

  /** Values up to the closing bracket. */
  function ReadItems(text: string): (r: Reading<seq<Value>>)
    ensures r.Read? ==> |r.rest| < |text|
    decreases |text|, 2
  {
    match ReadValue(text)
    case Malformed => Malformed
    case Read(value, rest) =>
      if rest != "" && rest[0] == ']' then Read([value], rest[1..])
      else if rest != "" && rest[0] == ',' then
        match ReadItems(rest[1..])
        case Malformed => Malformed
        case Read(more, end) => Read([value] + more, end)
      else Malformed
  }

  // ------------------------------------------------------- fields, zero when absent

  function TextAt(v: Value, key: string): string {
    if v.Obj? && key in v.fields && v.fields[key].Str? then v.fields[key].text else ""
  }

  function NumberAt(v: Value, key: string): int {
    if v.Obj? && key in v.fields && v.fields[key].Num? then v.fields[key].number else 0
  }

  function FlagAt(v: Value, key: string): bool { v.Obj? && key in v.fields && v.fields[key] == Flag(true) }

  function At(v: Value, key: string): Value { if v.Obj? && key in v.fields then v.fields[key] else Null }

  function AuditFrom(v: Value): Audit {
    Audit(TextAt(v, "run_id"), TextAt(v, "manifest_digest"), NumberAt(v, "seed"), TextAt(v, "limit_profile"),
          TextAt(v, "profile"), TextAt(v, "image_digest"), TextAt(v, "toolchain_manifest_digest"),
          TextAt(v, "seccomp_policy_digest"))
  }

  function CompileFrom(v: Value): CompileResponse {
    CompileResponse(TextAt(v, "version"), TextAt(v, "language"), FlagAt(v, "success"), TextAt(v, "stdout"),
                    TextAt(v, "stderr"), NumberAt(v, "duration_ms"), TextAt(v, "toolchain"),
                    TextAt(v, "sandbox_revision"), AuditFrom(At(v, "audit")))
  }

  function CaseFrom(v: Value): CaseResult {
    CaseResult(NumberAt(v, "index"), TextAt(v, "verdict"), TextAt(v, "stdout"), TextAt(v, "stderr"),
               NumberAt(v, "exit_code"), NumberAt(v, "time_ms"), NumberAt(v, "memory_bytes"), TextAt(v, "signal"))
  }

  function CasesFrom(items: seq<Value>): seq<CaseResult> {
    seq(|items|, i requires 0 <= i < |items| => CaseFrom(items[i]))
  }

  function ExecuteFrom(v: Value): ExecuteResponse {
    var results := At(v, "results");
    ExecuteResponse(TextAt(v, "version"), CompileFrom(At(v, "compile")),
                    if results.Arr? then List(CasesFrom(results.items)) else Nil, AuditFrom(At(v, "audit")))
  }

  // ------------------------------------------- the response with error bytes replaced

  function CleanAudit(a: Audit): Audit {
    Audit(Sanitize(a.runId), Sanitize(a.manifestDigest), a.seed, Sanitize(a.limitProfile), Sanitize(a.profile),
          Sanitize(a.imageDigest), Sanitize(a.toolchainManifestDigest), Sanitize(a.seccompPolicyDigest))
  }

  function CleanCompile(r: CompileResponse): CompileResponse {
    CompileResponse(Sanitize(r.version), Sanitize(r.language), r.success, Sanitize(r.stdout), Sanitize(r.stderr),
                    r.durationMs, Sanitize(r.toolchain), Sanitize(r.sandboxRevision), CleanAudit(r.audit))
  }

  function CleanCase(c: CaseResult): CaseResult {
    CaseResult(c.index, Sanitize(c.verdict), Sanitize(c.stdout), Sanitize(c.stderr), c.exitCode, c.timeMs,
               c.memoryBytes, Sanitize(c.signal))
  }

  function CleanCases(cs: seq<CaseResult>): seq<CaseResult> {
    seq(|cs|, i requires 0 <= i < |cs| => CleanCase(cs[i]))
  }

  function CleanExecute(r: ExecuteResponse): ExecuteResponse {
    ExecuteResponse(Sanitize(r.version), CleanCompile(r.compile),
                    if r.results.Nil? then Nil
                    else List(CleanCases(r.results.cases)),
                    CleanAudit(r.audit))
  }

  // ------------------------------------------------------------------ single tokens

  predicate EndsNumber(tail: string) { tail == "" || !IsDigit(tail[0]) }

  lemma {:induction false} RunEnds(digits: string, tail: string)
    requires (forall i | 0 <= i < |digits| :: IsDigit(digits[i])) && EndsNumber(tail)
    ensures DigitRun(digits + tail) == |digits|
  {
    if digits == "" {
      assert digits + tail == tail;
    } else {
      assert (digits + tail)[1..] == digits[1..] + tail;
      RunEnds(digits[1..], tail);
    }
  }

  lemma {:induction false} DecimalValue(n: nat)
    ensures ValueOf(Decimal(n)) == n
  {
    if n >= 10 {
      DecimalValue(n / 10);
      var front := Decimal(n / 10);
      assert Decimal(n)[..|Decimal(n)| - 1] == front;
    } else {
      assert Decimal(n)[..0] == "";
    }
  }

  lemma DigitsRead(n: nat, tail: string)
    requires EndsNumber(tail)
    ensures var text := Decimal(n) + tail;
            && DigitRun(text) == |Decimal(n)| && text[..|Decimal(n)|] == Decimal(n) && text[|Decimal(n)|..] == tail
            && Decimal(n) != "" && IsDigit(text[0]) && ValueOf(Decimal(n)) == n
  {
    DecimalValue(n);
    RunEnds(Decimal(n), tail);
    hide ValueOf, DigitRun, Decimal;
  }

  lemma NumberIsUnsigned(text: string, digits: nat, n: nat, tail: string)
    requires text != "" && IsDigit(text[0]) && DigitRun(text) == digits > 0
    requires ValueOf(text[..digits]) == n && text[digits..] == tail
    ensures ReadValue(text) == Read(Num(n), tail)
  {
    hide ValueOf, DigitRun;
    assert text[0..] == text;
  }

  lemma NumberIsSigned(text: string, digits: nat, n: int, tail: string)
    requires text != "" && DigitRun(text) == digits > 0 && ValueOf(text[..digits]) == n && text[digits..] == tail
    ensures ReadValue("-" + text) == Read(Num(-n), tail)
  {
    hide ValueOf, DigitRun;
    assert ("-" + text)[1..] == text && ("-" + text)[1 + digits..] == text[digits..];
  }

  lemma NumberReads(n: int, tail: string)
    requires EndsNumber(tail)
    ensures ReadValue(Number(n) + tail) == Read(Num(n), tail)
  {
    hide ReadValue, ValueOf, DigitRun, Decimal;
    if n < 0 {
      DigitsRead(-n, tail);
      NumberIsSigned(Decimal(-n) + tail, |Decimal(-n)|, -n, tail);
      Associates("-", Decimal(-n), tail);
    } else {
      DigitsRead(n, tail);
      NumberIsUnsigned(Decimal(n) + tail, |Decimal(n)|, n, tail);
    }
  }

  lemma StringReads(s: string, tail: string)
    ensures ReadString(EncodeString(s) + tail) == Read(Sanitize(s), tail)
    ensures ReadValue(EncodeString(s) + tail) == Read(Str(Sanitize(s)), tail)
  {
    Editorial.DecodesEncoded(s, tail);
    hide EncodeBody, Sanitize, Editorial.Lenient;
    var text := EncodeString(s) + tail;
    assert text[0] == '"' && text[1..] == EncodeBody(s) + "\"" + tail;
    assert text[1..][|EncodeBody(s)| + 1..] == tail;
  }

  lemma BoolReads(b: bool, tail: string)
    ensures ReadValue(Bool(b) + tail) == Read(Flag(b), tail)
  {
    var text := Bool(b) + tail;
    assert text[..|Bool(b)|] == Bool(b) && text[|Bool(b)|..] == tail && text[0] == Bool(b)[0];
  }

  /** A key of letters and underscores is read as it stands. */
  lemma {:induction false} PlainReads(key: string, tail: string)
    requires forall i | 0 <= i < |key| :: 'a' <= key[i] <= 'z' || key[i] == '_'
    ensures Editorial.Lenient(key + ("\"" + tail)) == Editorial.Done(key, |key| + 1)
  {
    var text := key + ("\"" + tail);
    if key == "" {
      assert text[0] == '"';
    } else {
      PlainReads(key[1..], tail);
      assert text[1..] == key[1..] + ("\"" + tail);
      assert [key[0]] + key[1..] == key;
    }
  }

  predicate Plain(key: string) { forall i | 0 <= i < |key| :: 'a' <= key[i] <= 'z' || key[i] == '_' }

  function Keyed(key: string): string { "\"" + key + "\":" }

  lemma KeyReads(key: string, tail: string)
    requires Plain(key)
    ensures ReadString(Keyed(key) + tail) == Read(key, ":" + tail)
  {
    PlainReads(key, ":" + tail);
    hide Editorial.Lenient;
    var text := Keyed(key) + tail;
    assert text[0] == '"' && text[1..] == key + ("\"" + (":" + tail));
    assert text[1..][|key| + 1..] == ":" + tail;
  }

  // ------------------------------------------------------------------ single members

  lemma LastMember(key: string, encoded: string, value: Value, tail: string)
    requires Plain(key) && ReadValue(encoded + ("}" + tail)) == Read(value, "}" + tail)
    ensures ReadMembers(Keyed(key) + (encoded + ("}" + tail))) == Read(map[key := value], tail)
  {
    hide ReadValue, ReadString, Keyed, Plain;
    KeyReads(key, encoded + ("}" + tail));
    assert (":" + (encoded + ("}" + tail)))[1..] == encoded + ("}" + tail);
    assert ("}" + tail)[1..] == tail;
  }

  lemma NextMember(key: string, encoded: string, value: Value, next: string, more: map<string, Value>, end: string)
    requires Plain(key) && ReadValue(encoded + ("," + next)) == Read(value, "," + next)
    requires ReadMembers(next) == Read(more, end)
    ensures ReadMembers(Keyed(key) + (encoded + ("," + next))) == Read(map[key := value] + more, end)
  {
    hide ReadValue, ReadString, Keyed, Plain;
    KeyReads(key, encoded + ("," + next));
    assert (":" + (encoded + ("," + next)))[1..] == encoded + ("," + next);
    assert ("," + next)[1..] == next;
  }

  lemma ObjectReads(members: string, fields: map<string, Value>, tail: string)
    requires ReadMembers(members) == Read(fields, tail) && members != "" && members[0] == '"'
    ensures ReadValue("{" + members) == Read(Obj(fields), tail)
  {
    hide ReadMembers;
    assert ("{" + members)[1..] == members;
  }

  // ------------------------------------------------------------------------ objects

  /** One member of an object: its key, its encoding, and what that is read as. */
  datatype Field = Field(key: string, encoded: string, value: Value)

  function TextField(key: string, s: string): Field { Field(key, EncodeString(s), Str(Sanitize(s))) }

  function NumberField(key: string, n: int): Field { Field(key, Number(n), Num(n)) }

  /** The opened object: everything up to the closing brace. */
  function Opened(fs: seq<Field>): string
    requires fs != []
  {
    var last := fs[|fs| - 1];
    if |fs| == 1 then FirstKey(last.key) + last.encoded
    else Opened(fs[..|fs| - 1]) + NextKey(last.key) + last.encoded
  }

  function FieldMap(fs: seq<Field>): map<string, Value> {
    if fs == [] then map[] else FieldMap(fs[..|fs| - 1]) + map[fs[|fs| - 1].key := fs[|fs| - 1].value]
  }

  ghost predicate Reads(encoded: string, value: Value) {
    forall tail | EndsNumber(tail) :: ReadValue(encoded + tail) == Read(value, tail)
  }

  ghost predicate FieldsRead(fs: seq<Field>) {
    forall i | 0 <= i < |fs| :: Plain(fs[i].key) && Reads(fs[i].encoded, fs[i].value)
  }

  lemma OpenedGrows(fs: seq<Field>, f: Field)
    requires fs != []
    ensures Opened(fs + [f]) == Opened(fs) + NextKey(f.key) + f.encoded
  {
    assert (fs + [f])[..|fs + [f]| - 1] == fs;
  }

  lemma OneOpened(fs: seq<Field>, text: string)
    requires |fs| == 1
    ensures Opened(fs) + text == "{" + (Keyed(fs[0].key) + (fs[0].encoded + text))
    ensures FieldMap(fs) == map[fs[0].key := fs[0].value]
  {
    hide Keyed, FirstKey, NextKey;
    KeysAreKeyed(fs[0].key);
    assert fs[..|fs| - 1] == [];
  }

  lemma ManyOpened(fs: seq<Field>, text: string)
    requires |fs| > 1
    ensures var front, last := fs[..|fs| - 1], fs[|fs| - 1];
            && Opened(fs) + text == Opened(front) + ("," + (Keyed(last.key) + (last.encoded + text)))
            && FieldMap(fs) == FieldMap(front) + map[last.key := last.value]
  {
    hide Keyed, FirstKey, NextKey;
    KeysAreKeyed(fs[|fs| - 1].key);
  }

  lemma MapsAssociate(a: map<string, Value>, b: map<string, Value>, c: map<string, Value>)
    ensures (a + b) + c == a + (b + c)
  {
  }

  /** Members that are read behind the opened object are read with its own. */
  lemma {:induction false} OpenedReads(fs: seq<Field>, next: string, more: map<string, Value>, end: string)
    requires fs != [] && FieldsRead(fs) && ReadMembers(next) == Read(more, end)
    ensures (Opened(fs) + ("," + next))[0] == '{'
    ensures ReadMembers((Opened(fs) + ("," + next))[1..]) == Read(FieldMap(fs) + more, end)
  {
    hide ReadMembers, ReadValue, Keyed, Plain, Opened, FieldMap;
    var front, last := fs[..|fs| - 1], fs[|fs| - 1];
    assert Reads(last.encoded, last.value) && EndsNumber("," + next);
    NextMember(last.key, last.encoded, last.value, next, more, end);
    var own := Keyed(last.key) + (last.encoded + ("," + next));
    if |fs| == 1 {
      OneOpened(fs, "," + next);
      assert ("{" + own)[1..] == own;
    } else {
      OpenedReads(front, own, map[last.key := last.value] + more, end);
      ManyOpened(fs, "," + next);
      MapsAssociate(FieldMap(front), map[last.key := last.value], more);
    }
  }

  lemma ClosedReads(fs: seq<Field>, tail: string)
    requires fs != [] && FieldsRead(fs)
    ensures ReadValue(Opened(fs) + "}" + tail) == Read(Obj(FieldMap(fs)), tail)
  {
    hide ReadMembers, ReadValue, Keyed, Plain, Opened, FieldMap;
    var last := fs[|fs| - 1];
    assert Reads(last.encoded, last.value) && EndsNumber("}" + tail);
    LastMember(last.key, last.encoded, last.value, tail);
    if |fs| == 1 {
      OnlyMember(fs, tail);
    } else {
      LastOfMany(fs, tail);
    }
  }

  lemma OnlyMember(fs: seq<Field>, tail: string)
    requires |fs| == 1
    requires ReadMembers(Keyed(fs[0].key) + (fs[0].encoded + ("}" + tail))) == Read(map[fs[0].key := fs[0].value], tail)
    ensures ReadValue(Opened(fs) + "}" + tail) == Read(Obj(FieldMap(fs)), tail)
  {
    hide ReadMembers, ReadValue, Keyed, Opened, FieldMap;
    OneOpened(fs, "}" + tail);
    Associates(Opened(fs), "}", tail);
    KeyedStarts(fs[0].key, fs[0].encoded + ("}" + tail));
    ObjectReads(Keyed(fs[0].key) + (fs[0].encoded + ("}" + tail)), FieldMap(fs), tail);
  }

  lemma LastOfMany(fs: seq<Field>, tail: string)
    requires |fs| > 1 && FieldsRead(fs[..|fs| - 1])
    requires var last := fs[|fs| - 1];
             ReadMembers(Keyed(last.key) + (last.encoded + ("}" + tail))) == Read(map[last.key := last.value], tail)
    ensures ReadValue(Opened(fs) + "}" + tail) == Read(Obj(FieldMap(fs)), tail)
  {
    hide ReadMembers, ReadValue, Keyed, FieldsRead, Opened, FieldMap;
    var front, last := fs[..|fs| - 1], fs[|fs| - 1];
    var own := Keyed(last.key) + (last.encoded + ("}" + tail));
    OpenedReads(front, own, map[last.key := last.value], tail);
    var text := Opened(front) + ("," + own);
    ManyOpened(fs, "}" + tail);
    Associates(Opened(fs), "}", tail);
    OpenedStarts(front, "," + own);
    assert "{" + text[1..] == text;
    ObjectReads(text[1..], FieldMap(fs), tail);
  }

  lemma KeysAreKeyed(key: string)
    ensures FirstKey(key) == "{" + Keyed(key) && NextKey(key) == "," + Keyed(key)
  {
  }

  lemma KeyedStarts(key: string, tail: string)
    ensures (Keyed(key) + tail)[0] == '"'
  {
  }

  lemma {:induction false} OpenedStarts(fs: seq<Field>, tail: string)
    requires fs != []
    ensures |Opened(fs)| >= 2 && (Opened(fs) + tail)[0] == '{' && (Opened(fs) + tail)[1] == '"'
  {
    if |fs| == 1 {
      assert Opened(fs)[1] == Keyed(fs[0].key)[0];
    } else {
      OpenedStarts(fs[..|fs| - 1], "");
      assert Opened(fs[..|fs| - 1]) + "" == Opened(fs[..|fs| - 1]);
    }
  }

  lemma ObjectIsRead(fs: seq<Field>)
    requires fs != [] && FieldsRead(fs)
    ensures Reads(Opened(fs) + "}", Obj(FieldMap(fs)))
  {
    hide ReadValue, Opened, FieldMap;
    forall tail | EndsNumber(tail)
      ensures ReadValue(Opened(fs) + "}" + tail) == Read(Obj(FieldMap(fs)), tail)
    {
      ClosedReads(fs, tail);
    }
  }

  lemma TextIsRead(key: string, s: string)
    ensures Reads(TextField(key, s).encoded, TextField(key, s).value)
  {
    hide ReadValue, EncodeString, Sanitize;
    forall tail | EndsNumber(tail)
      ensures ReadValue(EncodeString(s) + tail) == Read(Str(Sanitize(s)), tail)
    {
      StringReads(s, tail);
    }
  }

  lemma NumberIsRead(key: string, n: int)
    ensures Reads(NumberField(key, n).encoded, NumberField(key, n).value)
  {
    hide ReadValue, Number;
    forall tail | EndsNumber(tail)
      ensures ReadValue(Number(n) + tail) == Read(Num(n), tail)
    {
      NumberReads(n, tail);
    }
  }

  lemma FlagIsRead(b: bool)
    ensures Reads(Bool(b), Flag(b))
  {
    hide ReadValue, Bool;
    forall tail | EndsNumber(tail)
      ensures ReadValue(Bool(b) + tail) == Read(Flag(b), tail)
    {
      BoolReads(b, tail);
    }
  }

  ghost predicate DistinctKeys(fs: seq<Field>) { forall i, j | 0 <= i < j < |fs| :: fs[i].key != fs[j].key }

  lemma {:induction false} FieldIsThere(fs: seq<Field>, i: nat)
    requires i < |fs| && DistinctKeys(fs)
    ensures fs[i].key in FieldMap(fs) && FieldMap(fs)[fs[i].key] == fs[i].value
  {
    var front := fs[..|fs| - 1];
    if i < |front| {
      assert DistinctKeys(front);
      FieldIsThere(front, i);
      assert fs[i].key != fs[|fs| - 1].key;
    }
  }

  lemma {:induction false} NoFieldThere(fs: seq<Field>, key: string)
    requires forall i | 0 <= i < |fs| :: fs[i].key != key
    ensures key !in FieldMap(fs)
  {
    if fs != [] {
      NoFieldThere(fs[..|fs| - 1], key);
    }
  }

  // --------------------------------------------------------------------- one case

  lemma FirstOpened(f: Field)
    ensures Opened([f]) == FirstKey(f.key) + f.encoded
  {
  }

  function CaseFields(c: CaseResult): seq<Field> {
    [NumberField("index", c.index)] + [TextField("verdict", c.verdict)] + [TextField("stdout", c.stdout)]
    + [TextField("stderr", c.stderr)] + [NumberField("exit_code", c.exitCode)] + [NumberField("time_ms", c.timeMs)]
    + [NumberField("memory_bytes", c.memoryBytes)] + OptionalField("signal", c.signal)
  }

  function OptionalField(key: string, s: string): seq<Field> { if s == "" then [] else [TextField(key, s)] }

  lemma CaseIsOpened(c: CaseResult)
    ensures EncodeCase(c) == Opened(CaseFields(c)) + "}"
  {
    hide EncodeString, Number, Sanitize, Opened, FirstKey, NextKey;
    var f0 := [NumberField("index", c.index)];
    FirstOpened(f0[0]);
    OpenedGrows(f0, TextField("verdict", c.verdict));
    var f1 := f0 + [TextField("verdict", c.verdict)];
    OpenedGrows(f1, TextField("stdout", c.stdout));
    var f2 := f1 + [TextField("stdout", c.stdout)];
    OpenedGrows(f2, TextField("stderr", c.stderr));
    var f3 := f2 + [TextField("stderr", c.stderr)];
    OpenedGrows(f3, NumberField("exit_code", c.exitCode));
    var f4 := f3 + [NumberField("exit_code", c.exitCode)];
    OpenedGrows(f4, NumberField("time_ms", c.timeMs));
    var f5 := f4 + [NumberField("time_ms", c.timeMs)];
    OpenedGrows(f5, NumberField("memory_bytes", c.memoryBytes));
    var f6 := f5 + [NumberField("memory_bytes", c.memoryBytes)];
    OpenedGrows(f6, TextField("signal", c.signal));
    assert f6 + [] == f6;
  }

  lemma CaseFieldsRead(c: CaseResult)
    ensures FieldsRead(CaseFields(c)) && CaseFields(c) != []
  {
    hide Reads, EncodeString, Number, Sanitize;
    NumberIsRead("index", c.index);
    TextIsRead("verdict", c.verdict);
    TextIsRead("stdout", c.stdout);
    TextIsRead("stderr", c.stderr);
    NumberIsRead("exit_code", c.exitCode);
    NumberIsRead("time_ms", c.timeMs);
    NumberIsRead("memory_bytes", c.memoryBytes);
    TextIsRead("signal", c.signal);
  }

  /** Length and fourth letter, which tell the keys of one object apart. */
  function Mark(key: string): (nat, char) { (|key|, if |key| > 3 then key[3] else ' ') }

  lemma MarksTellApart(fs: seq<Field>, marks: seq<(nat, char)>)
    requires |marks| == |fs| && forall i | 0 <= i < |fs| :: Mark(fs[i].key) == marks[i]
    requires forall i, j | 0 <= i < j < |marks| :: marks[i] != marks[j]
    ensures DistinctKeys(fs)
  {
    forall i, j | 0 <= i < j < |fs|
      ensures fs[i].key != fs[j].key
    {
      assert marks[i] != marks[j];
    }
  }

  lemma CaseKeysDiffer(c: CaseResult)
    ensures DistinctKeys(CaseFields(c))
    ensures c.signal == "" ==> forall i | 0 <= i < |CaseFields(c)| :: CaseFields(c)[i].key != "signal"
  {
    hide EncodeString, Number, Sanitize, DistinctKeys;
    var marks := [(5, 'e'), (7, 'd'), (6, 'o'), (6, 'e'), (9, 't'), (7, 'e'), (12, 'o')];
    MarksTellApart(CaseFields(c), if c.signal == "" then marks else marks + [(6, 'n')]);
    assert Mark("signal") == (6, 'n');
  }

  lemma CaseFromFields(c: CaseResult)
    ensures CaseFrom(Obj(FieldMap(CaseFields(c)))) == CleanCase(c)
  {
    hide EncodeString, Number, Sanitize, FieldMap, DistinctKeys;
    var f := CaseFields(c);
    CaseKeysDiffer(c);
    FieldIsThere(f, 0);
    FieldIsThere(f, 1);
    FieldIsThere(f, 2);
    FieldIsThere(f, 3);
    FieldIsThere(f, 4);
    FieldIsThere(f, 5);
    FieldIsThere(f, 6);
    if c.signal == "" {
      NoFieldThere(f, "signal");
      SanitizeNothing();
    } else {
      FieldIsThere(f, 7);
    }
  }

  lemma SanitizeNothing()
    ensures Sanitize("") == ""
  {
  }

  function CaseValue(c: CaseResult): Value { Obj(FieldMap(CaseFields(c))) }

  /** One encoded case is read as a value that holds every field of the case. */
  lemma CaseReads(c: CaseResult)
    ensures Reads(EncodeCase(c), CaseValue(c)) && CaseFrom(CaseValue(c)) == CleanCase(c)
  {
    hide Opened, FieldMap, CaseFields, Reads, FieldsRead, CaseFrom, EncodeCase, CleanCase;
    CaseIsOpened(c);
    CaseFieldsRead(c);
    ObjectIsRead(CaseFields(c));
    CaseFromFields(c);
  }

  // --------------------------------------------------------------------- the audit

  function AuditFields(a: Audit): seq<Field> {
    AuditFront(a) + OptionalField("profile", a.profile) + [TextField("image_digest", a.imageDigest)]
    + [TextField("toolchain_manifest_digest", a.toolchainManifestDigest)]
    + [TextField("seccomp_policy_digest", a.seccompPolicyDigest)]
  }

  function AuditValue(a: Audit): Value { Obj(FieldMap(AuditFields(a))) }

  function AuditFront(a: Audit): seq<Field> {
    [TextField("run_id", a.runId)] + [TextField("manifest_digest", a.manifestDigest)] + [NumberField("seed", a.seed)]
    + [TextField("limit_profile", a.limitProfile)]
  }

  lemma AuditFrontOpened(a: Audit)
    ensures Opened(AuditFront(a))
            == FirstKey("run_id") + EncodeString(a.runId) + NextKey("manifest_digest") + EncodeString(a.manifestDigest)
               + NextKey("seed") + Number(a.seed) + NextKey("limit_profile") + EncodeString(a.limitProfile)
  {
    hide EncodeString, Number, Sanitize, Opened, FirstKey, NextKey;
    var f := [TextField("run_id", a.runId)];
    FirstOpened(f[0]);
    OpenedGrows(f, TextField("manifest_digest", a.manifestDigest));
    f := f + [TextField("manifest_digest", a.manifestDigest)];
    OpenedGrows(f, NumberField("seed", a.seed));
    f := f + [NumberField("seed", a.seed)];
    OpenedGrows(f, TextField("limit_profile", a.limitProfile));
  }

  lemma OptionalGrows(f: seq<Field>, a: Audit)
    requires f != []
    ensures Opened(f + OptionalField("profile", a.profile)) == Opened(f) + Optional("profile", a.profile)
  {
    hide EncodeString, Sanitize, Opened, FirstKey, NextKey;
    OpenedGrows(f, TextField("profile", a.profile));
    assert f + [] == f;
  }

  lemma AuditIsOpened(a: Audit)
    ensures EncodeAudit(a) == Opened(AuditFields(a)) + "}"
  {
    hide EncodeString, Number, Sanitize, Opened, FirstKey, NextKey, Optional, OptionalField;
    AuditFrontOpened(a);
    OptionalGrows(AuditFront(a), a);
    var f := AuditFront(a) + OptionalField("profile", a.profile);
    OpenedGrows(f, TextField("image_digest", a.imageDigest));
    f := f + [TextField("image_digest", a.imageDigest)];
    OpenedGrows(f, TextField("toolchain_manifest_digest", a.toolchainManifestDigest));
    f := f + [TextField("toolchain_manifest_digest", a.toolchainManifestDigest)];
    OpenedGrows(f, TextField("seccomp_policy_digest", a.seccompPolicyDigest));
  }

  lemma AuditKeys()
    ensures Plain("run_id") && Mark("run_id") == (6, '_')
    ensures Plain("manifest_digest") && Mark("manifest_digest") == (15, 'i')
    ensures Plain("seed") && Mark("seed") == (4, 'd')
    ensures Plain("limit_profile") && Mark("limit_profile") == (13, 'i')
    ensures Plain("profile") && Mark("profile") == (7, 'f')
  {
  }

  lemma AuditDigestKeys()
    ensures Plain("image_digest") && Mark("image_digest") == (12, 'g')
    ensures Plain("toolchain_manifest_digest") && Mark("toolchain_manifest_digest") == (25, 'l')
    ensures Plain("seccomp_policy_digest") && Mark("seccomp_policy_digest") == (21, 'c')
  {
  }

  lemma AuditFieldsRead(a: Audit)
    ensures FieldsRead(AuditFields(a)) && AuditFields(a) != []
  {
    hide Reads, EncodeString, Number, Sanitize, Plain;
    AuditKeys();
    AuditDigestKeys();
    TextIsRead("run_id", a.runId);
    TextIsRead("manifest_digest", a.manifestDigest);
    NumberIsRead("seed", a.seed);
    TextIsRead("limit_profile", a.limitProfile);
    TextIsRead("profile", a.profile);
    TextIsRead("image_digest", a.imageDigest);
    TextIsRead("toolchain_manifest_digest", a.toolchainManifestDigest);
    TextIsRead("seccomp_policy_digest", a.seccompPolicyDigest);
  }

  lemma AuditKeysDiffer(a: Audit)
    ensures DistinctKeys(AuditFields(a))
    ensures a.profile == "" ==> forall i | 0 <= i < |AuditFields(a)| :: AuditFields(a)[i].key != "profile"
  {
    hide EncodeString, Number, Sanitize, DistinctKeys, Plain, Mark;
    AuditKeys();
    AuditDigestKeys();
    var front, back := [(6, '_'), (15, 'i'), (4, 'd'), (13, 'i')], [(12, 'g'), (25, 'l'), (21, 'c')];
    MarksTellApart(AuditFields(a), if a.profile == "" then front + back else front + [(7, 'f')] + back);
  }

  lemma AuditFromFields(a: Audit)
    ensures AuditFrom(AuditValue(a)) == CleanAudit(a)
  {
    hide EncodeString, Number, Sanitize, FieldMap, DistinctKeys;
    var f := AuditFields(a);
    AuditKeysDiffer(a);
    FieldIsThere(f, 0);
    FieldIsThere(f, 1);
    FieldIsThere(f, 2);
    FieldIsThere(f, 3);
    FieldIsThere(f, 4);
    FieldIsThere(f, 5);
    FieldIsThere(f, 6);
    if a.profile == "" {
      NoFieldThere(f, "profile");
      SanitizeNothing();
    } else {
      FieldIsThere(f, 7);
    }
  }

  lemma AuditReads(a: Audit)
    ensures Reads(EncodeAudit(a), AuditValue(a)) && AuditFrom(AuditValue(a)) == CleanAudit(a)
  {
    hide Opened, FieldMap, AuditFields, Reads, FieldsRead, AuditFrom, EncodeAudit, CleanAudit;
    AuditIsOpened(a);
    AuditFieldsRead(a);
    ObjectIsRead(AuditFields(a));
    AuditFromFields(a);
  }

  // --------------------------------------------------------------- compile responses

  function CompileFields(r: CompileResponse): seq<Field> {
    [TextField("version", r.version)] + [TextField("language", r.language)]
    + [Field("success", Bool(r.success), Flag(r.success))] + [TextField("stdout", r.stdout)]
    + [TextField("stderr", r.stderr)] + [NumberField("duration_ms", r.durationMs)]
    + [TextField("toolchain", r.toolchain)] + [TextField("sandbox_revision", r.sandboxRevision)]
    + [Field("audit", EncodeAudit(r.audit), AuditValue(r.audit))]
  }

  function CompileValue(r: CompileResponse): Value { Obj(FieldMap(CompileFields(r))) }

  lemma CompileIsOpened(r: CompileResponse)
    ensures EncodeCompile(r) == Opened(CompileFields(r)) + "}"
  {
    hide EncodeString, Number, Bool, Sanitize, Opened, FirstKey, NextKey, EncodeAudit, AuditValue;
    var f := [TextField("version", r.version)];
    FirstOpened(f[0]);
    OpenedGrows(f, TextField("language", r.language));
    f := f + [TextField("language", r.language)];
    OpenedGrows(f, Field("success", Bool(r.success), Flag(r.success)));
    f := f + [Field("success", Bool(r.success), Flag(r.success))];
    OpenedGrows(f, TextField("stdout", r.stdout));
    f := f + [TextField("stdout", r.stdout)];
    OpenedGrows(f, TextField("stderr", r.stderr));
    f := f + [TextField("stderr", r.stderr)];
    OpenedGrows(f, NumberField("duration_ms", r.durationMs));
    f := f + [NumberField("duration_ms", r.durationMs)];
    OpenedGrows(f, TextField("toolchain", r.toolchain));
    f := f + [TextField("toolchain", r.toolchain)];
    OpenedGrows(f, TextField("sandbox_revision", r.sandboxRevision));
    f := f + [TextField("sandbox_revision", r.sandboxRevision)];
    OpenedGrows(f, Field("audit", EncodeAudit(r.audit), AuditValue(r.audit)));
  }

  lemma CompileFieldsRead(r: CompileResponse)
    ensures FieldsRead(CompileFields(r)) && CompileFields(r) != []
  {
    hide Reads, EncodeString, Number, Bool, Sanitize, EncodeAudit, AuditValue;
    TextIsRead("version", r.version);
    TextIsRead("language", r.language);
    FlagIsRead(r.success);
    TextIsRead("stdout", r.stdout);
    TextIsRead("stderr", r.stderr);
    NumberIsRead("duration_ms", r.durationMs);
    TextIsRead("toolchain", r.toolchain);
    TextIsRead("sandbox_revision", r.sandboxRevision);
    AuditReads(r.audit);
  }

  lemma CompileKeysDiffer(r: CompileResponse)
    ensures DistinctKeys(CompileFields(r))
  {
    hide EncodeString, Number, Bool, Sanitize, DistinctKeys, EncodeAudit, AuditValue;
    MarksTellApart(CompileFields(r), [(7, 's'), (8, 'g'), (7, 'c'), (6, 'o'), (6, 'e'), (11, 'a'), (9, 'l'), (16, 'd'),
                                      (5, 'i')]);
  }

  lemma CompileFromFields(r: CompileResponse)
    ensures CompileFrom(CompileValue(r)) == CleanCompile(r)
  {
    hide EncodeString, Number, Bool, Sanitize, FieldMap, DistinctKeys, EncodeAudit, AuditValue, AuditFrom, CleanAudit;
    var f := CompileFields(r);
    CompileKeysDiffer(r);
    FieldIsThere(f, 0);
    FieldIsThere(f, 1);
    FieldIsThere(f, 2);
    FieldIsThere(f, 3);
    FieldIsThere(f, 4);
    FieldIsThere(f, 5);
    FieldIsThere(f, 6);
    FieldIsThere(f, 7);
    FieldIsThere(f, 8);
    AuditReads(r.audit);
  }

  /** An encoded compile response is read as a value that holds every field of it. */
  lemma CompileReads(r: CompileResponse)
    ensures Reads(EncodeCompile(r), CompileValue(r)) && CompileFrom(CompileValue(r)) == CleanCompile(r)
  {
    hide Opened, FieldMap, CompileFields, Reads, FieldsRead, CompileFrom, EncodeCompile, CleanCompile;
    CompileIsOpened(r);
    CompileFieldsRead(r);
    ObjectIsRead(CompileFields(r));
    CompileFromFields(r);
  }

  // ----------------------------------------------------------------- lists of cases

  function CaseValues(cs: seq<CaseResult>): seq<Value> {
    if cs == [] then [] else CaseValues(cs[..|cs| - 1]) + [CaseValue(cs[|cs| - 1])]
  }

  lemma NextItem(encoded: string, value: Value, next: string, more: seq<Value>, end: string)
    requires Reads(encoded, value) && ReadItems(next) == Read(more, end)
    ensures ReadItems(encoded + ("," + next)) == Read([value] + more, end)
  {
    hide ReadValue;
    assert EndsNumber("," + next) && ("," + next)[1..] == next;
  }

  lemma LastItem(encoded: string, value: Value, tail: string)
    requires Reads(encoded, value)
    ensures ReadItems(encoded + ("]" + tail)) == Read([value], tail)
  {
    hide ReadValue;
    assert EndsNumber("]" + tail) && ("]" + tail)[1..] == tail;
  }

  lemma CasesGrow(cs: seq<CaseResult>)
    requires cs != []
    ensures var front, last := cs[..|cs| - 1], cs[|cs| - 1];
            && EncodeCases(cs) == (if front == [] then "" else EncodeCases(front) + ",") + EncodeCase(last)
            && CaseValues(cs) == CaseValues(front) + [CaseValue(last)]
  {
    hide EncodeCase, CaseValue;
  }

  /** Items that are read behind the encoded cases are read with them. */
  lemma {:induction false} CasesRead(cs: seq<CaseResult>, next: string, more: seq<Value>, end: string)
    requires cs != [] && ReadItems(next) == Read(more, end)
    ensures ReadItems(EncodeCases(cs) + ("," + next)) == Read(CaseValues(cs) + more, end)
  {
    hide ReadItems, EncodeCases, CaseValues, EncodeCase, CaseValue, Reads;
    var front, last := cs[..|cs| - 1], cs[|cs| - 1];
    CaseReads(last);
    CasesGrow(cs);
    NextItem(EncodeCase(last), CaseValue(last), next, more, end);
    if front == [] {
      NoCases();
      assert "" + EncodeCase(last) == EncodeCase(last) && [] + [CaseValue(last)] == [CaseValue(last)];
    } else {
      var own := EncodeCase(last) + ("," + next);
      CasesRead(front, own, [CaseValue(last)] + more, end);
      assert EncodeCases(cs) + ("," + next) == EncodeCases(front) + ("," + own);
      assert CaseValues(front) + ([CaseValue(last)] + more) == CaseValues(cs) + more;
    }
  }

  lemma ListReads(cs: seq<CaseResult>, tail: string)
    requires cs != []
    ensures ReadItems(EncodeCases(cs) + ("]" + tail)) == Read(CaseValues(cs), tail)
  {
    hide ReadItems, EncodeCases, CaseValues, EncodeCase, CaseValue, Reads;
    var front, last := cs[..|cs| - 1], cs[|cs| - 1];
    CaseReads(last);
    CasesGrow(cs);
    LastItem(EncodeCase(last), CaseValue(last), tail);
    if front == [] {
      NoCases();
      assert "" + EncodeCase(last) == EncodeCase(last) && [] + [CaseValue(last)] == [CaseValue(last)];
    } else {
      var own := EncodeCase(last) + ("]" + tail);
      CasesRead(front, own, [CaseValue(last)], tail);
      assert EncodeCases(cs) + ("]" + tail) == EncodeCases(front) + ("," + own);
    }
  }

  function ResultsValue(r: Results): Value { if r.Nil? then Null else Arr(CaseValues(r.cases)) }

  lemma {:induction false} CasesStart(cs: seq<CaseResult>)
    requires cs != []
    ensures EncodeCases(cs) != "" && EncodeCases(cs)[0] == '{'
  {
    hide EncodeString, Number;
    var front := cs[..|cs| - 1];
    if |cs| == 1 {
      assert front == [] && EncodeCases(front) == "";
    } else {
      hide EncodeCase;
      CasesStart(front);
    }
  }

  lemma NullReads(tail: string)
    ensures ReadValue("null" + tail) == Read(Null, tail)
  {
    var text := "null" + tail;
    assert text[..4] == "null" && text[4..] == tail && text[0] == 'n';
  }

  lemma EmptyListReads(tail: string)
    ensures ReadValue("[" + "" + "]" + tail) == Read(Arr([]), tail)
  {
    var text := "[" + "" + "]" + tail;
    assert text[0] == '[' && text[1] == ']' && text[2..] == tail;
  }

  lemma FullListReads(items: string, values: seq<Value>, tail: string)
    requires items != "" && items[0] == '{' && ReadItems(items + ("]" + tail)) == Read(values, tail)
    ensures ReadValue("[" + items + "]" + tail) == Read(Arr(values), tail)
  {
    hide ReadItems;
    var text := "[" + items + "]" + tail;
    assert text[0] == '[' && text[1] == '{' && text[1..] == items + ("]" + tail);
  }

  lemma ResultsRead(r: Results)
    ensures Reads(EncodeResults(r), ResultsValue(r))
  {
    hide ReadValue, ReadItems, EncodeCases, CaseValues;
    forall tail | EndsNumber(tail)
      ensures ReadValue(EncodeResults(r) + tail) == Read(ResultsValue(r), tail)
    {
      if r.Nil? {
        NullReads(tail);
      } else if r.cases == [] {
        NoCases();
        EmptyListReads(tail);
      } else {
        ListReads(r.cases, tail);
        CasesStart(r.cases);
        FullListReads(EncodeCases(r.cases), CaseValues(r.cases), tail);
      }
    }
  }

  lemma NoCases()
    ensures EncodeCases([]) == "" && CaseValues([]) == []
  {
  }

  lemma {:induction false} ValueAtCase(cs: seq<CaseResult>, i: nat)
    requires i < |cs|
    ensures |CaseValues(cs)| == |cs| && CaseValues(cs)[i] == CaseValue(cs[i])
  {
    hide CaseValue, CaseValues, EncodeCases, EncodeCase;
    var front := cs[..|cs| - 1];
    CasesGrow(cs);
    if front == [] {
      NoCases();
    } else {
      ValueAtCase(front, if i < |front| then i else 0);
    }
  }

  lemma CasesFromValues(cs: seq<CaseResult>)
    ensures CasesFrom(CaseValues(cs)) == CleanCases(cs)
  {
    hide CaseValue, CaseFrom, CleanCase, CaseValues, Reads, EncodeCases, EncodeCase;
    if cs == [] {
      NoCases();
    } else {
      ValueAtCase(cs, 0);
      forall i: nat | i < |cs|
        ensures CaseFrom(CaseValues(cs)[i]) == CleanCase(cs[i])
      {
        ValueAtCase(cs, i);
        CaseReads(cs[i]);
      }
    }
  }

  // ---------------------------------------------------------------- execute responses

  function ExecuteFields(r: ExecuteResponse): seq<Field> {
    [TextField("version", r.version)] + [Field("compile", EncodeCompile(r.compile), CompileValue(r.compile))]
    + [Field("results", EncodeResults(r.results), ResultsValue(r.results))]
    + [Field("audit", EncodeAudit(r.audit), AuditValue(r.audit))]
  }

  function ExecuteValue(r: ExecuteResponse): Value { Obj(FieldMap(ExecuteFields(r))) }

  lemma ExecuteIsOpened(r: ExecuteResponse)
    ensures EncodeExecute(r) == Opened(ExecuteFields(r)) + "}"
  {
    hide EncodeString, Sanitize, Opened, FirstKey, NextKey, EncodeAudit, AuditValue, EncodeCompile, CompileValue,
         EncodeResults, ResultsValue;
    var f := [TextField("version", r.version)];
    FirstOpened(f[0]);
    OpenedGrows(f, Field("compile", EncodeCompile(r.compile), CompileValue(r.compile)));
    f := f + [Field("compile", EncodeCompile(r.compile), CompileValue(r.compile))];
    OpenedGrows(f, Field("results", EncodeResults(r.results), ResultsValue(r.results)));
    f := f + [Field("results", EncodeResults(r.results), ResultsValue(r.results))];
    OpenedGrows(f, Field("audit", EncodeAudit(r.audit), AuditValue(r.audit)));
  }

  lemma ExecuteFieldsRead(r: ExecuteResponse)
    ensures FieldsRead(ExecuteFields(r)) && ExecuteFields(r) != []
  {
    hide Reads, EncodeString, Sanitize, EncodeAudit, AuditValue, EncodeCompile, CompileValue, EncodeResults,
         ResultsValue;
    TextIsRead("version", r.version);
    CompileReads(r.compile);
    ResultsRead(r.results);
    AuditReads(r.audit);
  }

  lemma ExecuteKeysDiffer(r: ExecuteResponse)
    ensures DistinctKeys(ExecuteFields(r))
  {
    hide EncodeString, Sanitize, DistinctKeys, EncodeAudit, AuditValue, EncodeCompile, CompileValue, EncodeResults,
         ResultsValue;
    MarksTellApart(ExecuteFields(r), [(7, 's'), (7, 'p'), (7, 'u'), (5, 'i')]);
  }

  lemma ExecuteFromFields(r: ExecuteResponse)
    ensures ExecuteFrom(ExecuteValue(r)) == CleanExecute(r)
  {
    hide EncodeString, Sanitize, FieldMap, DistinctKeys, EncodeAudit, AuditValue, AuditFrom, CleanAudit, EncodeCompile,
         CompileValue, CompileFrom, CleanCompile, EncodeResults, CasesFrom, CleanCases, CaseValues;
    var f := ExecuteFields(r);
    ExecuteKeysDiffer(r);
    FieldIsThere(f, 0);
    FieldIsThere(f, 1);
    FieldIsThere(f, 2);
    FieldIsThere(f, 3);
    CompileReads(r.compile);
    AuditReads(r.audit);
    if r.results.List? {
      CasesFromValues(r.results.cases);
    }
  }

  /** An encoded execute response is read as a value that holds every field of it, case by case. */
  lemma ExecuteReads(r: ExecuteResponse)
    ensures Reads(EncodeExecute(r), ExecuteValue(r)) && ExecuteFrom(ExecuteValue(r)) == CleanExecute(r)
  {
    hide Opened, FieldMap, ExecuteFields, Reads, FieldsRead, ExecuteFrom, EncodeExecute, CleanExecute;
    ExecuteIsOpened(r);
    ExecuteFieldsRead(r);
    ObjectIsRead(ExecuteFields(r));
    ExecuteFromFields(r);
  }

  // ------------------------------------------------------------------ whole responses

  /** A client that reads the whole text. */
  function ReadCompile(text: string): Reading<CompileResponse> {
    match ReadValue(text)
    case Read(v, rest) => if rest == "" then Read(CompileFrom(v), "") else Malformed
    case Malformed => Malformed
  }

  function ReadExecute(text: string): Reading<ExecuteResponse> {
    match ReadValue(text)
    case Read(v, rest) => if rest == "" then Read(ExecuteFrom(v), "") else Malformed
    case Malformed => Malformed
  }

  /** Whatever the sandbox sends, the client gets back, field by field and case by case, with
      error bytes replaced: nothing is lost, exchanged or added. */
  lemma ResponseReadsBack(r: Response)
    ensures match r
            case Compile(c) => ReadCompile(Json.Encode(r)) == Read(CleanCompile(c), "")
            case Execute(e) => ReadExecute(Json.Encode(r)) == Read(CleanExecute(e), "")
  {
    hide ReadValue, EncodeCompile, EncodeExecute, CompileFrom, ExecuteFrom, CleanCompile, CleanExecute, CompileValue,
         ExecuteValue;
    match r
    case Compile(c) =>
      CompileReads(c);
      assert EndsNumber("") && EncodeCompile(c) + "" == EncodeCompile(c);
    case Execute(e) =>
      ExecuteReads(e);
      assert EndsNumber("") && EncodeExecute(e) + "" == EncodeExecute(e);
  }

  /** ... and a case whose texts are valid UTF-8 comes back as it is. */
  lemma ValidCaseReadsBack(c: CaseResult)
    requires Valid(c.verdict) && Valid(c.stdout) && Valid(c.stderr) && Valid(c.signal)
    ensures CaseFrom(CaseValue(c)) == c
  {
    hide CaseFrom, CaseValue, Sanitize, Valid;
    CaseReads(c);
    SanitizeIsId(c.verdict);
    SanitizeIsId(c.stdout);
    SanitizeIsId(c.stderr);
    SanitizeIsId(c.signal);
  }
}
