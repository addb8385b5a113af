/** The JSON text of a sandbox response and the prediction of its length
    (sandbox/server.go). Strings are encoded as section 7 of RFC 8259 asks, with the HTML
    escapes and the U+2028, U+2029 escapes of encoding/json. */
module Json {
  import opened Text
  import opened Utf8

  // ------------------------------------------------------------------- strings

  function HexDigit(d: nat): char
    requires d < 16
  {
    if d < 10 then '0' + d as char else 'a' + (d - 10) as char
  }

  /** The escape of one ASCII character. */
  function EncodeAscii(c: char): string
    requires c < RUNE_SELF
  {
    match c
    case '"' => "\\\""
    case '\\' => "\\\\"
    case '\U{8}' => "\\b"
    case '\U{C}' => "\\f"
    case '\n' => "\\n"
    case '\r' => "\\r"
    case '\t' => "\\t"
    case _ =>
      if c < ' ' || c == '<' || c == '>' || c == '&'
      then "\\u00" + [HexDigit(c as nat / 16), HexDigit(c as nat % 16)]
      else [c]
  }

  /** The encoding of the first character of s and how many bytes of s it covers. */
  function EncodeFirst(s: string): (r: (string, nat))
    requires s != ""
    ensures 1 <= r.1 <= |s|
  {
    if s[0] < RUNE_SELF then (EncodeAscii(s[0]), 1)
    else if ValidWidth(s) == 0 then ("\\ufffd", 1)
    else if s[..ValidWidth(s)] == "\U{E2}\U{80}\U{A8}" then ("\\u2028", 3)
    else if s[..ValidWidth(s)] == "\U{E2}\U{80}\U{A9}" then ("\\u2029", 3)
    else (s[..ValidWidth(s)], ValidWidth(s))
  }

  function EncodeBody(s: string): string {
    if s == "" then "" else EncodeFirst(s).0 + EncodeBody(s[EncodeFirst(s).1..])
  }

  /** The JSON string of a byte string. */
  function EncodeString(s: string): string { "\"" + EncodeBody(s) + "\"" }

  lemma FirstSize(s: string)
    requires s != ""
    ensures |EncodeFirst(s).0| ==
            if s[0] < RUNE_SELF then
              if s[0] in "\"\\\U{8}\U{C}\n\r\t" then 2
              else if s[0] in "<>&" || s[0] < ' ' then 6 else 1
            else if ValidWidth(s) == 0 || s[..ValidWidth(s)] in {"\U{E2}\U{80}\U{A8}", "\U{E2}\U{80}\U{A9}"} then 6
            else ValidWidth(s)
    ensures EncodeFirst(s).1 == if ValidWidth(s) == 0 then 1 else ValidWidth(s)
  {
  }

  lemma BodyStep(s: string, index: nat)
    requires index < |s|
    ensures var first := EncodeFirst(s[index..]);
            index + first.1 <= |s|
            && |EncodeBody(s[index..])| == |first.0| + |EncodeBody(s[index + first.1..])|
  {
    hide EncodeFirst;
    var first := EncodeFirst(s[index..]);
    assert s[index..][first.1..] == s[index + first.1..];
  }

  lemma EmptyBody(s: string)
    requires s == ""
    ensures EncodeBody(s) == ""
  {
  }

  /** encodedJSONStringSize */
  method EncodedStringSize(value: string) returns (size: nat)
    ensures size == |EncodeString(value)|
  {
    hide EncodeFirst, EncodeBody;
    size := 2;
    var index := 0;
    assert value[0..] == value;
    assert |EncodeString(value)| == 2 + |EncodeBody(value)|;
    while index < |value|
      invariant 0 <= index <= |value|
      invariant size + |EncodeBody(value[index..])| == 2 + |EncodeBody(value)|
    {
      var c := value[index];
      FirstSize(value[index..]);
      BodyStep(value, index);
      if c < RUNE_SELF {
        if c in "\"\\\U{8}\U{C}\n\r\t" {
          size := size + 2;
        } else if c in "<>&" {
          size := size + 6;
        } else if c < ' ' {
          size := size + 6;
        } else {
          size := size + 1;
        }
        index := index + 1;
        continue;
      }
      var width := ValidWidth(value[index..]);
      if width == 0 {
        size := size + 6;
        index := index + 1;
        continue;
      }
      if value[index..][..width] in {"\U{E2}\U{80}\U{A8}", "\U{E2}\U{80}\U{A9}"} {
        size := size + 6;
      } else {
        size := size + width;
      }
      index := index + width;
    }
    EmptyBody(value[index..]);
  }

  // ------------------------------------------------------------------ responses

  datatype Audit = Audit(
    runId: string, manifestDigest: string, seed: int, limitProfile: string, profile: string,
    imageDigest: string, toolchainManifestDigest: string, seccompPolicyDigest: string)

  datatype CompileResponse = CompileResponse(
    version: string, language: string, success: bool, stdout: string, stderr: string, durationMs: int,
    toolchain: string, sandboxRevision: string, audit: Audit)

  datatype CaseResult = CaseResult(
    index: int, verdict: string, stdout: string, stderr: string, exitCode: int, timeMs: int, memoryBytes: int,
    signal: string)

  datatype Results = Nil | List(cases: seq<CaseResult>)

  datatype ExecuteResponse = ExecuteResponse(
    version: string, compile: CompileResponse, results: Results, audit: Audit)

  function Number(n: int): string { if n < 0 then "-" + Decimal(-n) else Decimal(n) }

  function Bool(b: bool): string { if b then "true" else "false" }

  /** The key of the first member of an object, and of a later one. */
  function FirstKey(key: string): string { "{\"" + key + "\":" }

  function NextKey(key: string): string { ",\"" + key + "\":" }

  /** A field with the omitempty option. */
  function Optional(key: string, value: string): string {
    if value == "" then "" else NextKey(key) + EncodeString(value)
  }

  function EncodeAudit(a: Audit): string {
    FirstKey("run_id") + EncodeString(a.runId)
    + NextKey("manifest_digest") + EncodeString(a.manifestDigest)
    + NextKey("seed") + Number(a.seed)
    + NextKey("limit_profile") + EncodeString(a.limitProfile)
    + Optional("profile", a.profile)
    + NextKey("image_digest") + EncodeString(a.imageDigest)
    + NextKey("toolchain_manifest_digest") + EncodeString(a.toolchainManifestDigest)
    + NextKey("seccomp_policy_digest") + EncodeString(a.seccompPolicyDigest) + "}"
  }

  function EncodeCompile(r: CompileResponse): string {
    FirstKey("version") + EncodeString(r.version)
    + NextKey("language") + EncodeString(r.language)
    + NextKey("success") + Bool(r.success)
    + NextKey("stdout") + EncodeString(r.stdout)
    + NextKey("stderr") + EncodeString(r.stderr)
    + NextKey("duration_ms") + Number(r.durationMs)
    + NextKey("toolchain") + EncodeString(r.toolchain)
    + NextKey("sandbox_revision") + EncodeString(r.sandboxRevision)
    + NextKey("audit") + EncodeAudit(r.audit) + "}"
  }

  function EncodeCase(c: CaseResult): string {
    FirstKey("index") + Number(c.index)
    + NextKey("verdict") + EncodeString(c.verdict)
    + NextKey("stdout") + EncodeString(c.stdout)
    + NextKey("stderr") + EncodeString(c.stderr)
    + NextKey("exit_code") + Number(c.exitCode)
    + NextKey("time_ms") + Number(c.timeMs)
    + NextKey("memory_bytes") + Number(c.memoryBytes)
    + Optional("signal", c.signal) + "}"
  }

  function EncodeCases(cs: seq<CaseResult>): string {
    if cs == [] then ""
    else
      EncodeCases(cs[..|cs| - 1]) + (if |cs| == 1 then "" else ",") + EncodeCase(cs[|cs| - 1])
  }

  /** A nil slice is encoded as null. */
  function EncodeResults(r: Results): string {
    if r.Nil? then "null" else "[" + EncodeCases(r.cases) + "]"
  }

  function EncodeExecute(r: ExecuteResponse): string {
    FirstKey("version") + EncodeString(r.version)
    + NextKey("compile") + EncodeCompile(r.compile)
    + NextKey("results") + EncodeResults(r.results)
    + NextKey("audit") + EncodeAudit(r.audit) + "}"
  }

  // ------------------------------------------------------------ size prediction

  /** What the cleared strings add to the length of the baseline. */
  function Extra(values: seq<string>): int {
    if values == [] then 0 else Extra(values[..|values| - 1]) + |EncodeString(values[|values| - 1])| - 2
  }

  lemma {:induction false} ExtraConcat(a: seq<string>, b: seq<string>)
    ensures Extra(a + b) == Extra(a) + Extra(b)
  {
    if b == [] {
      assert a + b == a;
    } else {
      assert (a + b)[..|a + b| - 1] == a + b[..|b| - 1];
      ExtraConcat(a, b[..|b| - 1]);
    }
  }

  lemma EmptyString()
    ensures |EncodeString("")| == 2
  {
  }

  method SumExtra(values: seq<string>) returns (extra: int)
    ensures extra == Extra(values)
  {
    extra := 0;
    for i := 0 to |values|
      invariant extra == Extra(values[..i])
    {
      var size := EncodedStringSize(values[i]);
      extra := extra + size - 2;
      assert values[..i + 1][..i] == values[..i];
    }
    assert values[..|values|] == values;
  }

  method ClearAudit(a: Audit) returns (cleared: Audit, values: seq<string>)
    ensures |EncodeAudit(a)| == |EncodeAudit(cleared)| + Extra(values)
  {
    values := [a.runId, a.manifestDigest, a.limitProfile, a.imageDigest,
               a.toolchainManifestDigest, a.seccompPolicyDigest];
    cleared := a.(runId := "", manifestDigest := "");
    cleared := cleared.(limitProfile := "", imageDigest := "");
    cleared := cleared.(toolchainManifestDigest := "", seccompPolicyDigest := "");
    SixExtras(values);
    EmptyString();
    hide EncodeString, Optional, Number, Extra;
  }

  lemma SixExtras(v: seq<string>)
    requires |v| == 6
    ensures Extra(v) == |EncodeString(v[0])| + |EncodeString(v[1])| + |EncodeString(v[2])|
                        + |EncodeString(v[3])| + |EncodeString(v[4])| + |EncodeString(v[5])| - 12
  {
    hide EncodeString;
    ExtraConcat([v[0], v[1], v[2]], [v[3], v[4], v[5]]);
    ThreeExtras([v[0], v[1], v[2]]);
    ThreeExtras([v[3], v[4], v[5]]);
    assert v == [v[0], v[1], v[2]] + [v[3], v[4], v[5]];
  }

  lemma ThreeExtras(v: seq<string>)
    requires |v| == 3
    ensures Extra(v) == |EncodeString(v[0])| + |EncodeString(v[1])| + |EncodeString(v[2])| - 6
  {
    hide EncodeString;
    assert v[..2][..1][..0] == [];
    assert Extra(v[..2][..1]) == |EncodeString(v[0])| - 2;
    assert Extra(v[..2]) == |EncodeString(v[0])| + |EncodeString(v[1])| - 4;
  }

  method ClearCompile(r: CompileResponse) returns (cleared: CompileResponse, values: seq<string>)
    ensures |EncodeCompile(r)| == |EncodeCompile(cleared)| + Extra(values)
  {
    hide FirstKey, NextKey, EncodeString, Number, Bool, EncodeAudit, Extra;
    values := [r.version, r.language, r.stdout, r.stderr, r.toolchain, r.sandboxRevision];
    cleared := r.(version := "", language := "");
    cleared := cleared.(stdout := "", stderr := "");
    cleared := cleared.(toolchain := "", sandboxRevision := "");
    var audit, more := ClearAudit(r.audit);
    cleared := cleared.(audit := audit);
    SixExtras(values);
    ExtraConcat(values, more);
    EmptyString();
    values := values + more;
  }

  method CompileResponseSize(r: CompileResponse) returns (size: int)
    ensures size == |EncodeCompile(r)|
  {
    hide EncodeCompile, Extra;
    var baseline, values := ClearCompile(r);
    var extra := SumExtra(values);
    size := |EncodeCompile(baseline)| + extra;
  }

  /** One case: its cleared copy, the cleared strings and the size of its signal. */
  method ClearCase(c: CaseResult) returns (cleared: CaseResult, values: seq<string>, signalSize: int)
    ensures |EncodeCase(c)| == |EncodeCase(cleared)| + Extra(values) + signalSize
  {
    values := [c.verdict, c.stdout, c.stderr];
    cleared := c.(verdict := "", stdout := "", stderr := "");
    signalSize := 0;
    if c.signal != "" {
      var size := EncodedStringSize(c.signal);
      signalSize := |NextKey("signal")| + size;
      cleared := cleared.(signal := "");
    }
    ThreeExtras(values);
    EmptyString();
    hide EncodeString, Number, Extra;
  }

  lemma {:induction false} CasesReplaced(cs: seq<CaseResult>, i: nat, c: CaseResult)
    requires i < |cs|
    ensures |EncodeCases(cs[i := c])| == |EncodeCases(cs)| - |EncodeCase(cs[i])| + |EncodeCase(c)|
  {
    hide EncodeCase;
    var last := |cs| - 1;
    if i == last {
      assert cs[i := c][..last] == cs[..last];
    } else {
      assert cs[i := c][..last] == cs[..last][i := c];
      CasesReplaced(cs[..last], i, c);
    }
  }

  method ClearCases(cs: seq<CaseResult>) returns (cleared: seq<CaseResult>, values: seq<string>, signals: int)
    ensures |EncodeCases(cs)| == |EncodeCases(cleared)| + Extra(values) + signals
  {
    hide EncodeCases, EncodeCase;
    cleared, values, signals := cs, [], 0;
    for i := 0 to |cs|
      invariant |cleared| == |cs| && cleared[i..] == cs[i..]
      invariant |EncodeCases(cs)| == |EncodeCases(cleared)| + Extra(values) + signals
    {
      var c, more, signal := ClearCase(cleared[i]);
      CasesReplaced(cleared, i, c);
      ExtraConcat(values, more);
      cleared := cleared[i := c];
      values := values + more;
      signals := signals + signal;
      assert cleared[i + 1..] == cs[i..][1..];
    }
  }

  /** How the length of the encoding splits over the parts of a response. */
  lemma ExecuteParts(r: ExecuteResponse, b: ExecuteResponse)
    requires b.version == "" && r.results.Nil? == b.results.Nil?
    ensures |EncodeExecute(r)| - |EncodeExecute(b)|
            == (|EncodeString(r.version)| - 2)
               + (|EncodeCompile(r.compile)| - |EncodeCompile(b.compile)|)
               + (if r.results.Nil? then 0 else |EncodeCases(r.results.cases)| - |EncodeCases(b.results.cases)|)
               + (|EncodeAudit(r.audit)| - |EncodeAudit(b.audit)|)
  {
    EmptyString();
    hide EncodeString, EncodeCompile, EncodeAudit, EncodeCases;
  }

  method ExecuteResponseSize(r: ExecuteResponse) returns (size: int)
    ensures size == |EncodeExecute(r)|
  {
    hide EncodeExecute, EncodeString, EncodeCompile, EncodeAudit, EncodeCases, Extra;
    var compile, values := ClearCompile(r.compile);
    var baseline := r.(version := "", compile := compile);
    ExtraConcat([r.version], values);
    values := [r.version] + values;
    var signals := 0;
    if r.results.List? {
      var cases, more, signal := ClearCases(r.results.cases);
      baseline := baseline.(results := List(cases));
      ExtraConcat(values, more);
      values := values + more;
      signals := signal;
    }
    var audit, more := ClearAudit(r.audit);
    baseline := baseline.(audit := audit);
    ExtraConcat(values, more);
    values := values + more;
    var extra := SumExtra(values);
    size := |EncodeExecute(baseline)| + signals + extra;
    OneExtra(r.version);
    ExecuteParts(r, baseline);
  }

  lemma OneExtra(v: string)
    ensures Extra([v]) == |EncodeString(v)| - 2
  {
    assert [v][..0] == [];
  }

  // ------------------------------------------------------------------ wire limit

  const MAX_RESPONSE_BYTES := 64 * 1024 * 1024

  datatype Response = Compile(compile: CompileResponse) | Execute(execute: ExecuteResponse)

  function Encode(r: Response): string {
    match r
    case Compile(c) => EncodeCompile(c)
    case Execute(e) => EncodeExecute(e)
  }

  datatype Prepared = Ready(encoded: string) | TooLarge

  /** prepareSuccessJSON: a response is refused before it is encoded exactly when its
      encoding would exceed the wire limit. */
  method PrepareSuccess(r: Response) returns (p: Prepared)
    ensures p == if |Encode(r)| <= MAX_RESPONSE_BYTES then Ready(Encode(r)) else TooLarge
  {
    hide EncodeCompile, EncodeExecute;
    var size;
    match r {
      case Compile(c) => size := CompileResponseSize(c);
      case Execute(e) => size := ExecuteResponseSize(e);
    }
    if size > MAX_RESPONSE_BYTES {
      return TooLarge;
    }
    var encoded := Encode(r);
    assert |encoded| <= MAX_RESPONSE_BYTES;
    p := Ready(encoded);
  }
}
