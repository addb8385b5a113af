/** The statement renderer and the parser that reads labelled, fenced samples back
    (backend/internal/domain/oj_statement.go). */
module Statement {
  import opened Chars
  import opened Text
  import opened Wrappers

  datatype Sample = Sample(input: string, output: string, origin: string, explanation: string)

  datatype Statement = Statement(
    version: int,
    description: string,
    input: string,
    output: string,
    constraints: string,
    samples: seq<Sample>,
    notes: string,
    reason: string)

  const STATEMENT_VERSION := 1

  // ------------------------------------------------------------------ printing

  function Ticks(n: nat): string { seq(n, _ => '`') }

  /** The shortest fence of at least n backticks that the body does not contain. */
  function FenceFrom(body: string, n: nat): (fence: string)
    requires n >= 3
    ensures exists k: nat :: k >= n && fence == Ticks(k)
    ensures !Contains(body, fence)
    ensures forall k: nat :: n <= k < |fence| ==> Contains(body, Ticks(k))
    decreases |body| + 1 - n
  {
    if Contains(body, Ticks(n)) then FenceFrom(body, n + 1) else Ticks(n)
  }

  function Section(name: string, body: string): (text: string)
    ensures EndsLine(text)
  {
    "#### " + name + "\n" + "\n" + (Trim(body) + "\n") + "\n"
  }

  function Printed(body: string): (text: string)
    ensures EndsLine(text)
  {
    if EndsLine(body) then
      UnixEnd(body);
      Unix(body)
    else Unix(body) + "\n"
  }

  function Heading(tag: string, n: nat): string { "#### " + tag + " #" + Decimal(n) }

  function Block(tag: string, n: nat, body: string): (text: string)
    ensures EndsLine(text)
  {
    var fence := FenceFrom(body, 3);
    Heading(tag, n) + "\n" + "\n" + (fence + "\n") + Printed(body) + (fence + "\n") + "\n"
  }

  function Remark(explanation: string): (text: string)
    ensures text == "" || EndsLine(text)
  {
    if Trim(explanation) == "" then "" else "样例说明：" + Trim(explanation) + "\n" + "\n"
  }

  /** The headings and the two fenced bodies of a sample. */
  function SampleFront(sample: Sample, n: nat): (text: string)
    ensures EndsLine(text)
  {
    Heading("输入输出样例", n) + "\n" + "\n" + Block("输入", n, sample.input) + Block("输出", n, sample.output)
  }

  function SampleText(sample: Sample, n: nat): (text: string)
    ensures EndsLine(text)
  {
    SampleFront(sample, n) + Remark(sample.explanation)
  }

  function SamplesText(samples: seq<Sample>): (text: string)
    ensures text == "" || EndsLine(text)
  {
    if samples == [] then ""
    else
      var last := |samples| - 1;
      SamplesText(samples[..last]) + SampleText(samples[last], |samples|)
  }

  function Limits(s: Statement): string {
    if Trim(s.notes) == "" then s.constraints else s.constraints + "\n\n" + s.notes
  }

  function Front(s: Statement): (text: string)
    ensures EndsLine(text)
  {
    Section("题目描述", s.description) + Section("输入格式", s.input) + Section("输出格式", s.output)
  }

  /** The Markdown of a statement. */
  function Render(s: Statement): string {
    Trim(Front(s) + SamplesText(s.samples) + Section("数据规模与约定", Limits(s))) + "\n"
  }

  method GrowFence(body: string) returns (fence: string)
    ensures fence == FenceFrom(body, 3)
  {
    fence := "```";
    ghost var n := 3;
    assert fence == Ticks(3);
    while Contains(body, fence)
      invariant n >= 3 && fence == Ticks(n) && FenceFrom(body, n) == FenceFrom(body, 3)
      decreases |body| + 1 - n
    {
      fence := fence + "`";
      n := n + 1;
      assert fence == Ticks(n);
    }
  }

  method PrintBlock(tag: string, n: nat, body: string) returns (text: string)
    ensures text == Block(tag, n, body)
  {
    var fence := GrowFence(body);
    text := Heading(tag, n) + "\n" + "\n" + (fence + "\n") + Unix(body);
    if !EndsLine(body) {
      text := text + "\n";
    }
    assert text == Heading(tag, n) + "\n" + "\n" + (fence + "\n") + Printed(body);
    text := text + (fence + "\n") + "\n";
  }

  method PrintSample(sample: Sample, n: nat) returns (text: string)
    ensures text == SampleText(sample, n)
  {
    text := Heading("输入输出样例", n) + "\n" + "\n";
    ghost var start := text;
    var bodies := [sample.input, sample.output];
    for j := 0 to 2
      invariant text == if j == 0 then start
                        else if j == 1 then start + Block("输入", n, sample.input)
                        else start + Block("输入", n, sample.input) + Block("输出", n, sample.output)
    {
      var tag := "输入";
      if j == 1 {
        tag := "输出";
      }
      var block := PrintBlock(tag, n, bodies[j]);
      text := text + block;
    }
    if Trim(sample.explanation) != "" {
      text := text + ("样例说明：" + Trim(sample.explanation) + "\n" + "\n");
    } else {
      assert text == text + "";
    }
  }

  method PrintSamples(samples: seq<Sample>) returns (text: string)
    ensures text == SamplesText(samples)
  {
    hide SampleText;
    text := "";
    for i := 0 to |samples|
      invariant text == SamplesText(samples[..i])
    {
      var sample := PrintSample(samples[i], i + 1);
      text := text + sample;
      var done := samples[..i + 1];
      assert done[..i] == samples[..i];
    }
    assert samples[..|samples|] == samples;
  }

  method Markdown(s: Statement) returns (text: string)
    ensures text == Render(s)
  {
    var b := PrintSamples(s.samples);
    b := Front(s) + b;
    var constraints := s.constraints;
    if Trim(s.notes) != "" {
      constraints := constraints + "\n\n" + s.notes;
    }
    assert constraints == Limits(s);
    b := b + Section("数据规模与约定", constraints);
    text := Trim(b) + "\n";
  }

  // ------------------------------------------------------------------- parsing

  datatype Label = Unlabelled | Input | Output

  /** The variables of the line loop. */
  datatype Scan = Scan(tag: Label, fence: string, body: string, input: string, haveInput: bool, out: seq<Sample>)

  const START := Scan(Unlabelled, "", "", "", false, [])

  predicate OpensFence(trimmed: string) { "```" <= trimmed || "~~~" <= trimmed }

  /** Length of the run of c at the front of s. */
  function RunLength(s: string, c: char): (n: nat)
    ensures n <= |s|
  {
    if s != "" && s[0] == c then 1 + RunLength(s[1..], c) else 0
  }

  function LabelOfTitle(title: string): Label {
    if Contains(title, "输出样例") || Contains(title, "样例输出") || "sample output" <= title
       || "输出 #" <= title || title == "输出" then Output
    else if Contains(title, "输入样例") || Contains(title, "样例输入") || "sample input" <= title
            || "输入 #" <= title || title == "输入" then Input
    else Unlabelled
  }

  const TITLE_CUT := "*：: "

  function TitleOf(heading: string): string {
    Lower(CutRight(CutLeft(CutLeft(heading, "# "), TITLE_CUT), TITLE_CUT))
  }

  /** A fence line while a fence is open: the labelled body is stored. */
  function Close(st: Scan): Scan {
    var text := DropNewline(st.body);
    var st' := st.(fence := "", body := "", tag := Unlabelled);
    match st.tag
    case Unlabelled => st'
    case Input => st'.(input := text, haveInput := true)
    case Output =>
      if st.haveInput
      then st'.(out := st.out + [Sample(st.input, text, "original", "")], haveInput := false)
      else st'
  }

  function Step(st: Scan, line: string): Scan {
    var t := Trim(line);
    if st.fence != "" then
      if t == st.fence then Close(st) else st.(body := st.body + line + "\n")
    else if OpensFence(t) then st.(fence := t[..RunLength(t, t[0])])
    else if "#" <= t then st.(tag := LabelOfTitle(TitleOf(t)))
    else st
  }

  function ScanAll(st: Scan, lines: seq<string>): Scan
    decreases lines
  {
    if lines == [] then st else ScanAll(Step(st, lines[0]), lines[1..])
  }

  /** The samples that a text holds. */
  function Extract(text: string): seq<Sample> { ScanAll(START, Lines(Unix(text))).out }

  lemma ScanHead(st: Scan, lines: seq<string>, i: nat)
    requires i <= |lines|
    ensures i < |lines| ==> ScanAll(st, lines[i..]) == ScanAll(Step(st, lines[i]), lines[i + 1..])
    ensures i == |lines| ==> ScanAll(st, lines[i..]) == st
  {
    if i < |lines| {
      assert lines[i..][1..] == lines[i + 1..];
    }
  }

  /** The run of equal characters that opens a fence. */
  method FenceOf(t: string) returns (fence: string)
    requires t != ""
    ensures fence == t[..RunLength(t, t[0])]
  {
    var n := 0;
    while n < |t| && t[n] == t[0]
      invariant 0 <= n <= |t|
      invariant n + RunLength(t[n..], t[0]) == RunLength(t, t[0])
    {
      assert t[n..][1..] == t[n + 1..];
      n := n + 1;
    }
    fence := t[..n];
  }

  method ExtractStatementSamples(text: string) returns (out: seq<Sample>)
    ensures out == Extract(text)
  {
    hide Trim, LabelOfTitle, TitleOf, Lines, Unix, ScanAll, RunLength;
    out := [];
    var tag, fence, body, input := Unlabelled, "", "", "";
    var haveInput := false;
    var lines := Lines(Unix(text));
    assert lines[0..] == lines;
    for i := 0 to |lines|
      invariant ScanAll(START, lines) == ScanAll(Scan(tag, fence, body, input, haveInput, out), lines[i..])
    {
      ScanHead(Scan(tag, fence, body, input, haveInput, out), lines, i);
      var line := lines[i];
      var t := Trim(line);
      if fence != "" {
        if t == fence {
          if tag == Input {
            input := DropNewline(body);
            haveInput := true;
          }
          if tag == Output && haveInput {
            out := out + [Sample(input, DropNewline(body), "original", "")];
            haveInput := false;
          }
          fence := "";
          body := "";
          tag := Unlabelled;
        } else {
          body := body + line + "\n";
        }
        continue;
      }
      if OpensFence(t) {
        fence := FenceOf(t);
        continue;
      }
      if "#" <= t {
        tag := LabelOfTitle(TitleOf(t));
      }
    }
    ScanHead(Scan(tag, fence, body, input, haveInput, out), lines, |lines|);
  }

  // ---------------------------------------------------- feeding text line by line

  /** The effect of a run of complete lines. */
  function Feed(st: Scan, text: string): Scan
    requires text == "" || EndsLine(text)
  {
    if text == "" then st else ScanAll(st, Lines(DropNewline(Unix(text))))
  }

  lemma {:induction false} ScanAppend(st: Scan, a: seq<string>, b: seq<string>)
    ensures ScanAll(st, a + b) == ScanAll(ScanAll(st, a), b)
    decreases a
  {
    if a == [] {
      assert a + b == b;
    } else {
      assert (a + b)[1..] == a[1..] + b;
      ScanAppend(Step(st, a[0]), a[1..], b);
    }
  }

  lemma FeedConcat(st: Scan, a: string, b: string)
    requires a == "" || EndsLine(a)
    requires b == "" || EndsLine(b)
    ensures a + b == "" || EndsLine(a + b)
    ensures Feed(st, a + b) == Feed(Feed(st, a), b)
  {
    if a == "" {
      assert a + b == b;
    } else if b == "" {
      assert a + b == a;
    } else {
      UnixConcat(a, b);
      UnixEnd(a);
      UnixEnd(b);
      FeedJoined(st, a, b, DropNewline(Unix(a)), DropNewline(Unix(b)));
    }
  }

  lemma FeedJoined(st: Scan, a: string, b: string, u: string, v: string)
    requires EndsLine(a) && EndsLine(b)
    requires Unix(a) == u + "\n" && Unix(b) == v + "\n" && Unix(a + b) == Unix(a) + Unix(b)
    ensures Feed(st, a + b) == Feed(Feed(st, a), b)
  {
    hide Unix, Lines, ScanAll;
    assert DropNewline(u + "\n") == u && DropNewline(v + "\n") == v;
    assert Unix(a + b) == (u + "\n" + v) + "\n";
    assert DropNewline((u + "\n" + v) + "\n") == u + "\n" + v;
    LinesConcat(u, v);
    ScanAppend(st, Lines(u), Lines(v));
  }

  lemma {:induction false} OneLine(line: string)
    requires '\n' !in line
    ensures Lines(line) == [line]
  {
    if line != "" {
      OneLine(line[1..]);
      assert [line[0]] + line[1..] == line;
    }
  }

  lemma FeedText(st: Scan, text: string)
    requires text == "" || text[|text| - 1] != '\r'
    ensures Feed(st, text + "\n") == ScanAll(st, Lines(Unix(text)))
  {
    UnixConcat(text, "\n");
    assert Unix("\n") == "\n";
    assert DropNewline(Unix(text) + "\n") == Unix(text);
  }

  lemma FeedLine(st: Scan, line: string)
    requires '\n' !in line && '\r' !in line
    ensures Feed(st, line + "\n") == Step(st, line)
  {
    FeedText(st, line);
    UnixIsId(line);
    OneLine(line);
    assert ScanAll(st, [line]) == Step(st, line);
  }

  lemma FeedBlank(st: Scan)
    requires st.fence == ""
    ensures Feed(st, "\n") == st
  {
    FeedLine(st, "");
    assert "" + "\n" == "\n";
  }

  lemma ExtractIsFeed(text: string)
    requires EndsLine(text)
    ensures Extract(text) == Feed(START, text).out
  {
    UnixEnd(text);
    ScanLastLine(START, DropNewline(Unix(text)));
  }

  lemma ScanLastLine(st: Scan, u: string)
    ensures ScanAll(st, Lines(u + "\n")).out == ScanAll(st, Lines(u)).out
  {
    assert u + "\n" == u + "\n" + "";
    LinesConcat(u, "");
    ScanAppend(st, Lines(u), [""]);
    var before := ScanAll(st, Lines(u));
    assert ScanAll(before, [""]) == Step(before, "");
  }

  // ------------------------------------------------------------------- headings

  lemma NotContained(s: string, p: string, k: nat)
    requires k < |p| && p[k] !in s
    ensures !Contains(s, p)
  {
    forall i | 0 <= i <= |s|
      ensures !OccursAt(s, p, i)
    {
      if i + |p| <= |s| {
        assert s[i..i + |p|][k] == s[i + k];
      }
    }
  }

  /** A title without 样 is a sample title only when it begins with one of the short forms. */
  lemma ShortTitle(title: string)
    requires '样' !in title && title != "" && title[0] != 's'
    ensures LabelOfTitle(title) ==
            if "输出 #" <= title || title == "输出" then Output
            else if "输入 #" <= title || title == "输入" then Input
            else Unlabelled
  {
    NotContained(title, "输入样例", 2);
    NotContained(title, "样例输入", 0);
    NotContained(title, "输出样例", 2);
    NotContained(title, "样例输出", 0);
  }

  /** mark stands somewhere in the title. */
  ghost predicate Holds(title: string, mark: string) { exists a, b :: title == a + mark + b }

  /** The title begins with mark. */
  ghost predicate Begins(title: string, mark: string) { exists b :: title == mark + b }

  lemma HoldsIsContains(title: string, mark: string)
    ensures Holds(title, mark) <==> Contains(title, mark)
  {
    if Holds(title, mark) {
      var a, b :| title == a + mark + b;
      assert title[|a|..|a| + |mark|] == mark;
      assert OccursAt(title, mark, |a|);
    }
    if Contains(title, mark) {
      var i :| 0 <= i <= |title| && OccursAt(title, mark, i);
      assert title == title[..i] + mark + title[i + |mark|..];
    }
  }

  lemma BeginsIsPrefix(title: string, mark: string)
    ensures Begins(title, mark) <==> mark <= title
  {
    if mark <= title {
      assert title == mark + title[|mark|..];
    }
  }

  /** The exact class of every title: five forms announce an output, five an input, and an
      output form counts more. */
  lemma TitleClass(title: string)
    ensures LabelOfTitle(title) == Output <==>
            || Holds(title, "输出样例") || Holds(title, "样例输出") || Begins(title, "sample output")
            || Begins(title, "输出 #") || title == "输出"
    ensures LabelOfTitle(title) == Input <==>
            && !(|| Holds(title, "输出样例") || Holds(title, "样例输出") || Begins(title, "sample output")
                 || Begins(title, "输出 #") || title == "输出")
            && (|| Holds(title, "输入样例") || Holds(title, "样例输入") || Begins(title, "sample input")
                || Begins(title, "输入 #") || title == "输入")
  {
    HoldsIsContains(title, "输出样例");
    HoldsIsContains(title, "样例输出");
    HoldsIsContains(title, "输入样例");
    HoldsIsContains(title, "样例输入");
    BeginsIsPrefix(title, "sample output");
    BeginsIsPrefix(title, "sample input");
    BeginsIsPrefix(title, "输出 #");
    BeginsIsPrefix(title, "输入 #");
    hide Holds, Begins, Contains;
  }

  ghost predicate AllIn(s: string, cut: string) { forall i | 0 <= i < |s| :: s[i] in cut }

  lemma {:induction false} CutRightSkips(rest: string, skipped: string, cut: string)
    requires AllIn(skipped, cut) && rest != "" && rest[|rest| - 1] !in cut
    ensures CutRight(rest + skipped, cut) == rest
  {
    if skipped == "" {
      assert rest + skipped == rest;
    } else {
      var n := |skipped| - 1;
      assert (rest + skipped)[..|rest + skipped| - 1] == rest + skipped[..n];
      assert (rest + skipped)[|rest + skipped| - 1] == skipped[n];
      CutRightSkips(rest, skipped[..n], cut);
    }
  }

  /** The title of any heading: its name in lower case, without the marks, and without the
      asterisks, colons and blanks around it. */
  lemma TitleIsName(marks: string, left: string, name: string, right: string)
    requires AllIn(marks, "# ") && AllIn(left, "*：: ") && AllIn(right, "*：: ")
    requires left != "" ==> left[0] !in "# "
    requires name != "" && name[0] !in "# *：: " && name[|name| - 1] !in "*：: "
    ensures TitleOf(marks + (left + (name + right))) == Lower(name)
  {
    hide Lower;
    CutLeftSkips(marks, left + (name + right), "# ");
    CutLeftSkips(left, name + right, "*：: ");
    CutRightSkips(name, right, "*：: ");
  }

  predicate PlainTitle(name: string) {
    && name != "" && name[0] !in "# *：: " && name[|name| - 1] !in "*：: "
    && !IsSpace(name[|name| - 1])
    && forall i :: 0 <= i < |name| ==> !('A' <= name[i] <= 'Z') && name[i] != '\n' && name[i] != '\r'
  }

  lemma TitleOfHeading(name: string)
    requires PlainTitle(name)
    ensures TitleOf("#### " + name) == name
  {
    CutLeftSkips("#### ", name, "# ");
    assert Lower(name) == name;
  }

  lemma StepHeading(st: Scan, name: string)
    requires st.fence == "" && PlainTitle(name)
    ensures Feed(st, "#### " + name + "\n") == st.(tag := LabelOfTitle(name))
  {
    hide TitleOf, LabelOfTitle, Feed;
    var line := "#### " + name;
    TitleOfHeading(name);
    FeedLine(st, line);
    assert line[0] == '#' && line[|line| - 1] == name[|name| - 1];
    TrimIsId(line);
    hide Trim;
    assert "#" <= line && !OpensFence(line);
  }

  function Numbered(tag: string, n: nat): string { tag + (" #" + Decimal(n)) }

  lemma NumberedIsPlain(tag: string, n: nat)
    requires PlainTitle(tag)
    ensures PlainTitle(Numbered(tag, n))
    ensures '样' !in tag ==> '样' !in Numbered(tag, n)
  {
    var name, digits := Numbered(tag, n), Decimal(n);
    forall i | 0 <= i < |name|
      ensures !('A' <= name[i] <= 'Z') && name[i] != '\n' && name[i] != '\r'
      ensures '样' !in tag ==> name[i] != '样'
    {
      if i >= |tag| + 2 {
        assert name[i] == digits[i - |tag| - 2];
      }
    }
    assert name[|name| - 1] == digits[|digits| - 1];
  }

  lemma InputTitle(n: nat)
    ensures LabelOfTitle(Numbered("输入", n)) == Input
  {
    var name := Numbered("输入", n);
    NumberedIsPlain("输入", n);
    ShortTitle(name);
    assert name[..4] == "输入 #";
    assert name[1] == '入' && "输出 #"[1] == '出' && "输出"[1] == '出';
  }

  lemma OutputTitle(n: nat)
    ensures LabelOfTitle(Numbered("输出", n)) == Output
  {
    var name := Numbered("输出", n);
    NumberedIsPlain("输出", n);
    ShortTitle(name);
    assert name[..4] == "输出 #";
  }

  /** One numbered heading of a sample. */
  lemma StepNumbered(st: Scan, tag: string, n: nat)
    requires st.fence == "" && PlainTitle(tag)
    ensures Feed(st, Heading(tag, n) + "\n") == st.(tag := LabelOfTitle(Numbered(tag, n)))
  {
    hide Feed, LabelOfTitle, PlainTitle, Numbered, Heading;
    NumberedIsPlain(tag, n);
    StepHeading(st, Numbered(tag, n));
    HeadingIsNumbered(tag, n);
  }

  lemma HeadingIsNumbered(tag: string, n: nat)
    ensures Heading(tag, n) == "#### " + Numbered(tag, n)
  {
    hide Decimal;
  }

  // ------------------------------------------------------------- one sample body

  /** What the parser makes of one printed body. */
  function ReadBack(body: string): string { DropNewline(Unix(Printed(body))) }

  lemma {:induction false} LinesAreUnfenced(lines: seq<string>, st: Scan)
    requires st.fence != ""
    requires forall k :: 0 <= k < |lines| ==> Trim(lines[k]) != st.fence
    ensures ScanAll(st, lines) == st.(body := st.body + JoinLines(lines))
    decreases lines
  {
    hide Trim, Close, OpensFence, RunLength, LabelOfTitle, TitleOf;
    if lines == [] {
      assert st.body + "" == st.body;
    } else {
      var next := st.(body := st.body + lines[0] + "\n");
      assert Trim(lines[0]) != st.fence;
      assert Step(st, lines[0]) == next;
      LinesAreUnfenced(lines[1..], next);
      assert JoinLines(lines) == lines[0] + "\n" + JoinLines(lines[1..]);
      hide ScanAll, JoinLines, Step;
      assert next.body + JoinLines(lines[1..]) == st.body + (lines[0] + "\n" + JoinLines(lines[1..]));
    }
  }

  /** No line of a body that lacks the fence closes the fence. */
  lemma NoLineCloses(text: string, fence: string, k: nat)
    requires k < |Lines(text)| && !Contains(text, fence)
    ensures Trim(Lines(text)[k]) != fence
  {
    hide Trim, Contains;
    var line := Lines(text)[k];
    LineIsPart(text, k);
    hide Lines;
    var i, j :| 0 <= i <= j <= |text| && line == text[i..j];
    TrimShape(line);
    var a, b :| 0 <= a <= b <= |line| && Trim(line) == line[a..b];
    SliceOfSlice(text, i, j, a, b);
    SliceIsContained(text, i + a, i + b);
  }

  lemma PrintedLacksFence(body: string, fence: string)
    requires fence != "" && forall i :: 0 <= i < |fence| ==> fence[i] == '`'
    requires !Contains(body, fence)
    ensures !Contains(ReadBack(body), fence)
  {
    hide Contains, Unix;
    if Contains(ReadBack(body), fence) {
      PrefixContains(ReadBack(body), Unix(Printed(body)), fence);
      UnixAddsNoRun(Printed(body), fence);
      if Printed(body) == Unix(body) + "\n" {
        NewlineAddsNoRun(Unix(body), fence);
      }
      UnixAddsNoRun(body, fence);
    }
  }

  lemma NewlineAddsNoRun(text: string, fence: string)
    requires fence != "" && fence[|fence| - 1] != '\n'
    requires Contains(text + "\n", fence)
    ensures Contains(text, fence)
  {
    var p := text + "\n";
    var i :| 0 <= i <= |p| && OccursAt(p, fence, i);
    assert p[i..i + |fence|][|fence| - 1] == p[i + |fence| - 1];
    assert p[i..i + |fence|] == text[i..i + |fence|];
    assert OccursAt(text, fence, i);
  }

  lemma PrintedEnds(body: string)
    ensures EndsLine(Printed(body))
    ensures Unix(Printed(body)) == ReadBack(body) + "\n"
  {
    if EndsLine(body) {
      UnixEnd(body);
    }
    UnixEnd(Printed(body));
  }

  /** The lines of a printed body under its own fence are all collected. */
  lemma CollectBody(st: Scan, body: string)
    requires st.fence == FenceFrom(body, 3) && st.body == ""
    ensures EndsLine(Printed(body))
    ensures Feed(st, Printed(body)) == st.(body := ReadBack(body) + "\n")
  {
    hide Trim, Lines, Unix, Contains, ReadBack, ScanAll;
    PrintedEnds(body);
    PrintedLacksFence(body, st.fence);
    var lines := Lines(ReadBack(body));
    forall k | 0 <= k < |lines|
      ensures Trim(lines[k]) != st.fence
    {
      NoLineCloses(ReadBack(body), st.fence, k);
    }
    LinesAreUnfenced(lines, st);
    JoinOfLines(ReadBack(body));
    assert "" + (ReadBack(body) + "\n") == ReadBack(body) + "\n";
    assert DropNewline(ReadBack(body) + "\n") == ReadBack(body);
  }

  /** A printed body between its fences: the parser collects exactly the printed text. */
  lemma FeedFenced(st: Scan, body: string)
    requires st.fence == "" && st.body == ""
    ensures EndsLine(Printed(body))
    ensures var fence := FenceFrom(body, 3);
            Feed(Feed(Feed(st, fence + "\n"), Printed(body)), fence + "\n")
            == Close(st.(body := ReadBack(body) + "\n"))
  {
    hide Feed, ReadBack, Printed, Contains;
    var fence := FenceFrom(body, 3);
    FeedOpening(st, fence);
    CollectBody(st.(fence := fence), body);
    var full := st.(fence := fence, body := ReadBack(body) + "\n");
    FeedLine(full, fence);
    TrimIsId(fence);
    hide Trim;
    assert Step(full, fence) == Close(full);
  }

  lemma {:induction false} RunOfTicks(s: string)
    requires forall i :: 0 <= i < |s| ==> s[i] == '`'
    ensures RunLength(s, '`') == |s|
  {
    if s != "" {
      RunOfTicks(s[1..]);
    }
  }

  lemma FeedOpening(st: Scan, fence: string)
    requires st.fence == ""
    requires |fence| >= 3 && forall i :: 0 <= i < |fence| ==> fence[i] == '`'
    ensures Feed(st, fence + "\n") == st.(fence := fence)
  {
    FeedLine(st, fence);
    TrimIsId(fence);
    RunOfTicks(fence);
    assert fence[..3] == "```";
    assert fence[..|fence|] == fence;
  }

  lemma FeedBlock(st: Scan, tag: string, n: nat, body: string)
    requires st.fence == "" && st.body == "" && PlainTitle(tag)
    ensures EndsLine(Block(tag, n, body))
    ensures Feed(st, Block(tag, n, body))
            == Close(st.(tag := LabelOfTitle(Numbered(tag, n)), body := ReadBack(body) + "\n"))
  {
    var fence := FenceFrom(body, 3);
    var s1 := st.(tag := LabelOfTitle(Numbered(tag, n)));
    StepNumbered(st, tag, n);
    FeedBlank(s1);
    FeedFenced(s1, body);
    var s2 := Close(s1.(body := ReadBack(body) + "\n"));
    FeedBlank(s2);
    FeedConcat(st, Heading(tag, n) + "\n", "\n");
    FeedConcat(st, Heading(tag, n) + "\n" + "\n", fence + "\n");
    FeedConcat(st, Heading(tag, n) + "\n" + "\n" + (fence + "\n"), Printed(body));
    FeedConcat(st, Heading(tag, n) + "\n" + "\n" + (fence + "\n") + Printed(body), fence + "\n");
    FeedConcat(st, Heading(tag, n) + "\n" + "\n" + (fence + "\n") + Printed(body) + (fence + "\n"), "\n");
  }

  // ------------------------------------------------------------- quiet passages

  /** No fence open, whatever was seen before. */
  predicate Ready(st: Scan, out: seq<Sample>) { st.fence == "" && st.body == "" && st.out == out }

  /** Between samples: no fence open, no input waiting, `out` collected so far. */
  predicate Resting(st: Scan, out: seq<Sample>) {
    Ready(st, out) && !st.haveInput
  }

  /** A passage that closes every fence it opens and carries no sample of its own. */
  predicate Quiet(text: string) { Resting(ScanAll(START, Lines(Unix(text))), []) }

  /** Two parser states that differ only in what was collected before. */
  ghost predicate SameShape(a: Scan, b: Scan, out: seq<Sample>) {
    && a.tag == b.tag && a.fence == b.fence && a.body == b.body && a.haveInput == b.haveInput
    && (a.haveInput ==> a.input == b.input) && b.out == out + a.out
  }

  lemma {:induction false} ScanSameShape(a: Scan, b: Scan, out: seq<Sample>, lines: seq<string>)
    requires SameShape(a, b, out)
    ensures SameShape(ScanAll(a, lines), ScanAll(b, lines), out)
    decreases lines
  {
    if lines != [] {
      ScanSameShape(Step(a, lines[0]), Step(b, lines[0]), out, lines[1..]);
    }
  }

  /** A text read from between two samples is read as on its own. */
  lemma FeedAlone(st: Scan, text: string, out: seq<Sample>)
    requires Resting(st, out) && st.tag == Unlabelled && (text == "" || EndsLine(text))
    ensures Feed(st, text).out == out + Feed(START, text).out && Feed(st, text).fence == Feed(START, text).fence
  {
    if text != "" {
      ScanSameShape(START, st, out, Lines(DropNewline(Unix(text))));
    }
  }

  /** Outside a fence nothing is collected. */
  predicate Tidy(st: Scan) { st.fence == "" ==> st.body == "" }

  lemma {:induction false} ScanTidy(st: Scan, lines: seq<string>)
    requires Tidy(st)
    ensures Tidy(ScanAll(st, lines))
    decreases lines
  {
    if lines != [] {
      hide Trim, LabelOfTitle, TitleOf;
      ScanTidy(Step(st, lines[0]), lines[1..]);
    }
  }

  lemma FeedTidy(text: string)
    requires text == "" || EndsLine(text)
    ensures Tidy(Feed(START, text))
  {
    ScanTidy(START, Lines(DropNewline(Unix(text))));
  }

  lemma FeedQuiet(st: Scan, text: string, out: seq<Sample>)
    requires Resting(st, out) && st.tag == Unlabelled
    requires Quiet(text)
    ensures Resting(Feed(ScanAll(st, Lines(Unix(text))), "\n"), out)
  {
    ScanSameShape(START, st, out, Lines(Unix(text)));
    FeedBlank(ScanAll(st, Lines(Unix(text))));
  }

  /** A section is its heading, then the lines of its trimmed body, then a blank line. */
  lemma FeedSectionText(st: Scan, name: string, body: string)
    requires st.fence == "" && PlainTitle(name)
    ensures EndsLine(Section(name, body))
    ensures Feed(st, Section(name, body))
            == Feed(ScanAll(st.(tag := LabelOfTitle(name)), Lines(Unix(Trim(body)))), "\n")
  {
    hide Feed, ScanAll, LabelOfTitle, Lines, Unix, Trim, PlainTitle;
    var head, t := "#### " + name + "\n", Trim(body);
    TrimShape(body);
    StepHeading(st, name);
    FeedBlank(st.(tag := LabelOfTitle(name)));
    FeedConcat(st, head, "\n");
    FeedText(st.(tag := LabelOfTitle(name)), t);
    FeedConcat(st, head + "\n", t + "\n");
    FeedConcat(st, head + "\n" + (t + "\n"), "\n");
  }

  lemma FeedSection(st: Scan, name: string, body: string, out: seq<Sample>)
    requires Resting(st, out) && PlainTitle(name) && LabelOfTitle(name) == Unlabelled
    requires Quiet(Trim(body))
    ensures EndsLine(Section(name, body))
    ensures Resting(Feed(st, Section(name, body)), out)
  {
    FeedSectionText(st, name, body);
    FeedQuiet(st.(tag := Unlabelled), Trim(body), out);
  }

  lemma SectionTitle(name: string)
    requires name in {"题目描述", "输入格式", "输出格式", "数据规模与约定"}
    ensures PlainTitle(name) && LabelOfTitle(name) == Unlabelled
  {
    hide LabelOfTitle;
    assert |name| >= 4 && name[2] != ' ' && '样' !in name && name[0] != 's';
    ShortTitle(name);
    hide PlainTitle;
    assert "输入 #"[2] == ' ' && "输出 #"[2] == ' ';
  }

  // ------------------------------------------------------------------ the samples

  function SampleReadBack(sample: Sample): Sample {
    Sample(ReadBack(sample.input), ReadBack(sample.output), "original", "")
  }

  function SamplesReadBack(samples: seq<Sample>): seq<Sample> {
    seq(|samples|, k requires 0 <= k < |samples| => SampleReadBack(samples[k]))
  }

  lemma FeedBodies(st: Scan, sample: Sample, n: nat, out: seq<Sample>)
    requires Ready(st, out)
    ensures var text := Block("输入", n, sample.input) + Block("输出", n, sample.output);
            && EndsLine(text)
            && Resting(Feed(st, text), out + [SampleReadBack(sample)])
            && Feed(st, text).tag == Unlabelled
  {
    hide Feed, Block, ReadBack, LabelOfTitle, Numbered;
    var a, b := Block("输入", n, sample.input), Block("输出", n, sample.output);
    FeedBlock(st, "输入", n, sample.input);
    InputTitle(n);
    var s1 := Feed(st, a);
    assert DropNewline(ReadBack(sample.input) + "\n") == ReadBack(sample.input);
    FeedBlock(s1, "输出", n, sample.output);
    OutputTitle(n);
    assert DropNewline(ReadBack(sample.output) + "\n") == ReadBack(sample.output);
    FeedConcat(st, a, b);
  }

  /** A printed sample is read back from any state outside a fence. */
  lemma FeedSample(st: Scan, sample: Sample, n: nat, out: seq<Sample>)
    requires Ready(st, out)
    ensures Resting(Feed(st, SampleFront(sample, n)), out + [SampleReadBack(sample)])
    ensures Feed(st, SampleFront(sample, n)).tag == Unlabelled
  {
    hide Feed, Block, Heading, SampleReadBack, LabelOfTitle, Numbered;
    var head := Heading("输入输出样例", n) + "\n";
    var bodies := Block("输入", n, sample.input) + Block("输出", n, sample.output);
    StepNumbered(st, "输入输出样例", n);
    var s1 := Feed(st, head);
    FeedBlank(s1);
    FeedConcat(st, head, "\n");
    FeedBodies(s1, sample, n, out);
    FeedConcat(st, head + "\n", bodies);
    assert SampleFront(sample, n) == head + "\n" + bodies;
  }

  lemma FeedNothing(st: Scan)
    ensures Feed(st, "") == st
  {
  }

  // ----------------------------------------------------------- printing and reading

  /** The text behind the last sample; all text when there is no sample. */
  function Ending(s: Statement): (text: string)
    ensures EndsLine(text)
  {
    (if s.samples == [] then Front(s) else Remark(s.samples[|s.samples| - 1].explanation)) + (Tail(s) + "\n")
  }

  /** Every fence that the text before the last sample opens is closed again before the next
      sample: the first three sections taken together, and each remark. The text behind the
      last sample may leave a fence open. */
  predicate Closes(s: Statement) {
    s.samples != [] ==>
      && Feed(START, Front(s)).fence == ""
      && forall k | 0 <= k < |s.samples| - 1 :: Feed(START, Remark(s.samples[k].explanation)).fence == ""
  }

  /** No text outside the sample bodies holds a sample of its own. */
  predicate Bare(s: Statement) {
    && (s.samples != [] ==>
          && Feed(START, Front(s)).out == []
          && forall k | 0 <= k < |s.samples| - 1 :: Feed(START, Remark(s.samples[k].explanation)).out == [])
    && Feed(START, Ending(s)).out == []
  }

  /** What is read in front of sample k. */
  function GatheredBefore(s: Statement, k: nat): seq<Sample>
    requires k < |s.samples|
  {
    if k == 0 then Feed(START, Front(s)).out
    else
      GatheredBefore(s, k - 1) + [SampleReadBack(s.samples[k - 1])]
      + Feed(START, Remark(s.samples[k - 1].explanation)).out
  }

  /** The samples of the statement, with what the text between them holds. */
  function Gathered(s: Statement): seq<Sample> {
    var n := |s.samples|;
    (if n == 0 then [] else GatheredBefore(s, n - 1) + [SampleReadBack(s.samples[n - 1])]) + Feed(START, Ending(s)).out
  }

  /** The printed samples feed the parser to exactly what is gathered. */
  lemma {:induction false} FeedSamples(s: Statement, k: nat)
    requires Closes(s) && k < |s.samples|
    ensures EndsLine(Front(s) + SamplesText(s.samples[..k]))
    ensures Ready(Feed(START, Front(s) + SamplesText(s.samples[..k])), GatheredBefore(s, k))
  {
    hide Feed, Front, SampleFront, Remark, SampleReadBack;
    if k == 0 {
      FeedTidy(Front(s));
      assert s.samples[..0] == [] && Front(s) + "" == Front(s);
    } else {
      var before := Front(s) + SamplesText(s.samples[..k - 1]);
      var sample := s.samples[k - 1];
      var out := GatheredBefore(s, k - 1) + [SampleReadBack(sample)];
      FeedSamples(s, k - 1);
      FeedSample(Feed(START, before), sample, k, GatheredBefore(s, k - 1));
      FeedConcat(START, before, SampleFront(sample, k));
      var st := Feed(START, before + SampleFront(sample, k));
      FeedRemark(st, sample.explanation, out);
      FeedConcat(START, before + SampleFront(sample, k), Remark(sample.explanation));
      SamplesTextStep(s.samples, k);
      Regroup(Front(s), SamplesText(s.samples[..k - 1]), SampleFront(sample, k), Remark(sample.explanation));
    }
  }

  lemma SamplesTextStep(samples: seq<Sample>, k: nat)
    requires 0 < k <= |samples|
    ensures SamplesText(samples[..k])
            == SamplesText(samples[..k - 1]) + (SampleFront(samples[k - 1], k) + Remark(samples[k - 1].explanation))
  {
    hide SampleFront, Remark;
    assert samples[..k][..k - 1] == samples[..k - 1];
  }

  lemma Regroup(a: string, b: string, c: string, d: string)
    ensures a + (b + (c + d)) == ((a + b) + c) + d
  {
  }

  /** A remark that closes its fences is read as on its own. */
  lemma FeedRemark(st: Scan, explanation: string, out: seq<Sample>)
    requires Resting(st, out) && st.tag == Unlabelled && Feed(START, Remark(explanation)).fence == ""
    requires Tidy(st)
    ensures Ready(Feed(st, Remark(explanation)), out + Feed(START, Remark(explanation)).out)
  {
    var text := Remark(explanation);
    hide Remark;
    FeedAlone(st, text, out);
    if text != "" {
      ScanTidy(st, Lines(DropNewline(Unix(text))));
    }
  }

  /** The last section as it stands after the final trim. */
  function Tail(s: Statement): string {
    var t := Trim(Limits(s));
    if t == "" then "#### 数据规模与约定" else "#### 数据规模与约定" + "\n" + "\n" + t
  }

  lemma TrimKeeps(front: string, tail: string, space: string)
    requires front != "" && !IsSpace(front[0])
    requires tail != "" && !IsSpace(tail[|tail| - 1])
    requires forall i :: 0 <= i < |space| ==> IsSpace(space[i])
    ensures Trim(front + tail + space) == front + tail
  {
    assert (front + tail + space)[0] == front[0];
    TrimRightDropsSpace(front + tail, space);
  }

  lemma RenderShape(s: Statement)
    ensures Render(s) == Front(s) + SamplesText(s.samples) + Tail(s) + "\n"
  {
    hide SamplesText, Trim, IsSpace;
    TrimShape(Limits(s));
    var before, space := Front(s) + SamplesText(s.samples), if Trim(Limits(s)) == "" then "\n\n\n\n" else "\n\n";
    FrontStarts(s);
    TailShape(s, space);
    hide Front, Tail, Section, Limits;
    assert before + Section("数据规模与约定", Limits(s)) == before + Tail(s) + space;
    TrimKeeps(before, Tail(s), space);
  }

  lemma FrontStarts(s: Statement)
    ensures Front(s) != "" && Front(s)[0] == '#' && !IsSpace('#')
  {
    hide Trim;
  }

  lemma TailShape(s: Statement, space: string)
    requires space == if Trim(Limits(s)) == "" then "\n\n\n\n" else "\n\n"
    ensures Section("数据规模与约定", Limits(s)) == Tail(s) + space
    ensures Tail(s) != "" && !IsSpace(Tail(s)[|Tail(s)| - 1])
    ensures forall i :: 0 <= i < |space| ==> IsSpace(space[i])
  {
    var t := Trim(Limits(s));
    TrimShape(Limits(s));
    hide Trim, Limits;
    var head := "#### 数据规模与约定";
    assert head == "#### " + "数据规模与约定";
    if t == "" {
      assert head + "\n" + "\n" + (t + "\n") + "\n" == head + space;
      assert Tail(s)[|Tail(s)| - 1] == '定';
    } else {
      assert head + "\n" + "\n" + (t + "\n") + "\n" == head + "\n" + "\n" + t + space;
    }
  }

  /** Reading a rendered statement back gives its samples, in order, and what the text between
      them holds. */
  lemma RenderedSamples(s: Statement)
    requires Closes(s)
    ensures Extract(Render(s)) == Gathered(s)
  {
    hide Feed, Extract, Front, Tail, SamplesText, SampleFront, Remark, SampleReadBack, Render, Closes, GatheredBefore;
    var c := Tail(s) + "\n";
    RenderShape(s);
    assert Render(s) == Front(s) + SamplesText(s.samples) + c;
    ExtractIsFeed(Render(s));
    if s.samples == [] {
      assert SamplesText(s.samples) == "" by {
        NoSamples();
      }
      assert Front(s) + "" == Front(s);
      assert Gathered(s) == Feed(START, Ending(s)).out;
    } else {
      var n := |s.samples|;
      var last := s.samples[n - 1];
      var before := Front(s) + SamplesText(s.samples[..n - 1]);
      FeedSamples(s, n - 1);
      FeedSample(Feed(START, before), last, n, GatheredBefore(s, n - 1));
      FeedConcat(START, before, SampleFront(last, n));
      var out := GatheredBefore(s, n - 1) + [SampleReadBack(last)];
      FeedAlone(Feed(START, before + SampleFront(last, n)), Ending(s), out);
      FeedConcat(START, before + SampleFront(last, n), Ending(s));
      SamplesTextStep(s.samples, n);
      assert s.samples[..n] == s.samples;
      Regroup(Front(s), SamplesText(s.samples[..n - 1]), SampleFront(last, n), Remark(last.explanation));
      Associates(before + SampleFront(last, n), Remark(last.explanation), c);
    }
  }

  lemma NoSamples()
    ensures SamplesText([]) == ""
  {
  }

  lemma {:induction false} GatheredLength(s: Statement, k: nat)
    requires k < |s.samples|
    ensures |GatheredBefore(s, k)| >= k + |Feed(START, Front(s)).out|
    ensures forall j | 0 <= j < k ::
              |GatheredBefore(s, k)| >= k + |Feed(START, Remark(s.samples[j].explanation)).out|
  {
    hide Feed, Front, Remark, SampleReadBack;
    if k > 0 {
      GatheredLength(s, k - 1);
    }
  }

  lemma {:induction false} GatheredBare(s: Statement, k: nat)
    requires k < |s.samples| && Bare(s)
    ensures GatheredBefore(s, k) == SamplesReadBack(s.samples[..k])
  {
    hide Feed, Front, Remark, SampleReadBack, Ending;
    if k > 0 {
      GatheredBare(s, k - 1);
      assert Feed(START, Remark(s.samples[k - 1].explanation)).out == [];
      assert SamplesReadBack(s.samples[..k])
             == SamplesReadBack(s.samples[..k - 1]) + [SampleReadBack(s.samples[k - 1])];
    }
  }

  /** Unless no other text holds a sample, more is gathered than the samples. */
  lemma GatheredMore(s: Statement)
    requires !Bare(s)
    ensures |Gathered(s)| > |s.samples|
  {
    hide Feed, Front, Remark, SampleReadBack, Ending;
    var n := |s.samples|;
    if n > 0 {
      GatheredLength(s, n - 1);
    }
  }

  lemma GatheredExactly(s: Statement)
    requires Bare(s)
    ensures Gathered(s) == SamplesReadBack(s.samples)
  {
    hide Feed, Front, Remark, SampleReadBack, Ending, GatheredBefore;
    var n := |s.samples|;
    if n > 0 {
      GatheredBare(s, n - 1);
      assert SamplesReadBack(s.samples) == SamplesReadBack(s.samples[..n - 1]) + [SampleReadBack(s.samples[n - 1])];
    }
  }

  /** What is gathered is the samples exactly when no other text holds one; otherwise it is
      longer. The samples themselves are always there. */
  lemma GatheredIsSamples(s: Statement)
    ensures Gathered(s) == SamplesReadBack(s.samples) <==> Bare(s)
    ensures !Bare(s) ==> |Gathered(s)| > |s.samples|
    ensures forall k | 0 <= k < |s.samples| :: SampleReadBack(s.samples[k]) in Gathered(s)
  {
    hide Gathered, Bare, SampleReadBack;
    if Bare(s) {
      GatheredExactly(s);
    } else {
      GatheredMore(s);
    }
    forall k | 0 <= k < |s.samples|
      ensures SampleReadBack(s.samples[k]) in Gathered(s)
    {
      GatheredHas(s, k, |s.samples| - 1);
      GatheredStarts(s);
    }
  }

  lemma GatheredStarts(s: Statement)
    requires s.samples != []
    ensures GatheredBefore(s, |s.samples| - 1) + [SampleReadBack(s.samples[|s.samples| - 1])] <= Gathered(s)
  {
    hide Feed, GatheredBefore, SampleReadBack, Ending;
  }

  lemma {:induction false} GatheredHas(s: Statement, j: nat, k: nat)
    requires k < |s.samples| && j <= k
    ensures SampleReadBack(s.samples[j]) in GatheredBefore(s, k) + [SampleReadBack(s.samples[k])]
  {
    hide Feed, Front, Remark, SampleReadBack;
    if j < k {
      GatheredHas(s, j, k - 1);
    }
  }

  // -------------------------------------------------------------------- calm text

  /** Every passage that is not a sample body closes its fences and holds no sample. */
  predicate Calm(s: Statement) {
    && Quiet(Trim(s.description)) && Quiet(Trim(s.input)) && Quiet(Trim(s.output)) && Quiet(Trim(Limits(s)))
    && forall k :: 0 <= k < |s.samples| ==> CalmSample(s.samples[k])
  }

  predicate CalmSample(sample: Sample) {
    Trim(sample.explanation) == "" || Quiet("样例说明：" + Trim(sample.explanation))
  }

  lemma FeedFront(s: Statement)
    requires Calm(s)
    ensures EndsLine(Front(s))
    ensures Resting(Feed(START, Front(s)), [])
  {
    var a, b, c := Section("题目描述", s.description), Section("输入格式", s.input), Section("输出格式", s.output);
    SectionTitle("题目描述");
    SectionTitle("输入格式");
    SectionTitle("输出格式");
    FeedSection(START, "题目描述", s.description, []);
    FeedSection(Feed(START, a), "输入格式", s.input, []);
    FeedConcat(START, a, b);
    FeedSection(Feed(START, a + b), "输出格式", s.output, []);
    FeedConcat(START, a + b, c);
  }

  lemma FeedTail(st: Scan, s: Statement, out: seq<Sample>)
    requires Resting(st, out) && Quiet(Trim(Limits(s)))
    ensures EndsLine(Tail(s) + "\n")
    ensures Feed(st, Tail(s) + "\n").out == out
  {
    hide Feed, LabelOfTitle, ScanAll, Lines, Unix, Trim;
    var t := Trim(Limits(s));
    TrimShape(Limits(s));
    SectionTitle("数据规模与约定");
    StepHeading(st, "数据规模与约定");
    assert "#### 数据规模与约定" == "#### " + "数据规模与约定";
    if t != "" {
      var head := "#### " + "数据规模与约定" + "\n";
      var s1 := Feed(st, head);
      FeedBlank(s1);
      FeedConcat(st, head, "\n");
      FeedText(s1, t);
      ScanSameShape(START, s1, out, Lines(Unix(t)));
      assert out + [] == out;
      FeedConcat(st, head + "\n", t + "\n");
      assert Tail(s) + "\n" == head + "\n" + (t + "\n");
    }
  }

  lemma RemarkRests(explanation: string)
    requires Trim(explanation) == "" || Quiet("样例说明：" + Trim(explanation))
    ensures Resting(Feed(START, Remark(explanation)), [])
  {
    TrimShape(explanation);
    if Trim(explanation) != "" {
      var text := "样例说明：" + Trim(explanation);
      FeedText(START, text);
      FeedQuiet(START, text, []);
      FeedConcat(START, text + "\n", "\n");
    }
  }

  /** Calm passages meet both conditions. */
  lemma CalmIsBare(s: Statement)
    requires Calm(s)
    ensures Closes(s) && Bare(s)
  {
    hide Feed, Front, Remark, Quiet, Trim, Tail;
    FeedFront(s);
    forall k | 0 <= k < |s.samples|
      ensures Resting(Feed(START, Remark(s.samples[k].explanation)), [])
    {
      RemarkRests(s.samples[k].explanation);
    }
    var before := if s.samples == [] then Front(s) else Remark(s.samples[|s.samples| - 1].explanation);
    FeedTail(Feed(START, before), s, []);
    FeedConcat(START, before, Tail(s) + "\n");
  }

  /** A body whose printed form holds no "\r\n". */
  ghost predicate CrSafe(body: string) { NoCrLf(body + "\n") }

  /** One body survives, up to one final newline, exactly when it is CrSafe. */
  lemma BodySurvives(body: string)
    ensures ReadBack(body) == DropNewline(body) <==> CrSafe(body)
  {
    PrintedEnds(body);
    UnixShortens(body);
    UnixShortens(Printed(body));
    var whole := body + "\n";
    assert NoCrLf(whole) ==> NoCrLf(body) by {
      assert forall i :: 0 <= i < |body| ==> body[i] == whole[i];
    }
    if NoCrLf(body) && !CrSafe(body) {
      var i :| 0 <= i < |whole| - 1 && whole[i] == '\r' && whole[i + 1] == '\n';
      assert i == |body| - 1;
      assert Printed(body) == whole;
    }
  }

  function Stripped(samples: seq<Sample>): seq<Sample> {
    seq(|samples|, k requires 0 <= k < |samples| =>
      Sample(DropNewline(samples[k].input), DropNewline(samples[k].output), "original", ""))
  }

  /** The parser inverts the printer, up to one final newline per body, exactly on the
      statements whose sample bodies are CrSafe and whose other text holds no sample. */
  lemma RoundTrip(s: Statement)
    requires Closes(s)
    ensures Extract(Render(s)) == Stripped(s.samples)
            <==> Bare(s)
                 && forall k :: 0 <= k < |s.samples| ==> CrSafe(s.samples[k].input) && CrSafe(s.samples[k].output)
  {
    hide Closes, Bare, Extract, Render, Gathered, CrSafe, DropNewline, ReadBack;
    RenderedSamples(s);
    GatheredIsSamples(s);
    var back, want := SamplesReadBack(s.samples), Stripped(s.samples);
    forall k | 0 <= k < |s.samples|
      ensures back[k] == want[k] <==> CrSafe(s.samples[k].input) && CrSafe(s.samples[k].output)
    {
      BodySurvives(s.samples[k].input);
      BodySurvives(s.samples[k].output);
    }
    assert back == want <==> forall k :: 0 <= k < |s.samples| ==> back[k] == want[k];
  }

  // ---------------------------------------------------------- when text is quiet

  /** No line opens a fence. */
  predicate Unfenced(text: string) {
    var lines := Lines(Unix(text));
    forall k :: 0 <= k < |lines| ==> !OpensFence(Trim(lines[k]))
  }

  lemma {:induction false} UnfencedScan(st: Scan, lines: seq<string>)
    requires Resting(st, [])
    requires forall k :: 0 <= k < |lines| ==> !OpensFence(Trim(lines[k]))
    ensures Resting(ScanAll(st, lines), [])
    decreases lines
  {
    if lines != [] {
      UnfencedScan(Step(st, lines[0]), lines[1..]);
    }
  }

  lemma {:induction false} LinesOfPrefixed(p: string, text: string)
    requires '\n' !in p && '\r' !in p
    ensures Lines(Unix(p + text)) == [p + Lines(Unix(text))[0]] + Lines(Unix(text))[1..]
  {
    if p == "" {
      assert p + text == text;
      assert p + Lines(Unix(text))[0] == Lines(Unix(text))[0];
    } else {
      assert (p + text)[1..] == p[1..] + text;
      LinesOfPrefixed(p[1..], text);
      assert Unix(p + text) == [p[0]] + Unix(p[1..] + text);
      assert [p[0]] + (p[1..] + Lines(Unix(text))[0]) == p + Lines(Unix(text))[0];
    }
  }

  lemma {:induction false} TrimRightKeepsHead(s: string)
    requires s != "" && !IsSpace(s[0])
    ensures TrimRight(s) != "" && TrimRight(s)[0] == s[0]
  {
    if |s| > 1 && IsSpace(s[|s| - 1]) {
      TrimRightKeepsHead(s[..|s| - 1]);
    }
  }

  /** A statement none of whose passages has a line that opens a fence is calm. */
  lemma UnfencedIsCalm(s: Statement)
    requires Unfenced(Trim(s.description)) && Unfenced(Trim(s.input)) && Unfenced(Trim(s.output))
    requires Unfenced(Trim(Limits(s)))
    requires forall k :: 0 <= k < |s.samples| ==> Unfenced(Trim(s.samples[k].explanation))
    ensures Calm(s)
  {
    UnfencedScan(START, Lines(Unix(Trim(s.description))));
    UnfencedScan(START, Lines(Unix(Trim(s.input))));
    UnfencedScan(START, Lines(Unix(Trim(s.output))));
    UnfencedScan(START, Lines(Unix(Trim(Limits(s)))));
    forall k | 0 <= k < |s.samples|
      ensures CalmSample(s.samples[k])
    {
      RemarkIsQuiet(Trim(s.samples[k].explanation));
    }
  }

  /** The round trip for statements without fence lines outside the samples. */
  lemma UnfencedRoundTrip(s: Statement)
    requires Unfenced(Trim(s.description)) && Unfenced(Trim(s.input)) && Unfenced(Trim(s.output))
    requires Unfenced(Trim(Limits(s)))
    requires forall k :: 0 <= k < |s.samples| ==> Unfenced(Trim(s.samples[k].explanation))
    ensures Extract(Render(s)) == Stripped(s.samples)
            <==> forall k :: 0 <= k < |s.samples| ==> CrSafe(s.samples[k].input) && CrSafe(s.samples[k].output)
  {
    hide *;
    UnfencedIsCalm(s);
    CalmIsBare(s);
    RoundTrip(s);
  }

  lemma RemarkIsQuiet(explanation: string)
    requires Unfenced(explanation)
    ensures Quiet("样例说明：" + explanation)
  {
    var p := "样例说明：";
    LinesOfPrefixed(p, explanation);
    var lines := Lines(Unix(p + explanation));
    TrimRightKeepsHead(lines[0]);
    assert Trim(lines[0])[0] == '样';
    UnfencedScan(START, lines);
  }

  // ------------------------------------------------------------ fences left open

  /** Inside a fence that a text does not contain, the text only grows the body. */
  lemma StaysOpen(st: Scan, text: string)
    requires st.fence != "" && EndsLine(text) && !Contains(text, st.fence)
    requires '\n' !in st.fence && '\r' !in st.fence
    ensures Feed(st, text) == st.(body := st.body + Unix(text))
  {
    hide Contains, Trim, Lines, Unix, ScanAll, JoinLines;
    var u := DropNewline(Unix(text));
    var lines := Lines(u);
    UnixEnd(text);
    if Contains(u, st.fence) {
      PrefixContains(u, Unix(text), st.fence);
      UnixAddsNoRun(text, st.fence);
    }
    forall k | 0 <= k < |lines|
      ensures Trim(lines[k]) != st.fence
    {
      NoLineCloses(u, st.fence, k);
    }
    LinesAreUnfenced(lines, st);
    JoinOfLines(u);
  }

  /** A fence that the first sections leave open and that stands nowhere behind them swallows
      every sample. */
  lemma OpenFenceSwallows(s: Statement)
    requires var st := Feed(START, Front(s));
             && st.out == [] && st.fence != "" && '\n' !in st.fence && '\r' !in st.fence
             && !Contains(SamplesText(s.samples) + (Tail(s) + "\n"), st.fence)
    ensures Extract(Render(s)) == []
  {
    hide Feed, Extract, Contains, Front, SamplesText, Tail, Render;
    var rest := SamplesText(s.samples) + (Tail(s) + "\n");
    RenderShape(s);
    ExtractIsFeed(Render(s));
    FeedConcat(START, Front(s), rest);
    StaysOpen(Feed(START, Front(s)), rest);
    Regroup(Front(s), SamplesText(s.samples), Tail(s), "\n");
  }

  const BACKTICKS := "```"

  /** Three backticks are open, and nothing has been labelled or collected. */
  predicate Adrift(st: Scan) { st.fence == BACKTICKS && st.tag == Unlabelled && st.out == [] }

  /** No line opens a fence or is a heading. */
  predicate PlainLines(lines: seq<string>) {
    forall k | 0 <= k < |lines| :: !OpensFence(Trim(lines[k])) && !("#" <= Trim(lines[k]))
  }

  predicate PlainBody(body: string) { !Contains(body, BACKTICKS) && PlainLines(Lines(ReadBack(body))) }

  lemma {:induction false} PlainSkipped(st: Scan, lines: seq<string>)
    requires st.fence == "" && PlainLines(lines)
    ensures ScanAll(st, lines) == st
    decreases lines
  {
    if lines != [] {
      hide Trim, OpensFence, LabelOfTitle, TitleOf;
      assert Step(st, lines[0]) == st;
      PlainSkipped(st, lines[1..]);
    }
  }

  /** A text without backticks is swallowed. */
  lemma SwallowText(st: Scan, text: string)
    requires Adrift(st) && EndsLine(text) && !Contains(text, BACKTICKS)
    ensures Adrift(Feed(st, text))
  {
    hide Feed, Contains;
    StaysOpen(st, text);
  }

  lemma NoTicks(text: string)
    requires '`' !in text
    ensures !Contains(text, BACKTICKS)
  {
    NotContained(text, BACKTICKS, 0);
  }

  /** A plain body outside any fence changes nothing. */
  lemma FeedPlain(st: Scan, body: string)
    requires st.fence == "" && PlainBody(body)
    ensures Feed(st, Printed(body)) == st
  {
    hide ReadBack, Unix, Printed, ScanAll, PlainLines, Contains;
    PrintedEnds(body);
    assert DropNewline(ReadBack(body) + "\n") == ReadBack(body);
    PlainSkipped(st, Lines(ReadBack(body)));
  }

  lemma FeedClosing(st: Scan)
    requires st.fence == BACKTICKS
    ensures Feed(st, BACKTICKS + "\n") == Close(st)
  {
    hide Feed, Close;
    FeedLine(st, BACKTICKS);
    TrimIsId(BACKTICKS);
  }

  /** The fences of a printed block change roles: the first closes what was open, the plain
      body is outside, the second opens again. */
  lemma SwallowFenced(st: Scan, body: string)
    requires Adrift(st) && PlainBody(body)
    ensures FenceFrom(body, 3) == BACKTICKS
    ensures Adrift(Feed(Feed(Feed(st, BACKTICKS + "\n"), Printed(body)), BACKTICKS + "\n"))
  {
    hide Feed, PlainLines, Contains, Printed, ReadBack;
    assert Ticks(3) == BACKTICKS;
    FeedClosing(st);
    FeedPlain(Close(st), body);
    FeedOpening(Close(st), BACKTICKS);
  }

  lemma SwallowBlock(st: Scan, tag: string, n: nat, body: string)
    requires Adrift(st) && PlainBody(body) && '`' !in tag
    ensures Adrift(Feed(st, Block(tag, n, body)))
  {
    hide Feed, Adrift, Printed, PlainBody, Decimal;
    var head := Heading(tag, n) + "\n" + "\n";
    var fence := BACKTICKS + "\n";
    assert '`' !in Decimal(n);
    NoTicks(head);
    SwallowText(st, head);
    var s1 := Feed(st, head);
    SwallowFenced(s1, body);
    NoTicks("\n");
    SwallowText(Feed(Feed(Feed(s1, fence), Printed(body)), fence), "\n");
    PrintedEnds(body);
    FeedConcat(st, head, fence);
    FeedConcat(st, head + fence, Printed(body));
    FeedConcat(st, head + fence + Printed(body), fence);
    FeedConcat(st, head + fence + Printed(body) + fence, "\n");
  }

  lemma SwallowSample(st: Scan, sample: Sample, n: nat)
    requires Adrift(st) && PlainBody(sample.input) && PlainBody(sample.output)
    requires !Contains(Remark(sample.explanation), BACKTICKS)
    ensures Adrift(Feed(st, SampleText(sample, n)))
  {
    hide Feed, Adrift, Block, PlainBody, Remark, Decimal, Contains;
    var head := Heading("输入输出样例", n) + "\n" + "\n";
    var a, b := Block("输入", n, sample.input), Block("输出", n, sample.output);
    assert '`' !in Decimal(n);
    NoTicks(head);
    SwallowText(st, head);
    SwallowBlock(Feed(st, head), "输入", n, sample.input);
    SwallowBlock(Feed(Feed(st, head), a), "输出", n, sample.output);
    FeedConcat(st, head, a);
    FeedConcat(st, head + a, b);
    FeedNothing(Feed(st, head + a + b));
    if Remark(sample.explanation) != "" {
      SwallowText(Feed(st, head + a + b), Remark(sample.explanation));
    }
    FeedConcat(st, head + a + b, Remark(sample.explanation));
  }

  lemma {:induction false} SwallowSamples(st: Scan, samples: seq<Sample>)
    requires Adrift(st)
    requires forall k | 0 <= k < |samples| ::
      PlainBody(samples[k].input) && PlainBody(samples[k].output)
      && !Contains(Remark(samples[k].explanation), BACKTICKS)
    ensures Adrift(Feed(st, SamplesText(samples)))
  {
    hide Feed, Adrift, SampleText, PlainBody, Remark, Contains;
    FeedNothing(st);
    if samples != [] {
      var last := |samples| - 1;
      SwallowSamples(st, samples[..last]);
      SwallowSample(Feed(st, SamplesText(samples[..last])), samples[last], |samples|);
      FeedConcat(st, SamplesText(samples[..last]), SampleText(samples[last], |samples|));
    }
  }

  /** The ordinary failure: the first sections leave three backticks open. However many samples
      follow, if their bodies are plain lines and the other text has no three backticks, not one
      of them is read back. */
  lemma BackticksLoseSamples(s: Statement)
    requires Adrift(Feed(START, Front(s))) && !Contains(Tail(s) + "\n", BACKTICKS)
    requires forall k | 0 <= k < |s.samples| ::
      PlainBody(s.samples[k].input) && PlainBody(s.samples[k].output)
      && !Contains(Remark(s.samples[k].explanation), BACKTICKS)
    ensures Extract(Render(s)) == []
  {
    hide Feed, Extract, Contains, Front, SamplesText, Tail, Render, PlainBody, Remark;
    RenderShape(s);
    ExtractIsFeed(Render(s));
    SwallowSamples(Feed(START, Front(s)), s.samples);
    FeedConcat(START, Front(s), SamplesText(s.samples));
    SwallowText(Feed(START, Front(s) + SamplesText(s.samples)), Tail(s) + "\n");
    FeedConcat(START, Front(s) + SamplesText(s.samples), Tail(s) + "\n");
    Associates(Front(s) + SamplesText(s.samples), Tail(s), "\n");
  }

  const LOST := Statement(1, "d\n```\nopen", "i", "o", "c", [Sample("1", "2", "original", "")], "", "r")

  lemma LostLines()
    ensures Lines(Unix(Trim(LOST.description))) == ["d", "```", "open"]
  {
    hide Trim, Unix, Lines;
    var text := "d\n```\nopen";
    TrimIsId(text);
    UnixIsId(text);
    assert NoCrLf(text) by {
      assert '\r' !in text;
    }
    var back := "```\nopen";
    assert text == "d" + "\n" + back && back == "```" + "\n" + "open";
    LinesConcat("d", back);
    LinesConcat("```", "open");
    OneLine("d");
    OneLine("```");
    OneLine("open");
  }

  lemma LostScan()
    ensures Adrift(ScanAll(START, ["d", "```", "open"]))
  {
    TrimIsId("d");
    TrimIsId("```");
    TrimIsId("open");
    RunOfTicks("```");
    hide Trim, LabelOfTitle, TitleOf, RunLength;
    var opened' := START.(fence := "```");
    assert "```"[..3] == "```";
    assert Step(START, "d") == START && Step(START, "```") == opened';
    assert ScanAll(START, ["d", "```", "open"]) == ScanAll(START, ["```", "open"]);
    assert ScanAll(START, ["```", "open"]) == ScanAll(opened', ["open"]);
  }

  lemma PlainSection(st: Scan, name: string, body: string)
    requires Adrift(st) && '`' !in name && '`' !in body && Trim(body) == body
    ensures Adrift(Feed(st, Section(name, body)))
  {
    hide Feed, Adrift, Trim;
    NoTicks(Section(name, body));
    SwallowText(st, Section(name, body));
  }

  lemma LostFront()
    ensures Adrift(Feed(START, Front(LOST)))
  {
    hide Feed, Adrift, Section, Trim, Lines, Unix, ScanAll;
    var a, b, c := Section("题目描述", LOST.description), Section("输入格式", "i"), Section("输出格式", "o");
    LostLines();
    LostScan();
    SectionTitle("题目描述");
    FeedSectionText(START, "题目描述", LOST.description);
    NoTicks("\n");
    SwallowText(ScanAll(START, ["d", "```", "open"]), "\n");
    TrimIsId("i");
    TrimIsId("o");
    PlainSection(Feed(START, a), "输入格式", "i");
    PlainSection(Feed(Feed(START, a), b), "输出格式", "o");
    FeedConcat(START, a, b);
    FeedConcat(START, a + b, c);
  }

  lemma PlainDigit(body: string)
    requires body in {"1", "2"}
    ensures PlainBody(body)
  {
    NoTicks(body);
    assert NoCrLf(body + "\n");
    UnixIsId(body);
    UnixIsId(body + "\n");
    assert DropNewline(body + "\n") == body;
    OneLine(body);
    TrimIsId(body);
  }

  /** One sample, and a description that leaves three backticks open: nothing is read back. */
  lemma OpenFenceExample()
    ensures |LOST.samples| == 1 && Extract(Render(LOST)) == []
  {
    hide Feed, Adrift, PlainBody, Extract, Render, Contains, Trim;
    LostFront();
    PlainDigit("1");
    PlainDigit("2");
    TrimIsId("");
    TrimIsId("c");
    NoTicks(Tail(LOST) + "\n");
    NoTicks("");
    BackticksLoseSamples(LOST);
  }

  // A fence left open does not always lose a sample: a remark may close it and repeat the
  // sample. So Closes is no necessary condition.

  const REPEATED := "x\n" + "~~~\n" + (Block("输入", 1, "1") + Block("输出", 1, "2"))

  const ODD := Statement(1, "d", "i", "~~~", "c", [Sample("1", "2", "original", REPEATED)], "", "r")

  lemma UnfencedWord(word: string)
    requires word in {"d", "i", "c"}
    ensures Trim(word) == word && Quiet(word)
  {
    TrimIsId(word);
    assert NoCrLf(word);
    UnixIsId(word);
    OneLine(word);
    hide Trim;
    assert Lines(Unix(word)) == [word] && !OpensFence(word);
    UnfencedScan(START, [word]);
  }

  /** The first sections leave three tildes open. */
  lemma OddFront()
    ensures var st := Feed(START, Front(ODD)); st.fence == "~~~" && st.tag == Unlabelled && st.out == []
  {
    hide Feed, Section, Trim, Quiet, LabelOfTitle;
    var a, b, c := Section("题目描述", "d"), Section("输入格式", "i"), Section("输出格式", "~~~");
    UnfencedWord("d");
    UnfencedWord("i");
    SectionTitle("题目描述");
    SectionTitle("输入格式");
    SectionTitle("输出格式");
    FeedSection(START, "题目描述", "d", []);
    FeedSection(Feed(START, a), "输入格式", "i", []);
    FeedConcat(START, a, b);
    TildesOpen(Feed(START, a + b));
    FeedConcat(START, a + b, c);
  }

  lemma TildesOpen(st: Scan)
    requires Resting(st, [])
    ensures var after := Feed(st, Section("输出格式", "~~~"));
            after.fence == "~~~" && after.tag == Unlabelled && after.out == []
  {
    hide LabelOfTitle, Feed, Section;
    var outside := st.(tag := Unlabelled);
    SectionTitle("输出格式");
    FeedSectionText(st, "输出格式", "~~~");
    TrimIsId("~~~");
    UnixIsId("~~~");
    OneLine("~~~");
    hide Trim;
    assert "~~~"[..3] == "~~~" && RunLength("~~~", '~') == 3;
    assert ScanAll(outside, ["~~~"]) == outside.(fence := "~~~");
    FeedLine(outside.(fence := "~~~"), "");
    TrimIsId("");
    assert "" + "\n" == "\n";
  }

  lemma RepeatedRemark()
    ensures Remark(REPEATED) == "样例说明：x\n" + ("~~~\n" + (Block("输入", 1, "1") + Block("输出", 1, "2")))
  {
    hide Trim, Contains, Heading, Printed;
    var fence := FenceFrom("2", 3);
    var front := "x\n" + "~~~\n"
                 + (Block("输入", 1, "1") + (Heading("输出", 1) + "\n" + "\n" + (fence + "\n") + Printed("2")));
    assert REPEATED == front + fence + "\n\n";
    TrimKeeps(front, fence, "\n\n");
    assert Trim(REPEATED) + "\n" + "\n" == REPEATED;
    assert "样例说明：x\n" == "样例说明：" + "x\n";
  }

  /** The remark closes the fence, and the sample it repeats is read. */
  lemma FeedRepeated(st: Scan)
    requires st.fence == "~~~" && st.tag == Unlabelled && st.out == []
    ensures Resting(Feed(st, Remark(REPEATED)), [SampleReadBack(ODD.samples[0])])
  {
    hide Feed, Block, Remark, SampleReadBack, REPEATED;
    var bodies := Block("输入", 1, "1") + Block("输出", 1, "2");
    RepeatedRemark();
    TrimIsId("样例说明：x");
    TrimIsId("~~~");
    hide Trim;
    FeedLine(st, "样例说明：x");
    assert "样例说明：x" + "\n" == "样例说明：x\n" && "~~~" + "\n" == "~~~\n";
    var st1 := Feed(st, "样例说明：x\n");
    FeedLine(st1, "~~~");
    var st2 := Feed(st1, "~~~\n");
    FeedBodies(st2, ODD.samples[0], 1, []);
    FeedConcat(st1, "~~~\n", bodies);
    FeedConcat(st, "样例说明：x\n", "~~~\n" + bodies);
  }

  lemma NoTildes(text: string)
    requires '~' !in text
    ensures !Contains(text, "~~~")
  {
    NotContained(text, "~~~", 0);
  }

  lemma HeadingLacksTilde(tag: string)
    requires '~' !in tag
    ensures '~' !in Heading(tag, 1)
  {
    assert '~' !in Decimal(1);
    hide Decimal;
  }

  lemma BlockLacksTilde(tag: string, body: string)
    requires '~' !in tag && body in {"1", "2"}
    ensures '~' !in Block(tag, 1, body)
  {
    hide Heading, Printed, FenceFrom;
    HeadingLacksTilde(tag);
    PrintedLetter(body);
  }

  lemma OddSampleStaysInside(st: Scan)
    requires st.fence == "~~~"
    ensures var after := Feed(st, SampleFront(ODD.samples[0], 1)); after == st.(body := after.body)
  {
    hide Feed, Contains, Heading, Block, REPEATED;
    HeadingLacksTilde("输入输出样例");
    BlockLacksTilde("输入", "1");
    BlockLacksTilde("输出", "2");
    var text := SampleFront(ODD.samples[0], 1);
    NoTildes(text);
    StaysOpen(st, text);
  }

  lemma PrintedLetter(body: string)
    requires |body| == 1 && body[0] !in "`\n\r"
    ensures Printed(body) == body + "\n" && ReadBack(body) == body && FenceFrom(body, 3) == "```"
  {
    NoTicks(body);
    assert Ticks(3) == "```";
    assert NoCrLf(body + "\n");
    UnixIsId(body);
    UnixIsId(body + "\n");
    assert DropNewline(body + "\n") == body;
  }

  lemma OddReadBack()
    ensures [SampleReadBack(ODD.samples[0])] == Stripped(ODD.samples)
  {
    hide ReadBack, REPEATED;
    PrintedLetter("1");
    PrintedLetter("2");
    assert DropNewline("1") == "1" && DropNewline("2") == "2";
  }

  lemma OddLimits()
    ensures Quiet(Trim(Limits(ODD)))
  {
    hide Trim, Quiet, REPEATED;
    TrimIsId("");
    UnfencedWord("c");
  }

  lemma OddText()
    ensures Render(ODD)
            == Front(ODD) + (SampleFront(ODD.samples[0], 1) + Remark(REPEATED)) + (Tail(ODD) + "\n")
  {
    hide Front, Tail, SampleFront, Remark, Render, REPEATED;
    RenderShape(ODD);
    SamplesTextStep(ODD.samples, 1);
    NoSamples();
    assert ODD.samples[..1] == ODD.samples && ODD.samples[..0] == [];
  }

  /** The round trip holds although the first sections leave a fence open. */
  lemma ClosesIsNotNecessary()
    ensures !Closes(ODD) && Extract(Render(ODD)) == Stripped(ODD.samples)
  {
    hide Feed, Extract, Front, Tail, SampleFront, Remark, SampleReadBack, Stripped, Render, REPEATED, Trim, Limits,
         Quiet;
    var front, rest, tail := SampleFront(ODD.samples[0], 1), Remark(REPEATED), Tail(ODD) + "\n";
    OddFront();
    OddSampleStaysInside(Feed(START, Front(ODD)));
    FeedRepeated(Feed(Feed(START, Front(ODD)), front));
    OddLimits();
    var read := [SampleReadBack(ODD.samples[0])];
    FeedTail(Feed(Feed(Feed(START, Front(ODD)), front), rest), ODD, read);
    FeedConcat(Feed(START, Front(ODD)), front, rest);
    FeedConcat(START, Front(ODD), front + rest);
    FeedConcat(START, Front(ODD) + (front + rest), tail);
    OddText();
    ExtractIsFeed(Render(ODD));
    OddReadBack();
  }

  lemma PrefixContains(u: string, whole: string, p: string)
    requires u <= whole && Contains(u, p) && p != ""
    ensures Contains(whole, p) && whole != ""
  {
    ContainsWithin("", u, whole[|u|..], p);
    assert "" + u + whole[|u|..] == whole;
  }

  // ------------------------------------------------------------------ validation

  /** strings.TrimRight(strings.ReplaceAll(v, "\r\n", "\n"), "\n") */
  function Canonical(v: string): string { CutRight(Unix(v), "\n") }

  /** \s of the regexp package */
  predicate IsBlank(c: char) { c == '\t' || c == '\n' || c == '\U{0C}' || c == '\r' || c == ' ' }

  function SkipBlanks(v: string): string {
    if v != "" && IsBlank(v[0]) then SkipBlanks(v[1..]) else v
  }

  /** Blanks, perhaps a backslash, one to six # and a blank stand at the front. */
  predicate HeadingHere(v: string) {
    var body := SkipBlanks(v);
    var marks := if body != "" && body[0] == '\\' then body[1..] else body;
    var n := RunLength(marks, '#');
    1 <= n <= 6 && n < |marks| && IsBlank(marks[n])
  }

  /** sectionHeading.MatchString: a heading stands at the front of a line. */
  predicate HasHeading(v: string) {
    exists i | 0 <= i <= |v| :: (i == 0 || v[i - 1] == '\n') && HeadingHere(v[i..])
  }

  /** The two groups of sourceFigure; the one that did not take part is empty. */
  datatype Figure = Figure(angled: string, plain: string)

  /** Length of the longest front that holds none of the cut characters and, if `noBlank`, no
      blank. */
  function Span(v: string, cut: string, noBlank: bool): (n: nat)
    ensures n <= |v|
  {
    if v == "" || v[0] in cut || (noBlank && IsBlank(v[0])) then 0 else 1 + Span(v[1..], cut, noBlank)
  }

  /** The target behind "](" with its closing bracket, and their length. */
  function TargetAt(v: string): (f: Option<(Figure, nat)>)
    ensures f.Some? ==> f.value.1 <= |v|
  {
    var inner := if v != "" && v[0] == '<' then Span(v[1..], ">\n", false) else 0;
    if inner > 0 && ">)" <= v[1 + inner..] then Some((Figure(v[1..1 + inner], ""), inner + 3))
    else
      var n := Span(v, ")", true);
      if n > 0 && ")" <= v[n..] then Some((Figure("", v[..n]), n + 1)) else None
  }

  /** A Markdown image at the front, and its length. */
  function FigureAt(v: string): (f: Option<(Figure, nat)>)
    ensures f.Some? ==> 0 < f.value.1 <= |v|
  {
    if !("![" <= v) then None
    else
      var alt := 2 + Span(v[2..], "]\n", false);
      if !("](" <= v[alt..]) then None
      else
        match TargetAt(v[alt + 2..])
        case None => None
        case Some(target) => Some((target.0, alt + 2 + target.1))
  }

  /** sourceFigure.FindAllStringSubmatch */
  function Figures(v: string): seq<Figure>
    decreases |v|
  {
    if v == "" then []
    else
      match FigureAt(v)
      case Some(found) => [found.0] + Figures(v[found.1..])
      case None => Figures(v[1..])
  }

  function Target(f: Figure): string { if f.angled == "" then f.plain else f.angled }

  predicate Shown(figures: seq<Figure>, target: string) {
    exists k | 0 <= k < |figures| :: figures[k].angled == target || figures[k].plain == target
  }

  predicate SectionOk(value: string) {
    Trim(value) != "" && ByteLength(value) <= 64 * 1024 && !HasHeading(value)
  }

  predicate SampleOk(sample: Sample, source: string) {
    && sample.output != ""
    && ByteLength(sample.input) + ByteLength(sample.output) <= 32 * 1024
    && ByteLength(sample.explanation) <= 4000 && !HasHeading(sample.explanation)
    && (|| (sample.origin == "original"
            && Contains(source, Canonical(sample.input)) && Contains(source, Canonical(sample.output)))
        || (sample.origin == "generated"
            && ByteLength(sample.input) <= 4096 && ByteLength(sample.output) <= 4096))
  }

  /** A sample whose canonical input and output are those of `original`. */
  predicate SameContent(sample: Sample, original: Sample) {
    && Canonical(sample.input) == Canonical(original.input)
    && Canonical(sample.output) == Canonical(original.output)
  }

  predicate Retained(samples: seq<Sample>, original: Sample) {
    exists k :: 0 <= k < |samples| && samples[k].origin == "original" && SameContent(samples[k], original)
  }

  /** What a statement must satisfy against its source. */
  ghost predicate Accepts(s: Statement, source: string) {
    && s.version == STATEMENT_VERSION
    && SectionOk(s.description) && SectionOk(s.input) && SectionOk(s.output) && SectionOk(s.constraints)
    && ByteLength(s.notes) <= 16 * 1024 && !HasHeading(s.notes)
    && Trim(s.reason) != "" && ByteLength(s.reason) <= 4000
    && 1 <= |s.samples| <= 20
    && (forall k :: 0 <= k < |s.samples| ==> SampleOk(s.samples[k], Unix(source)))
    && (forall o :: o in Extract(Unix(source)) ==> Retained(s.samples, o))
    && (forall f :: f in Figures(Unix(source)) ==> Shown(Figures(Render(s)), Target(f)))
    && ByteLength(Render(s)) <= 128 * 1024
  }

  /** A heading has a # with a blank behind it. */
  lemma HeadingHasMark(v: string)
    requires HeadingHere(v)
    ensures exists j | 0 <= j < |v| - 1 :: v[j] == '#' && IsBlank(v[j + 1])
  {
    SkipBlanksIsTail(v);
    var body := SkipBlanks(v);
    var from := |v| - |body| + (if body[0] == '\\' then 1 else 0);
    var marks := v[from..];
    assert marks == if body[0] == '\\' then body[1..] else body;
    var n := RunLength(marks, '#');
    RunIsOf(marks, '#', n - 1);
    hide RunLength, SkipBlanks, IsBlank;
    var j := from + n - 1;
    assert v[j] == marks[n - 1] && v[j + 1] == marks[n];
  }

  lemma {:induction false} SkipBlanksIsTail(v: string)
    ensures |SkipBlanks(v)| <= |v| && SkipBlanks(v) == v[|v| - |SkipBlanks(v)|..]
  {
    if v != "" && IsBlank(v[0]) {
      SkipBlanksIsTail(v[1..]);
      var n := |SkipBlanks(v)|;
      assert v[1..][|v| - 1 - n..] == v[|v| - n..];
    }
  }

  lemma {:induction false} RunIsOf(s: string, c: char, k: nat)
    requires k < RunLength(s, c)
    ensures s[k] == c
  {
    if k > 0 {
      RunIsOf(s[1..], c, k - 1);
    }
  }

  const SNEAKED := "#输入\n" + ("```\n" + "a\n" + "```\n") + ("#输出\n" + ("```\n" + "b\n" + "```\n"))

  /** Every # has something behind it, and no blank. */
  predicate Unmarked(v: string) {
    forall j | 0 <= j < |v| && v[j] == '#' :: j + 1 < |v| && !IsBlank(v[j + 1])
  }

  lemma UnmarkedConcat(a: string, b: string)
    requires Unmarked(a) && Unmarked(b)
    ensures Unmarked(a + b)
  {
    hide IsBlank;
    var v := a + b;
    forall j | 0 <= j < |v| && v[j] == '#'
      ensures j + 1 < |v| && !IsBlank(v[j + 1])
    {
      if j < |a| {
        assert a[j] == '#' && v[j + 1] == a[j + 1];
      } else {
        assert b[j - |a|] == '#' && v[j + 1] == b[j + 1 - |a|];
      }
    }
  }

  lemma HeadingIsMarked(v: string)
    requires HasHeading(v)
    ensures !Unmarked(v)
  {
    hide HeadingHere, IsBlank;
    var i :| 0 <= i <= |v| && (i == 0 || v[i - 1] == '\n') && HeadingHere(v[i..]);
    var rest := v[i..];
    HeadingHasMark(rest);
    var j :| 0 <= j < |rest| - 1 && rest[j] == '#' && IsBlank(rest[j + 1]);
    assert v[i + j] == '#' && v[i + j + 1] == rest[j + 1];
  }

  lemma SneakedIsUnmarked()
    ensures Unmarked(SNEAKED)
  {
    var p, q := "```\n" + "a\n" + "```\n", "```\n" + "b\n" + "```\n";
    assert Unmarked("#输入\n") && Unmarked("#输出\n") && '#' !in p && '#' !in q;
    assert Unmarked(p) && Unmarked(q);
    hide Unmarked;
    UnmarkedConcat("#输入\n", p);
    UnmarkedConcat("#输出\n", q);
    UnmarkedConcat("#输入\n" + p, "#输出\n" + q);
  }

  lemma SneakedPasses()
    ensures SectionOk(SNEAKED)
  {
    hide Trim, HasHeading, Unmarked, ByteLength;
    SneakedIsUnmarked();
    if HasHeading(SNEAKED) {
      HeadingIsMarked(SNEAKED);
    }
    BytesAtMost(SNEAKED);
    var inner := "输入\n" + ("```\n" + "a\n" + "```\n") + ("#输出\n" + ("```\n" + "b\n" + "```"));
    assert SNEAKED == "#" + inner + "\n";
    TrimKeeps("#", inner, "\n");
  }

  lemma {:induction false} BytesAtMost(s: string)
    ensures ByteLength(s) <= 4 * |s|
  {
    if s != "" {
      BytesAtMost(s[1..]);
    }
  }

  lemma SneakedTitle(name: string)
    requires name in {"输入", "输出"}
    ensures TitleOf("#" + name) == name
  {
    CutLeftSkips("#", name, "# ");
    assert Lower(name) == name;
  }

  lemma SneakedLabel(name: string)
    requires name in {"输入", "输出"}
    ensures LabelOfTitle(name) == if name == "输入" then Input else Output
  {
    hide LabelOfTitle;
    ShortTitle(name);
  }

  /** A heading of the parser that the heading pattern of the validator does not see. */
  lemma SneakedHeading(st: Scan, name: string)
    requires st.fence == "" && name in {"输入", "输出"}
    ensures Feed(st, "#" + name + "\n") == st.(tag := if name == "输入" then Input else Output)
  {
    hide Feed, TitleOf, LabelOfTitle;
    var line := "#" + name;
    FeedLine(st, line);
    TrimIsId(line);
    hide Trim;
    SneakedTitle(name);
    SneakedLabel(name);
    assert "#" <= line && !OpensFence(line);
  }

  lemma SneakedBlock(st: Scan, name: string, body: string)
    requires st.fence == "" && st.body == "" && name in {"输入", "输出"} && body in {"a", "b"}
    ensures var text := "#" + name + "\n" + ("```\n" + (body + "\n") + "```\n");
            Feed(st, text) == Close(st.(tag := if name == "输入" then Input else Output, body := body + "\n"))
  {
    hide Feed, Close, Printed, ReadBack, FenceFrom, Contains, LabelOfTitle;
    var st1 := Feed(st, "#" + name + "\n");
    SneakedHeading(st, name);
    PrintedLetter(body);
    FeedFenced(st1, body);
    FeedConcat(st1, "```\n", body + "\n");
    FeedConcat(st1, "```\n" + (body + "\n"), "```\n");
    FeedConcat(st, "#" + name + "\n", "```\n" + (body + "\n") + "```\n");
    assert "```" + "\n" == "```\n";
  }

  /** A section may pass validation and hold a sample, and then more is read back than was
      printed: the validator asks for a blank behind the marks of a heading, the parser does not. */
  lemma AcceptedSectionMayHoldSample()
    ensures SectionOk(SNEAKED) && Extract(SNEAKED) == [Sample("a", "b", "original", "")]
  {
    hide Feed, Extract, SectionOk;
    SneakedPasses();
    ExtractIsFeed(SNEAKED);
    var a := "#" + "输入" + "\n" + ("```\n" + ("a" + "\n") + "```\n");
    var b := "#" + "输出" + "\n" + ("```\n" + ("b" + "\n") + "```\n");
    assert SNEAKED == a + b;
    SneakedBlock(START, "输入", "a");
    SneakedBlock(Feed(START, a), "输出", "b");
    FeedConcat(START, a, b);
  }

  method RetainsAll(samples: seq<Sample>, originals: seq<Sample>) returns (kept: bool)
    ensures kept <==> forall o :: o in originals ==> Retained(samples, o)
  {
    hide SameContent;
    for i := 0 to |originals|
      invariant forall k :: 0 <= k < i ==> Retained(samples, originals[k])
    {
      var found := false;
      for j := 0 to |samples|
        invariant forall k :: 0 <= k < j ==>
          !(samples[k].origin == "original" && SameContent(samples[k], originals[i]))
      {
        if samples[j].origin == "original" && SameContent(samples[j], originals[i]) {
          found := true;
          break;
        }
      }
      if !found {
        assert originals[i] in originals;
        return false;
      }
    }
    return true;
  }

  method ShowsAll(originals: seq<Figure>, figures: seq<Figure>) returns (kept: bool)
    ensures kept <==> forall f :: f in originals ==> Shown(figures, Target(f))
  {
    hide Target;
    for i := 0 to |originals|
      invariant forall k :: 0 <= k < i ==> Shown(figures, Target(originals[k]))
    {
      var target := Target(originals[i]);
      var found := false;
      for j := 0 to |figures|
        invariant forall k :: 0 <= k < j ==> figures[k].angled != target && figures[k].plain != target
      {
        if figures[j].angled == target || figures[j].plain == target {
          found := true;
          break;
        }
      }
      if !found {
        assert originals[i] in originals;
        return false;
      }
    }
    return true;
  }

  method Validate(s: Statement, source: string) returns (ok: bool)
    ensures ok <==> Accepts(s, source)
  {
    hide SectionOk, SampleOk, HasHeading, Trim, ByteLength, Unix, Extract, Figures, Shown, Retained, Render;
    if s.version != STATEMENT_VERSION {
      return false;
    }
    if !SectionOk(s.description) || !SectionOk(s.input) || !SectionOk(s.output) || !SectionOk(s.constraints) {
      return false;
    }
    if ByteLength(s.notes) > 16 * 1024 || HasHeading(s.notes) || Trim(s.reason) == "" || ByteLength(s.reason) > 4000 {
      return false;
    }
    if |s.samples| < 1 || |s.samples| > 20 {
      return false;
    }
    var unix := Unix(source);
    for i := 0 to |s.samples|
      invariant forall k :: 0 <= k < i ==> SampleOk(s.samples[k], unix)
    {
      if !SampleOk(s.samples[i], unix) {
        return false;
      }
    }
    var originals := ExtractStatementSamples(unix);
    var kept := RetainsAll(s.samples, originals);
    if !kept {
      return false;
    }
    var text := Markdown(s);
    var shown := ShowsAll(Figures(unix), Figures(text));
    if !shown {
      return false;
    }
    ok := ByteLength(text) <= 128 * 1024;
  }

  lemma CanonicalSurvives(body: string)
    requires CrSafe(Unix(body))
    ensures Canonical(ReadBack(body)) == Canonical(body)
  {
    var u := Unix(body);
    UnixKeepsEnd(body);
    PrintedOfUnix(u);
    CutRightDrops(u);
  }

  lemma PrintedOfUnix(u: string)
    requires CrSafe(u)
    ensures Unix(if EndsLine(u) then u else u + "\n") == (if EndsLine(u) then u else u + "\n")
    ensures Unix(DropNewline(u)) == DropNewline(u) && Unix(u) == u
  {
    assert forall i :: 0 <= i < |u| ==> u[i] == (u + "\n")[i];
    UnixIsId(u);
    UnixIsId(u + "\n");
    UnixIsId(DropNewline(u));
  }

  lemma CutRightDrops(u: string)
    ensures CutRight(DropNewline(u), "\n") == CutRight(u, "\n")
  {
  }

  lemma {:induction false} UnixKeepsEnd(s: string)
    ensures EndsLine(s) <==> EndsLine(Unix(s))
  {
    hide Unix;
    UnixEmpty();
    if s != "" {
      UnixFirst(s);
      var rest := if StartsCrLf(s) then s[2..] else s[1..];
      UnixKeepsEnd(rest);
      if rest != "" {
        UnixFirst(rest);
        assert s[|s| - 1] == rest[|rest| - 1];
        assert Unix(s)[|Unix(s)| - 1] == Unix(rest)[|Unix(rest)| - 1];
      }
    }
  }

  lemma SameAsPrinted(sample: Sample, original: Sample)
    requires CrSafe(Unix(sample.input)) && CrSafe(Unix(sample.output)) && SameContent(sample, original)
    ensures SameContent(SampleReadBack(sample), original)
  {
    hide Canonical, CrSafe, ReadBack, Unix;
    CanonicalSurvives(sample.input);
    CanonicalSurvives(sample.output);
  }

  /** Nothing of an accepted source is lost: every sample the source holds can be read back
      from the rendered statement with the same canonical input and output. */
  lemma NothingLost(s: Statement, source: string)
    requires Closes(s) && Accepts(s, source)
    requires forall k :: 0 <= k < |s.samples| ==>
      CrSafe(Unix(s.samples[k].input)) && CrSafe(Unix(s.samples[k].output))
    ensures forall o :: o in Extract(Unix(source)) ==>
      exists e :: e in Extract(Render(s)) && SameContent(e, o)
  {
    hide Extract, Closes, Gathered, SectionOk, SampleOk, CrSafe, SameContent, Unix, Render, ByteLength, Trim;
    RenderedSamples(s);
    GatheredIsSamples(s);
    forall o | o in Extract(Unix(source))
      ensures exists e :: e in Extract(Render(s)) && SameContent(e, o)
    {
      assert Retained(s.samples, o);
      var k :| 0 <= k < |s.samples| && s.samples[k].origin == "original" && SameContent(s.samples[k], o);
      var e := SampleReadBack(s.samples[k]);
      SameAsPrinted(s.samples[k], o);
      assert e in Extract(Render(s)) && SameContent(e, o);
    }
  }
}
