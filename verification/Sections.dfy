/** What a reader finds under the headings of a printed statement
    (backend/internal/domain/oj_statement.go:106-139). */
module Sections {
  import opened Chars
  import opened Statement
  import opened Text

  const MARK := "#### "

  /** The lines in front of the next heading of the printer. */
  function UpToMark(lines: seq<string>): seq<string> {
    if lines == [] || MARK <= lines[0] then [] else [lines[0]] + UpToMark(lines[1..])
  }

  /** The lines behind the first line that is this heading. */
  function BehindFirst(lines: seq<string>, heading: string): seq<string> {
    if lines == [] then [] else if lines[0] == heading then lines[1..] else BehindFirst(lines[1..], heading)
  }

  /** The lines behind the last line that is this heading. */
  function BehindLast(lines: seq<string>, heading: string): seq<string> {
    if lines == [] then []
    else if lines[|lines| - 1] == heading then []
    else BehindLast(lines[..|lines| - 1], heading) + [lines[|lines| - 1]]
  }

  /** The text under the first heading of this name. */
  function FirstUnder(text: string, name: string): string {
    Trim(JoinLines(UpToMark(BehindFirst(Lines(text), MARK + name))))
  }

  /** The text under the last heading of this name. */
  function LastUnder(text: string, name: string): string {
    Trim(JoinLines(UpToMark(BehindLast(Lines(text), MARK + name))))
  }

  predicate NoMark(lines: seq<string>) { forall k | 0 <= k < |lines| :: !(MARK <= lines[k]) }

  /** No line of the text looks like a heading of the printer. */
  predicate Unheaded(text: string) { NoMark(Lines(Trim(text))) }

  lemma {:induction false} UpToNext(a: seq<string>, b: seq<string>)
    requires NoMark(a) && (b == [] || MARK <= b[0])
    ensures UpToMark(a + b) == a
  {
    if a == [] {
      assert a + b == b;
    } else {
      assert (a + b)[1..] == a[1..] + b;
      UpToNext(a[1..], b);
    }
  }

  lemma {:induction false} BehindSkips(a: seq<string>, b: seq<string>, heading: string)
    requires forall k | 0 <= k < |a| :: a[k] != heading
    ensures BehindFirst(a + ([heading] + b), heading) == b
  {
    if a == [] {
      assert a + ([heading] + b) == [heading] + b && ([heading] + b)[1..] == b;
    } else {
      assert (a + ([heading] + b))[1..] == a[1..] + ([heading] + b);
      BehindSkips(a[1..], b, heading);
    }
  }

  lemma {:induction false} BehindLastSkips(a: seq<string>, b: seq<string>, heading: string)
    requires forall k | 0 <= k < |b| :: b[k] != heading
    ensures BehindLast(a + ([heading] + b), heading) == b
  {
    var lines := a + ([heading] + b);
    if b == [] {
      assert lines[|lines| - 1] == heading;
    } else {
      var n := |b| - 1;
      assert lines[|lines| - 1] == b[n];
      assert lines[..|lines| - 1] == a + ([heading] + b[..n]);
      BehindLastSkips(a, b[..n], heading);
      assert b[..n] + [b[n]] == b;
    }
  }

  lemma {:induction false} JoinConcat(a: seq<string>, b: seq<string>)
    ensures JoinLines(a + b) == JoinLines(a) + JoinLines(b)
  {
    if a == [] {
      assert a + b == b && JoinLines(a) + JoinLines(b) == JoinLines(b);
    } else {
      assert (a + b)[1..] == a[1..] + b;
      JoinConcat(a[1..], b);
      assert a[0] + "\n" + (JoinLines(a[1..]) + JoinLines(b)) == (a[0] + "\n" + JoinLines(a[1..])) + JoinLines(b);
    }
  }

  lemma {:induction false} TrimLeftDropsSpace(space: string, s: string)
    requires forall i | 0 <= i < |space| :: IsSpace(space[i])
    ensures TrimLeft(space + s) == TrimLeft(s)
  {
    if space == "" {
      assert space + s == s;
    } else {
      assert (space + s)[1..] == space[1..] + s;
      TrimLeftDropsSpace(space[1..], s);
    }
  }

  /** Empty lines around a trimmed text are cut again. */
  lemma TrimOfLines(t: string)
    requires t == "" || (!IsSpace(t[0]) && !IsSpace(t[|t| - 1]))
    ensures Trim("\n" + (t + "\n" + "\n")) == t
  {
    TrimLeftDropsSpace("\n", t + "\n" + "\n");
    if t == "" {
      assert t + "\n" + "\n" == "\n\n";
      TrimLeftDropsSpace("\n\n", "");
      assert "\n\n" + "" == "\n\n";
    } else {
      var text := t + "\n\n";
      assert t + "\n" + "\n" == text && text[0] == t[0];
      TrimRightDropsSpace(t, "\n\n");
    }
  }

  lemma BodyLines(body: string)
    ensures Trim(JoinLines([""] + Lines(Trim(body)) + [""])) == Trim(body)
  {
    hide Lines, Trim;
    var t := Trim(body);
    TrimShape(body);
    JoinConcat([""], Lines(t));
    JoinConcat([""] + Lines(t), [""]);
    JoinOfLines(t);
    EmptyLine();
    assert "\n" + (t + "\n") + "\n" == "\n" + (t + "\n" + "\n");
    TrimOfLines(t);
  }

  lemma EmptyLine()
    ensures JoinLines([""]) == "\n"
  {
    assert [""][1..] == [];
  }

  /** A section and what follows it, line by line. */
  lemma SectionLines(name: string, body: string, rest: string)
    requires '\n' !in name
    ensures Lines(Section(name, body) + rest) == [MARK + name] + ([""] + Lines(Trim(body)) + [""]) + Lines(rest)
  {
    hide Lines, Trim;
    var t, head := Trim(body), MARK + name;
    OneLine(head);
    OneLine("");
    LinesConcat(t, "" + "\n" + rest);
    LinesConcat("", rest);
    LinesConcat("", t + "\n" + ("" + "\n" + rest));
    LinesConcat(head, "" + "\n" + (t + "\n" + ("" + "\n" + rest)));
    assert Section(name, body) + rest == head + "\n" + ("" + "\n" + (t + "\n" + ("" + "\n" + rest)));
    assert [head] + ([""] + (Lines(t) + ([""] + Lines(rest)))) == [head] + ([""] + Lines(t) + [""]) + Lines(rest);
  }

  lemma UnheadedBody(body: string)
    requires Unheaded(body)
    ensures NoMark([""] + Lines(Trim(body)) + [""])
  {
    hide Lines, Trim;
  }

  /** The text under a heading that stands behind lines without it. */
  lemma UnderHeading(before: seq<string>, name: string, body: string, rest: seq<string>)
    requires Unheaded(body) && rest != [] && MARK <= rest[0]
    requires forall k | 0 <= k < |before| :: before[k] != MARK + name
    ensures var lines := before + ([MARK + name] + (([""] + Lines(Trim(body)) + [""]) + rest));
            Trim(JoinLines(UpToMark(BehindFirst(lines, MARK + name)))) == Trim(body)
  {
    hide Lines, Trim, UpToMark, BehindFirst, JoinLines;
    var own := [""] + Lines(Trim(body)) + [""];
    BehindSkips(before, own + rest, MARK + name);
    UnheadedBody(body);
    UpToNext(own, rest);
    BodyLines(body);
  }

  predicate StartsMarked(text: string) { MARK <= Lines(text)[0] }

  lemma {:induction false} FirstLine(text: string, line: string)
    requires '\n' !in line && line <= text
    ensures line <= Lines(text)[0]
  {
    if line != "" {
      assert text == [text[0]] + text[1..];
      FirstLine(text[1..], line[1..]);
      assert line == [line[0]] + line[1..];
    }
  }

  lemma MarkedStart(text: string)
    requires MARK <= text
    ensures StartsMarked(text)
  {
    FirstLine(text, MARK);
  }

  lemma PrefixKept(mark: string, a: string, b: string)
    requires mark <= a
    ensures mark <= a + b
  {
    assert (a + b)[..|mark|] == a[..|mark|];
  }

  lemma TailMarked(s: Statement)
    ensures MARK <= Tail(s)
  {
    hide Limits, Trim;
    assert "#### 数据规模与约定"[..5] == MARK;
    assert Tail(s)[..5] == MARK;
  }

  /** What follows the first three sections begins with a heading. */
  lemma RestIsMarked(s: Statement)
    ensures MARK <= SamplesText(s.samples) + (Tail(s) + "\n")
  {
    hide Tail, SamplesText;
    TailMarked(s);
    PrefixKept(MARK, Tail(s), "\n");
    if s.samples == [] {
      NoSamples();
      assert "" + (Tail(s) + "\n") == Tail(s) + "\n";
    } else {
      SamplesMarked(s.samples);
      PrefixKept(MARK, SamplesText(s.samples), Tail(s) + "\n");
    }
  }

  lemma {:induction false} SamplesMarked(samples: seq<Sample>)
    requires samples != []
    ensures MARK <= SamplesText(samples)
  {
    hide Block, Remark, Decimal;
    var last := |samples| - 1;
    if last == 0 {
      assert samples[..last] == [];
      assert SamplesText(samples) == "" + SampleText(samples[last], |samples|);
      assert SampleText(samples[last], |samples|)[..5] == MARK;
    } else {
      hide SampleText;
      SamplesMarked(samples[..last]);
      assert SamplesText(samples)[..5] == SamplesText(samples[..last])[..5];
    }
  }

  function Rest(s: Statement): string { SamplesText(s.samples) + (Tail(s) + "\n") }

  function Own(name: string, body: string): seq<string> { [MARK + name] + ([""] + Lines(Trim(body)) + [""]) }

  lemma FrontLines(s: Statement)
    ensures Lines(Render(s))
            == Own("题目描述", s.description) + (Own("输入格式", s.input) + (Own("输出格式", s.output) + Lines(Rest(s))))
  {
    hide Lines, Trim, Section, Render, Own, SamplesText, Tail;
    var a, b, c := Section("题目描述", s.description), Section("输入格式", s.input), Section("输出格式", s.output);
    RenderShape(s);
    assert Render(s) == a + (b + (c + Rest(s)));
    SectionOwn("题目描述", s.description, b + (c + Rest(s)));
    SectionOwn("输入格式", s.input, c + Rest(s));
    SectionOwn("输出格式", s.output, Rest(s));
  }

  lemma SectionOwn(name: string, body: string, rest: string)
    requires '\n' !in name
    ensures Lines(Section(name, body) + rest) == Own(name, body) + Lines(rest)
  {
    hide Lines, Trim, Section;
    SectionLines(name, body, rest);
  }

  /** The lines of a section of another name do not hold the heading. */
  lemma OwnLacks(name: string, body: string, other: string)
    requires Unheaded(body) && other != name
    ensures forall k | 0 <= k < |Own(name, body)| :: Own(name, body)[k] != MARK + other
  {
    hide Lines, Trim;
    UnheadedBody(body);
    var own := Own(name, body);
    assert (MARK + other)[5..] == other && (MARK + name)[5..] == name;
    assert (MARK + other)[..5] == MARK;
    forall k | 0 <= k < |own|
      ensures own[k] != MARK + other
    {
      assert k > 0 ==> own[k] == ([""] + Lines(Trim(body)) + [""])[k - 1];
    }
  }

  predicate FrontUnheaded(s: Statement) { Unheaded(s.description) && Unheaded(s.input) && Unheaded(s.output) }

  /** Under each of the first three headings stands the text it announces, trimmed. */
  lemma FrontReadsBack(s: Statement)
    requires FrontUnheaded(s)
    ensures FirstUnder(Render(s), "题目描述") == Trim(s.description)
    ensures FirstUnder(Render(s), "输入格式") == Trim(s.input)
    ensures FirstUnder(Render(s), "输出格式") == Trim(s.output)
  {
    hide Lines, Trim, Render, UpToMark, BehindFirst, JoinLines, Unheaded, SamplesText, Tail;
    var a, b, c := Own("题目描述", s.description), Own("输入格式", s.input), Own("输出格式", s.output);
    FrontLines(s);
    RestIsMarked(s);
    MarkedStart(Rest(s));
    OwnLacks("题目描述", s.description, "输入格式");
    OwnLacks("题目描述", s.description, "输出格式");
    OwnLacks("输入格式", s.input, "输出格式");
    OwnMarked("输入格式", s.input);
    OwnMarked("输出格式", s.output);
    UnderOwn([], "题目描述", s.description, b + (c + Lines(Rest(s))));
    UnderOwn(a, "输入格式", s.input, c + Lines(Rest(s)));
    UnderOwn(a + b, "输出格式", s.output, Lines(Rest(s)));
    hide Own;
    assert [] + (a + (b + (c + Lines(Rest(s))))) == a + (b + (c + Lines(Rest(s))));
    assert (a + b) + (c + Lines(Rest(s))) == a + (b + (c + Lines(Rest(s))));
    assert forall k | 0 <= k < |a + b| :: (a + b)[k] == if k < |a| then a[k] else b[k - |a|];
  }

  lemma OwnMarked(name: string, body: string)
    ensures Own(name, body) != [] && MARK <= Own(name, body)[0]
  {
    hide Lines, Trim;
  }

  lemma UnderOwn(before: seq<string>, name: string, body: string, rest: seq<string>)
    requires Unheaded(body) && rest != [] && MARK <= rest[0]
    requires forall k | 0 <= k < |before| :: before[k] != MARK + name
    ensures Trim(JoinLines(UpToMark(BehindFirst(before + (Own(name, body) + rest), MARK + name)))) == Trim(body)
  {
    hide Lines, Trim, UpToMark, BehindFirst, JoinLines, Unheaded;
    UnderHeading(before, name, body, rest);
    assert Own(name, body) + rest == [MARK + name] + (([""] + Lines(Trim(body)) + [""]) + rest);
  }

  /** Under the last heading stand the constraints and, when there are any, the notes. */
  lemma LimitsReadBack(s: Statement)
    requires Unheaded(Limits(s))
    ensures LastUnder(Render(s), "数据规模与约定")
            == Trim(if Trim(s.notes) == "" then s.constraints else s.constraints + "\n\n" + s.notes)
  {
    hide Lines, Trim, Render, UpToMark, BehindLast, JoinLines, SamplesText, Front;
    var t, heading := Trim(Limits(s)), "#### 数据规模与约定";
    assert heading == MARK + "数据规模与约定";
    var before := Front(s) + SamplesText(s.samples);
    RenderShape(s);
    assert Render(s) == before + (Tail(s) + "\n");
    BeforeEnds(s);
    LinesConcat(DropNewline(before), Tail(s) + "\n");
    var lines := Lines(DropNewline(before));
    OneLine(heading);
    OneLine("");
    if t == "" {
      LinesConcat(heading, "");
      assert Tail(s) + "\n" == heading + "\n" + "";
      BehindLastSkips(lines, [""], heading);
      EmptyRest();
    } else {
      LinesConcat(t, "");
      LinesConcat("", t + "\n" + "");
      LinesConcat(heading, "" + "\n" + (t + "\n" + ""));
      assert Tail(s) + "\n" == heading + "\n" + ("" + "\n" + (t + "\n" + ""));
      var own := [""] + Lines(t) + [""];
      assert [heading] + ([""] + (Lines(t) + [""])) == [heading] + own;
      UnheadedBody(Limits(s));
      NoMarkNoHeading(own, "数据规模与约定");
      BehindLastSkips(lines, own, heading);
      UpToNext(own, []);
      assert own + [] == own;
      BodyLines(Limits(s));
    }
  }

  lemma NoMarkNoHeading(lines: seq<string>, name: string)
    requires NoMark(lines)
    ensures forall k | 0 <= k < |lines| :: lines[k] != MARK + name
  {
    assert MARK <= MARK + name;
  }

  lemma EmptyRest()
    ensures Trim(JoinLines(UpToMark([""]))) == ""
  {
    EmptyLine();
    assert [""][1..] == [] && UpToMark([""]) == [""];
    TrimLeftDropsSpace("\n", "");
    assert "\n" + "" == "\n";
  }

  lemma BeforeEnds(s: Statement)
    ensures var before := Front(s) + SamplesText(s.samples);
            before == DropNewline(before) + "\n" && Lines(before + (Tail(s) + "\n"))
                                                    == Lines(DropNewline(before) + "\n" + (Tail(s) + "\n"))
  {
    hide Lines, Front, SamplesText, Tail;
    var before := Front(s) + SamplesText(s.samples);
    assert EndsLine(before);
    assert before == before[..|before| - 1] + "\n";
  }

  // ------------------------------------------------------------------ explanations

  lemma SampleMarked(sample: Sample, n: nat, rest: string)
    ensures MARK <= SampleText(sample, n) + rest
  {
    hide Block, Remark, Decimal;
    assert (SampleText(sample, n) + rest)[..5] == MARK;
  }

  lemma {:induction false} SamplesSplit(samples: seq<Sample>, k: nat) returns (rest: string)
    requires k < |samples|
    ensures SamplesText(samples) == SamplesText(samples[..k]) + (SampleText(samples[k], k + 1) + rest)
    ensures rest == "" || MARK <= rest
  {
    hide SampleText;
    var last := |samples| - 1;
    if k == last {
      rest := "";
      assert SampleText(samples[k], k + 1) + "" == SampleText(samples[k], k + 1);
    } else {
      assert samples[..last][..k] == samples[..k];
      rest := SamplesSplit(samples[..last], k);
      SampleMarked(samples[last], last + 1, "");
      assert SampleText(samples[last], last + 1) + "" == SampleText(samples[last], last + 1);
      if rest != "" {
        PrefixKept(MARK, rest, SampleText(samples[last], last + 1));
      }
      rest := rest + SampleText(samples[last], last + 1);
    }
  }

  /** The part stands in the text, and a heading follows it. */
  predicate StandsIn(text: string, before: string, part: string, after: string) {
    text == before + (part + after) && MARK <= after
  }

  ghost predicate IsFollowed(text: string, part: string) {
    exists before, after :: StandsIn(text, before, part, after)
  }

  /** The remark of an explanation; none for one that is blank. */
  function RemarkOf(explanation: string): string {
    if Trim(explanation) == "" then "" else "样例说明：" + Trim(explanation) + "\n" + "\n"
  }

  lemma SampleParts(sample: Sample, n: nat)
    ensures SampleText(sample, n) == SampleFront(sample, n) + RemarkOf(sample.explanation)
  {
    hide Trim, SampleFront;
  }

  lemma RestMarked(s: Statement, rest: string)
    requires rest == "" || MARK <= rest
    ensures MARK <= rest + (Tail(s) + "\n")
  {
    hide Tail;
    TailMarked(s);
    PrefixKept(MARK, Tail(s), "\n");
    if rest == "" {
      assert rest + (Tail(s) + "\n") == Tail(s) + "\n";
    } else {
      PrefixKept(MARK, rest, Tail(s) + "\n");
    }
  }

  /** An explanation is printed, trimmed, straight behind the two bodies of its own sample; the
      next heading follows, and where there is no explanation it follows the bodies. */
  lemma ExplanationsPrinted(s: Statement, k: nat)
    requires k < |s.samples|
    ensures var sample := s.samples[k];
            IsFollowed(Render(s), SampleFront(sample, k + 1) + RemarkOf(sample.explanation))
  {
    hide Render, SampleFront, SampleText, SamplesText, Tail, Trim, Front, RemarkOf;
    RenderShape(s);
    var rest := SamplesSplit(s.samples, k);
    SampleParts(s.samples[k], k + 1);
    RestMarked(s, rest);
    var before, part, end := Front(s) + SamplesText(s.samples[..k]), SampleText(s.samples[k], k + 1), Tail(s) + "\n";
    Regroup(Front(s), SamplesText(s.samples[..k]), part, rest, Tail(s));
    assert StandsIn(Render(s), before, part, rest + end);
  }

  lemma Regroup(a: string, b: string, c: string, d: string, e: string)
    ensures a + (b + (c + d)) + e + "\n" == (a + b) + (c + (d + (e + "\n")))
  {
  }
}
