/** The samples of imported statements, as the source importers print them
    (backend/internal/sources/luogu.go:84-95, nowcoder_api.go:68-82): a numbered heading, a
    fence that the body does not contain, the body, the fence again. */
module Imported {
  import opened Chars
  import opened Statement
  import opened Text

  /** A sample with the lengths of the fences around its two bodies. */
  datatype Fenced = Fenced(input: string, output: string, inputTicks: nat, outputTicks: nat)

  /** The names that announce an input and an output. */
  datatype Names = Names(input: string, output: string)

  predicate KnownNames(n: Names) {
    n in {Names("输入样例", "输出样例"), Names("样例输入", "样例输出"), Names("Sample Input", "Sample Output")}
  }

  function Marks(n: nat): string { seq(n, _ => '#') }

  function Raw(body: string): (text: string)
    ensures EndsLine(text)
  {
    if EndsLine(body) then body else body + "\n"
  }

  function Line(marks: nat, name: string, n: nat): string { Marks(marks) + (" " + (name + (" " + Decimal(n)))) }

  function FencedText(marks: nat, name: string, n: nat, body: string, ticks: nat): (text: string)
    ensures EndsLine(text)
  {
    Line(marks, name, n) + "\n" + "\n" + (Ticks(ticks) + "\n") + Raw(body) + (Ticks(ticks) + "\n") + "\n"
  }

  function SampleOf(marks: nat, names: Names, n: nat, s: Fenced): (text: string)
    ensures EndsLine(text)
  {
    FencedText(marks, names.input, n, s.input, s.inputTicks)
    + FencedText(marks, names.output, n, s.output, s.outputTicks)
  }

  function TextOf(marks: nat, names: Names, samples: seq<Fenced>): (text: string)
    ensures text == "" || EndsLine(text)
  {
    if samples == [] then ""
    else
      var last := |samples| - 1;
      TextOf(marks, names, samples[..last]) + SampleOf(marks, names, |samples|, samples[last])
  }

  /** The body as it is read: line endings unified, one final newline dropped. */
  function Back(body: string): string { DropNewline(Unix(Raw(body))) }

  function Extracted(samples: seq<Fenced>): seq<Sample> {
    seq(|samples|, k requires 0 <= k < |samples| =>
      Sample(Back(samples[k].input), Back(samples[k].output), "original", ""))
  }

  predicate WellFenced(s: Fenced) {
    && s.inputTicks >= 3 && !Contains(s.input, Ticks(s.inputTicks))
    && s.outputTicks >= 3 && !Contains(s.output, Ticks(s.outputTicks))
  }

  // ---------------------------------------------------------------------- headings

  lemma LowerConcat(a: string, b: string)
    ensures Lower(a + b) == Lower(a) + Lower(b)
  {
    hide LowerChar;
  }

  lemma LowerDigits(n: nat)
    ensures Lower(" " + Decimal(n)) == " " + Decimal(n)
  {
    hide Decimal;
  }

  /** The numbered title begins with the name, in lower case, and holds digits behind it. */
  lemma NumberedTitle(marks: nat, name: string, n: nat)
    requires name != "" && name[0] !in "# *：: "
    ensures TitleOf(Line(marks, name, n)) == Lower(name) + (" " + Decimal(n))
  {
    hide TitleOf, Lower, Decimal;
    var m, title := Marks(marks) + " ", name + (" " + Decimal(n));
    var digits := Decimal(n);
    assert title[|title| - 1] == digits[|digits| - 1];
    TitleIsName(m, "", title, "");
    assert m + ("" + (title + "")) == Line(marks, name, n);
    LowerConcat(name, " " + Decimal(n));
    LowerDigits(n);
  }

  lemma LowerNames()
    ensures Lower("输入样例") == "输入样例" && Lower("输出样例") == "输出样例"
    ensures Lower("样例输入") == "样例输入" && Lower("样例输出") == "样例输出"
    ensures Lower("Sample Input") == "sample input" && Lower("Sample Output") == "sample output"
  {
  }

  lemma InputName(name: string, n: nat)
    requires name in {"输入样例", "样例输入", "sample input"}
    ensures LabelOfTitle(name + (" " + Decimal(n))) == Input
  {
    hide Decimal, LabelOfTitle;
    var title := name + (" " + Decimal(n));
    TitleClass(title);
    HoldsIsContains(title, "输出样例");
    HoldsIsContains(title, "样例输出");
    BeginsIsPrefix(title, "sample output");
    BeginsIsPrefix(title, "输出 #");
    NoOutput(name, n);
    assert title == "" + name + (" " + Decimal(n));
  }

  lemma NoOutput(name: string, n: nat)
    requires name in {"输入样例", "样例输入", "sample input"}
    ensures var title := name + (" " + Decimal(n));
            && !Contains(title, "输出样例") && !Contains(title, "样例输出")
            && !("sample output" <= title) && !("输出 #" <= title) && title != "输出"
  {
    hide Decimal, Contains;
    var title := name + (" " + Decimal(n));
    assert '出' !in name && '出' !in " " + Decimal(n);
    assert '出' !in title;
    NotContained(title, "输出样例", 1);
    NotContained(title, "样例输出", 3);
    assert "输出 #"[1] == '出' && "输出"[1] == '出';
    assert "sample output"[7] == 'o' && "sample output"[0] == 's';
    assert title[0] == name[0] && (|name| > 7 ==> title[7] == 'i');
  }

  lemma OutputName(name: string, n: nat)
    requires name in {"输出样例", "样例输出", "sample output"}
    ensures LabelOfTitle(name + (" " + Decimal(n))) == Output
  {
    hide Decimal, LabelOfTitle;
    var title := name + (" " + Decimal(n));
    TitleClass(title);
    assert title == "" + name + (" " + Decimal(n));
  }

  // ----------------------------------------------------------------------- feeding

  lemma LineIsPlain(marks: nat, name: string, n: nat)
    requires marks >= 1 && name != "" && forall i | 0 <= i < |name| :: name[i] != '\n' && name[i] != '\r'
    ensures var line := Line(marks, name, n);
            '\n' !in line && '\r' !in line && Trim(line) == line && "#" <= line && !OpensFence(line)
  {
    hide Trim, Decimal;
    var line, digits := Line(marks, name, n), Decimal(n);
    assert line[0] == Marks(marks)[0] == '#';
    assert line[|line| - 1] == digits[|digits| - 1];
    TrimIsId(line);
    assert '\n' !in digits && '\r' !in digits;
    assert '\n' !in name && '\r' !in name;
    assert '\n' !in Marks(marks) && '\r' !in Marks(marks);
  }

  lemma FeedTitle(st: Scan, marks: nat, name: string, n: nat)
    requires st.fence == "" && marks >= 1 && name != ""
    requires forall i | 0 <= i < |name| :: name[i] != '\n' && name[i] != '\r'
    ensures Feed(st, Line(marks, name, n) + "\n") == st.(tag := LabelOfTitle(TitleOf(Line(marks, name, n))))
  {
    hide Feed, TitleOf, LabelOfTitle, Trim, Line;
    LineIsPlain(marks, name, n);
    FeedLine(st, Line(marks, name, n));
  }

  lemma RawLacksFence(body: string, ticks: nat)
    requires ticks >= 1 && !Contains(body, Ticks(ticks))
    ensures !Contains(Raw(body), Ticks(ticks))
  {
    hide Contains;
    if Contains(Raw(body), Ticks(ticks)) && !EndsLine(body) {
      NewlineAddsNoRun(body, Ticks(ticks));
    }
  }

  lemma RawIsBack(body: string)
    ensures Unix(Raw(body)) == Back(body) + "\n"
  {
    hide Unix;
    UnixEnd(Raw(body));
  }

  lemma FeedRaw(st: Scan, body: string, ticks: nat)
    requires st.fence == "" && st.body == "" && ticks >= 3 && !Contains(body, Ticks(ticks))
    ensures var fence := Ticks(ticks) + "\n";
            Feed(Feed(Feed(st, fence), Raw(body)), fence) == Close(st.(body := Back(body) + "\n"))
  {
    hide Feed, Contains, Unix, Raw, Back, Close;
    var fence := Ticks(ticks);
    FeedOpening(st, fence);
    var inside := st.(fence := fence);
    RawLacksFence(body, ticks);
    StaysOpen(inside, Raw(body));
    RawIsBack(body);
    assert "" + (Back(body) + "\n") == Back(body) + "\n";
    var full := inside.(body := Back(body) + "\n");
    FeedLine(full, fence);
    TrimIsId(fence);
    hide Trim, Ticks;
    assert Step(full, fence) == Close(full);
    SameClose(full, st);
  }

  lemma SameClose(full: Scan, st: Scan)
    requires st.fence == "" && full == st.(fence := full.fence, body := full.body)
    ensures Close(full) == Close(st.(body := full.body))
  {
  }

  lemma FeedFencedText(st: Scan, marks: nat, name: string, n: nat, body: string, ticks: nat)
    requires st.fence == "" && st.body == "" && marks >= 1 && name != ""
    requires forall i | 0 <= i < |name| :: name[i] != '\n' && name[i] != '\r'
    requires ticks >= 3 && !Contains(body, Ticks(ticks))
    ensures Feed(st, FencedText(marks, name, n, body, ticks))
            == Close(st.(tag := LabelOfTitle(TitleOf(Line(marks, name, n))), body := Back(body) + "\n"))
  {
    hide Feed, Line, TitleOf, LabelOfTitle, Raw, Back, Contains, Ticks, Close;
    var head, fence := Line(marks, name, n) + "\n", Ticks(ticks) + "\n";
    var s1 := st.(tag := LabelOfTitle(TitleOf(Line(marks, name, n))));
    FeedTitle(st, marks, name, n);
    FeedBlank(s1);
    FeedRaw(s1, body, ticks);
    var s2 := Close(s1.(body := Back(body) + "\n"));
    ClosedIsOutside(s1.(body := Back(body) + "\n"));
    FeedBlank(s2);
    FeedConcat(st, head, "\n");
    FeedConcat(st, head + "\n", fence);
    FeedConcat(st, head + "\n" + fence, Raw(body));
    FeedConcat(st, head + "\n" + fence + Raw(body), fence);
    FeedConcat(st, head + "\n" + fence + Raw(body) + fence, "\n");
  }

  lemma ClosedIsOutside(st: Scan)
    ensures Close(st).fence == "" && Close(st).body == ""
  {
  }

  lemma KnownLabels(marks: nat, names: Names, n: nat)
    requires KnownNames(names)
    ensures LabelOfTitle(TitleOf(Line(marks, names.input, n))) == Input
    ensures LabelOfTitle(TitleOf(Line(marks, names.output, n))) == Output
  {
    hide LabelOfTitle, TitleOf, Lower, Line;
    NumberedTitle(marks, names.input, n);
    NumberedTitle(marks, names.output, n);
    LowerNames();
    InputName(Lower(names.input), n);
    OutputName(Lower(names.output), n);
  }

  lemma FeedSampleOf(st: Scan, marks: nat, names: Names, n: nat, s: Fenced, out: seq<Sample>)
    requires Ready(st, out) && marks >= 1 && KnownNames(names) && WellFenced(s)
    ensures Resting(Feed(st, SampleOf(marks, names, n, s)),
                    out + [Sample(Back(s.input), Back(s.output), "original", "")])
  {
    hide Feed, FencedText, Line, TitleOf, LabelOfTitle, Back, Contains, Ticks;
    KnownLabels(marks, names, n);
    var a := FencedText(marks, names.input, n, s.input, s.inputTicks);
    FeedFencedText(st, marks, names.input, n, s.input, s.inputTicks);
    var s1 := Feed(st, a);
    assert DropNewline(Back(s.input) + "\n") == Back(s.input);
    FeedFencedText(s1, marks, names.output, n, s.output, s.outputTicks);
    assert DropNewline(Back(s.output) + "\n") == Back(s.output);
    FeedConcat(st, a, FencedText(marks, names.output, n, s.output, s.outputTicks));
  }

  lemma {:induction false} FeedTextOf(st: Scan, marks: nat, names: Names, samples: seq<Fenced>)
    requires Ready(st, []) && marks >= 1 && KnownNames(names)
    requires forall k | 0 <= k < |samples| :: WellFenced(samples[k])
    ensures Ready(Feed(st, TextOf(marks, names, samples)), Extracted(samples))
  {
    hide Feed, SampleOf, Back, WellFenced, KnownNames;
    if samples == [] {
      FeedNothing(st);
    } else {
      var last := |samples| - 1;
      var front := TextOf(marks, names, samples[..last]);
      FeedTextOf(st, marks, names, samples[..last]);
      FeedSampleOf(Feed(st, front), marks, names, |samples|, samples[last], Extracted(samples[..last]));
      FeedConcat(st, front, SampleOf(marks, names, |samples|, samples[last]));
      assert Extracted(samples)
             == Extracted(samples[..last])
                + [Sample(Back(samples[last].input), Back(samples[last].output), "original", "")];
    }
  }

  /** Whatever the importers print is read back: behind any text that closes its fences and holds
      no sample, numbered headings of any depth and of each known naming, with bodies in fences
      that they do not contain, give exactly those samples, in order and none more. */
  lemma ImportedSamples(front: string, marks: nat, names: Names, samples: seq<Fenced>)
    requires (front == "" || EndsLine(front)) && Ready(Feed(START, front), []) && marks >= 1 && KnownNames(names)
    requires samples != [] && forall k | 0 <= k < |samples| :: WellFenced(samples[k])
    ensures Extract(front + TextOf(marks, names, samples)) == Extracted(samples)
  {
    hide Feed, Extract, TextOf, Extracted, WellFenced, KnownNames;
    FeedTextOf(Feed(START, front), marks, names, samples);
    FeedConcat(START, front, TextOf(marks, names, samples));
    TextIsThere(marks, names, samples);
    ExtractIsFeed(front + TextOf(marks, names, samples));
  }

  lemma TextIsThere(marks: nat, names: Names, samples: seq<Fenced>)
    requires samples != []
    ensures EndsLine(TextOf(marks, names, samples))
  {
    hide SampleOf;
  }

  /** A body comes back up to one final newline exactly when its printed form holds no "\r\n". */
  lemma BackIsBody(body: string)
    ensures Back(body) == DropNewline(body) <==> CrSafe(body)
  {
    hide Unix;
    RawIsBack(body);
    UnixShortens(Raw(body));
    var whole := body + "\n";
    if CrSafe(body) {
      assert NoCrLf(body) by {
        assert forall i | 0 <= i < |body| :: body[i] == whole[i];
      }
    } else if EndsLine(body) {
      assert !NoCrLf(body) by {
        var i :| 0 <= i < |whole| - 1 && whole[i] == '\r' && whole[i + 1] == '\n';
        assert i < |body| - 1;
      }
    }
  }

  // ------------------------------------------------------------------- any fence

  /** The lines of a fenced block: three or more equal backticks or tildes with anything behind
      them, lines that are not the same run, the run alone; white space around does not count. */
  ghost predicate FencedLines(c: char, n: nat, opening: string, info: string, body: seq<string>, closing: string) {
    && c in {'`', '~'} && n >= 3 && Trim(opening) == Repeated(c, n) + info && (info == "" || info[0] != c)
    && Trim(closing) == Repeated(c, n) && forall k | 0 <= k < |body| :: Trim(body[k]) != Repeated(c, n)
  }

  function Repeated(c: char, n: nat): string { seq(n, _ => c) }

  lemma {:induction false} RunOfRepeated(c: char, n: nat, info: string)
    requires info == "" || info[0] != c
    ensures RunLength(Repeated(c, n) + info, c) == n
  {
    if n == 0 {
      assert Repeated(c, n) + info == info;
    } else {
      assert (Repeated(c, n) + info)[1..] == Repeated(c, n - 1) + info;
      RunOfRepeated(c, n - 1, info);
    }
  }

  lemma FenceOpens(st: Scan, c: char, n: nat, opening: string, info: string)
    requires st.fence == "" && c in {'`', '~'} && n >= 3
    requires Trim(opening) == Repeated(c, n) + info && (info == "" || info[0] != c)
    ensures Step(st, opening) == st.(fence := Repeated(c, n))
  {
    var t := Repeated(c, n) + info;
    RunOfRepeated(c, n, info);
    assert t[0] == t[1] == t[2] == c;
    assert c == '`' ==> "```" <= t;
    assert c == '~' ==> "~~~" <= t;
    assert t[..n] == Repeated(c, n);
    hide Trim;
  }

  lemma {:induction false} LinesCollected(st: Scan, body: seq<string>)
    requires st.fence != "" && forall k | 0 <= k < |body| :: Trim(body[k]) != st.fence
    ensures ScanAll(st, body) == st.(body := st.body + JoinLines(body))
    decreases body
  {
    hide Trim, LabelOfTitle, TitleOf;
    if body == [] {
      assert st.body + "" == st.body;
    } else {
      var next := st.(body := st.body + body[0] + "\n");
      assert Step(st, body[0]) == next;
      LinesCollected(next, body[1..]);
      assert next.body + JoinLines(body[1..]) == st.body + JoinLines(body);
    }
  }

  lemma {:induction false} ScanConcat(st: Scan, a: seq<string>, b: seq<string>)
    ensures ScanAll(st, a + b) == ScanAll(ScanAll(st, a), b)
    decreases a
  {
    hide Step;
    if a == [] {
      assert a + b == b;
    } else {
      assert (a + b)[1..] == a[1..] + b;
      ScanConcat(Step(st, a[0]), a[1..], b);
    }
  }

  lemma ScanOne(st: Scan, line: string)
    ensures ScanAll(st, [line]) == Step(st, line)
  {
    hide Step;
    assert [line][1..] == [];
  }

  /** The text between two fences, without its last line break. */
  function Inside(body: seq<string>): string { DropNewline(JoinLines(body)) }

  /** What a fenced block does: under an input heading its text is kept for the next output,
      under an output heading it completes a sample if an input is kept, and otherwise it does
      nothing; the heading is used up in every case. */
  lemma AnyFence(st: Scan, c: char, n: nat, opening: string, info: string, body: seq<string>, closing: string)
    requires st.fence == "" && st.body == "" && FencedLines(c, n, opening, info, body, closing)
    ensures var after := ScanAll(st, [opening] + body + [closing]);
            && after.fence == "" && after.body == "" && after.tag == Unlabelled
            && (st.tag == Input ==> after.haveInput && after.input == Inside(body) && after.out == st.out)
            && (st.tag == Output && st.haveInput ==>
                  !after.haveInput && after.out == st.out + [Sample(st.input, Inside(body), "original", "")])
            && (st.tag == Unlabelled || (st.tag == Output && !st.haveInput) ==>
                  after == st.(tag := Unlabelled))
  {
    hide Trim, JoinLines, Repeated, LabelOfTitle, TitleOf, ScanAll;
    ScanConcat(st, [opening] + body, [closing]);
    ScanConcat(st, [opening], body);
    ScanOne(st, opening);
    FenceOpens(st, c, n, opening, info);
    var begun := st.(fence := Repeated(c, n));
    assert Repeated(c, n) != "" by {
      RepeatedSome(c, n);
    }
    LinesCollected(begun, body);
    var full := begun.(body := JoinLines(body));
    assert begun.body + JoinLines(body) == JoinLines(body);
    ScanOne(full, closing);
    assert Step(full, closing) == Close(full);
  }

  lemma RepeatedSome(c: char, n: nat)
    requires n > 0
    ensures Repeated(c, n) != ""
  {
    assert |Repeated(c, n)| == n;
  }
}
