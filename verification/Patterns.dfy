/** What the two patterns of the statement validator match, on the characters
    (backend/internal/domain/oj_statement.go:31-33). */
module Patterns {
  import opened Wrappers
  import opened Chars
  import opened Encoded
  import opened Statement
  import opened Text

  const BLANKS := "\t\n\U{C}\r "

  // ------------------------------------------------------------------ sectionHeading

  ghost predicate AllFrom(s: string, cut: string) { forall i | 0 <= i < |s| :: s[i] in cut }

  /** Blanks, perhaps a backslash, one to six marks, a blank, anything. */
  ghost predicate HeadingParts(v: string, blanks: string, slash: string, marks: string, rest: string) {
    && AllFrom(blanks, BLANKS) && slash in {"", "\\"} && 1 <= |marks| <= 6 && AllFrom(marks, "#")
    && rest != "" && rest[0] in BLANKS && v == blanks + (slash + (marks + rest))
  }

  /** Such a heading stands behind `before`, at the front of a line. */
  ghost predicate HeadingBehind(v: string, before: string, heading: string) {
    v == before + heading && (before == "" || before[|before| - 1] == '\n')
  }

  lemma BlankIs(c: char)
    ensures IsBlank(c) <==> c in BLANKS
  {
  }

  lemma {:induction false} BlanksSplit(v: string) returns (blanks: string)
    ensures AllFrom(blanks, BLANKS) && v == blanks + SkipBlanks(v)
    ensures SkipBlanks(v) != "" ==> !IsBlank(SkipBlanks(v)[0])
  {
    hide IsBlank, BLANKS;
    if v != "" && IsBlank(v[0]) {
      blanks := BlanksSplit(v[1..]);
      BlankIs(v[0]);
      assert v == [v[0]] + v[1..];
      blanks := [v[0]] + blanks;
    } else {
      blanks := "";
      assert v == "" + SkipBlanks(v);
    }
  }

  lemma {:induction false} BlanksSkipped(blanks: string, rest: string)
    requires AllFrom(blanks, BLANKS) && rest != "" && !IsBlank(rest[0])
    ensures SkipBlanks(blanks + rest) == rest
  {
    if blanks == "" {
      assert blanks + rest == rest;
    } else {
      assert (blanks + rest)[1..] == blanks[1..] + rest;
      BlanksSkipped(blanks[1..], rest);
    }
  }

  lemma {:induction false} RunOf(marks: string, rest: string)
    requires AllFrom(marks, "#") && (rest == "" || rest[0] != '#')
    ensures RunLength(marks + rest, '#') == |marks|
  {
    if marks == "" {
      assert marks + rest == rest;
    } else {
      assert (marks + rest)[1..] == marks[1..] + rest;
      RunOf(marks[1..], rest);
    }
  }

  lemma {:induction false} RunMarks(v: string)
    ensures AllFrom(v[..RunLength(v, '#')], "#")
  {
    if v != "" && v[0] == '#' {
      RunMarks(v[1..]);
      var n := RunLength(v, '#');
      assert v[..n] == [v[0]] + v[1..][..n - 1];
    }
  }

  /** The marks and what stands behind them. */
  lemma RunParts(run: string) returns (marks: string, rest: string)
    requires 1 <= RunLength(run, '#') <= 6 && RunLength(run, '#') < |run| && IsBlank(run[RunLength(run, '#')])
    ensures run == marks + rest && 1 <= |marks| <= 6 && AllFrom(marks, "#") && rest != "" && rest[0] in BLANKS
  {
    hide RunLength, AllFrom, IsBlank, BLANKS;
    var n := RunLength(run, '#');
    RunMarks(run);
    BlankIs(run[n]);
    marks, rest := run[..n], run[n..];
  }

  lemma SlashSplit(body: string) returns (slash: string, run: string)
    requires body != ""
    ensures slash in {"", "\\"} && body == slash + run
    ensures run == if body[0] == '\\' then body[1..] else body
  {
    slash := if body[0] == '\\' then "\\" else "";
    run := if body[0] == '\\' then body[1..] else body;
  }

  lemma HeadingSplit(v: string)
    requires HeadingHere(v)
    ensures exists blanks, slash, marks, rest :: HeadingParts(v, blanks, slash, marks, rest)
  {
    hide RunLength, SkipBlanks, AllFrom, IsBlank, BLANKS;
    var blanks := BlanksSplit(v);
    HereIsNotEmpty(v);
    var slash, run := SlashSplit(SkipBlanks(v));
    var marks, rest := RunParts(run);
    assert HeadingParts(v, blanks, slash, marks, rest);
  }

  lemma HereIsNotEmpty(v: string)
    requires HeadingHere(v)
    ensures SkipBlanks(v) != ""
  {
  }

  lemma HeadingHereExactly(v: string)
    ensures HeadingHere(v) <==> exists blanks, slash, marks, rest :: HeadingParts(v, blanks, slash, marks, rest)
  {
    hide HeadingHere, HeadingParts;
    if HeadingHere(v) {
      HeadingSplit(v);
    }
    forall blanks, slash, marks, rest | HeadingParts(v, blanks, slash, marks, rest)
      ensures HeadingHere(v)
    {
      PartsAreHeading(v, blanks, slash, marks, rest);
    }
  }

  lemma PartsAreHeading(v: string, blanks: string, slash: string, marks: string, rest: string)
    requires HeadingParts(v, blanks, slash, marks, rest)
    ensures HeadingHere(v)
  {
    hide RunLength, SkipBlanks;
    assert marks[0] in "#";
    var body := slash + (marks + rest);
    assert body[0] == (if slash == "" then marks[0] else '\\');
    BlanksSkipped(blanks, body);
    RunOf(marks, rest);
    assert slash == "" ==> body == marks + rest;
    assert slash == "\\" ==> body[1..] == marks + rest;
  }

  /** The heading pattern matches exactly the texts that have such a heading at the front of a
      line. */
  lemma HeadingExactly(v: string)
    ensures HasHeading(v) <==>
            exists before, heading, blanks, slash, marks, rest ::
              HeadingBehind(v, before, heading) && HeadingParts(heading, blanks, slash, marks, rest)
  {
    hide HeadingHere, HeadingParts;
    if HasHeading(v) {
      var i :| 0 <= i <= |v| && (i == 0 || v[i - 1] == '\n') && HeadingHere(v[i..]);
      HeadingHereExactly(v[i..]);
      var blanks, slash, marks, rest :| HeadingParts(v[i..], blanks, slash, marks, rest);
      assert HeadingBehind(v, v[..i], v[i..]);
    }
    forall before, heading, blanks, slash, marks, rest |
      HeadingBehind(v, before, heading) && HeadingParts(heading, blanks, slash, marks, rest)
      ensures HasHeading(v)
    {
      HeadingHereExactly(heading);
      assert v[|before|..] == heading;
    }
  }

  // -------------------------------------------------------------------- sourceFigure

  ghost predicate NoneOf(s: string, cut: string) { forall i | 0 <= i < |s| :: s[i] !in cut }

  /** An image with its target in angle brackets stands at the front. */
  ghost predicate AngledAt(v: string, alt: string, target: string, rest: string) {
    && NoneOf(alt, "]\n") && target != "" && NoneOf(target, ">\n")
    && v == "![" + (alt + ("](<" + (target + (">)" + rest))))
  }

  /** An image with a bare target stands at the front. */
  ghost predicate PlainAt(v: string, alt: string, target: string, rest: string) {
    && NoneOf(alt, "]\n") && target != "" && NoneOf(target, ")" + BLANKS)
    && v == "![" + (alt + ("](" + (target + (")" + rest))))
  }

  lemma {:induction false} SpanIs(s: string, rest: string, cut: string, noBlank: bool)
    requires NoneOf(s, cut) && (noBlank ==> NoneOf(s, BLANKS)) && rest != "" && rest[0] in cut
    ensures Span(s + rest, cut, noBlank) == |s|
  {
    if s == "" {
      assert s + rest == rest;
    } else {
      assert (s + rest)[1..] == s[1..] + rest;
      SpanIs(s[1..], rest, cut, noBlank);
    }
  }

  lemma {:induction false} SpanHolds(v: string, cut: string, noBlank: bool)
    ensures var s := v[..Span(v, cut, noBlank)]; NoneOf(s, cut) && (noBlank ==> NoneOf(s, BLANKS))
  {
    if v == "" || v[0] in cut || (noBlank && IsBlank(v[0])) {
    } else {
      SpanHolds(v[1..], cut, noBlank);
      var n := Span(v, cut, noBlank);
      assert v[..n] == [v[0]] + v[1..][..n - 1];
    }
  }

  /** Where the parts of an image at the front of v begin. */
  lemma AltSplit(v: string)
    requires "![" <= v && "](" <= v[2 + Span(v[2..], "]\n", false)..]
    ensures var n := Span(v[2..], "]\n", false);
            NoneOf(v[2..][..n], "]\n") && v == "![" + (v[2..][..n] + ("](" + v[n + 4..]))
  {
    hide Span, NoneOf;
    var n := Span(v[2..], "]\n", false);
    SpanHolds(v[2..], "]\n", false);
    assert v[2..] == v[2..][..n] + v[2 + n..];
    assert v[2 + n..] == "](" + v[n + 4..];
    assert v == "![" + v[2..];
  }

  lemma AltIs(v: string, alt: string, more: string)
    requires NoneOf(alt, "]\n") && v == "![" + (alt + ("](" + more))
    ensures "![" <= v && Span(v[2..], "]\n", false) == |alt|
    ensures "](" <= v[2 + |alt|..] && v[2 + |alt| + 2..] == more
  {
    assert v[2..] == alt + ("](" + more);
    SpanIs(alt, "](" + more, "]\n", false);
    assert v[2 + |alt|..] == "](" + more;
  }

  lemma FigureFront(v: string, alt: string, more: string)
    requires NoneOf(alt, "]\n") && v == "![" + (alt + ("](" + more))
    ensures var t := TargetAt(more);
            FigureAt(v) == if t.None? then None else Some((t.value.0, |alt| + 4 + t.value.1))
  {
    hide Span, NoneOf, TargetAt;
    AltIs(v, alt, more);
  }

  lemma AngledTarget(target: string, rest: string)
    requires target != "" && NoneOf(target, ">\n")
    ensures TargetAt("<" + (target + (">)" + rest))) == Some((Figure(target, ""), |target| + 3))
  {
    var more := "<" + (target + (">)" + rest));
    assert more[1..] == target + (">)" + rest);
    SpanIs(target, ">)" + rest, ">\n", false);
    var n := |target|;
    assert more[1 + n..] == ">)" + rest && more[1..1 + n] == target;
  }

  lemma PlainTarget(target: string, rest: string)
    requires target != "" && NoneOf(target, ")" + BLANKS)
    ensures var more := target + (")" + rest);
            && TargetAt(more).Some?
            && (TargetAt(more).value.0.angled == "" ==> TargetAt(more) == Some((Figure("", target), |target| + 1)))
  {
    var more := target + (")" + rest);
    assert forall i | 0 <= i < |target| :: target[i] !in ")" && target[i] !in BLANKS;
    SpanIs(target, ")" + rest, ")", true);
    var n := |target|;
    assert more[n..] == ")" + rest && more[..n] == target;
  }

  /** A target in angle brackets was read. */
  predicate Angled(more: string) {
    var inner := if more != "" && more[0] == '<' then Span(more[1..], ">\n", false) else 0;
    inner > 0 && ">)" <= more[1 + inner..]
  }

  lemma AngledRead(more: string)
    requires Angled(more)
    ensures var n := Span(more[1..], ">\n", false);
            && TargetAt(more) == Some((Figure(more[1..1 + n], ""), n + 3)) && n > 0 && NoneOf(more[1..1 + n], ">\n")
            && more == "<" + (more[1..1 + n] + (">)" + more[n + 3..]))
  {
    hide Span, NoneOf;
    var n := Span(more[1..], ">\n", false);
    SpanHolds(more[1..], ">\n", false);
    assert more[1..][..n] == more[1..1 + n];
    assert more == "<" + more[1..] && more[1..] == more[1..1 + n] + more[1 + n..];
    assert more[1 + n..] == ">)" + more[n + 3..];
  }

  lemma PlainRead(more: string)
    requires TargetAt(more).Some? && !Angled(more)
    ensures var n := Span(more, ")", true);
            && TargetAt(more) == Some((Figure("", more[..n]), n + 1)) && n > 0 && NoneOf(more[..n], ")" + BLANKS)
            && more == more[..n] + (")" + more[n + 1..])
  {
    hide Span, BLANKS;
    var n := Span(more, ")", true);
    SpanHolds(more, ")", true);
    assert forall c: char :: c in ")" + BLANKS <==> c in ")" || c in BLANKS;
    assert more == more[..n] + more[n..] && more[n..] == ")" + more[n + 1..];
  }

  /** What a target that was read looks like. */
  lemma TargetRead(more: string)
    requires TargetAt(more).Some?
    ensures var (f, n) := TargetAt(more).value;
            n <= |more| &&
            if f.angled != "" then
              f.plain == "" && NoneOf(f.angled, ">\n") && more == "<" + (f.angled + (">)" + more[n..]))
            else f.plain != "" && NoneOf(f.plain, ")" + BLANKS) && more == f.plain + (")" + more[n..])
  {
    hide TargetAt, Angled, NoneOf, Span;
    if Angled(more) {
      AngledRead(more);
    } else {
      PlainRead(more);
    }
  }

  lemma AngledFound(v: string, alt: string, target: string, rest: string)
    requires AngledAt(v, alt, target, rest)
    ensures FigureAt(v) == Some((Figure(target, ""), |v| - |rest|))
  {
    hide FigureAt, TargetAt, NoneOf;
    var more := "<" + (target + (">)" + rest));
    assert "](<" + (target + (">)" + rest)) == "](" + more;
    AngledTarget(target, rest);
    FigureFront(v, alt, more);
  }

  lemma PlainFound(v: string, alt: string, target: string, rest: string)
    requires PlainAt(v, alt, target, rest)
    requires forall x, more :: !AngledAt(v, alt, x, more)
    ensures FigureAt(v) == Some((Figure("", target), |v| - |rest|))
  {
    hide FigureAt, TargetAt, NoneOf;
    var more := target + (")" + rest);
    PlainTarget(target, rest);
    FigureFront(v, alt, more);
    TargetRead(more);
    var (f, n) := TargetAt(more).value;
    assert "](<" + (f.angled + (">)" + more[n..])) == "](" + ("<" + (f.angled + (">)" + more[n..])));
    assert !AngledAt(v, alt, f.angled, more[n..]);
  }

  lemma FigureRead(v: string)
    requires FigureAt(v).Some?
    ensures exists alt, rest :: ReadAs(v, alt, FigureAt(v).value.0, rest)
  {
    hide Span, TargetAt, NoneOf;
    AltSplit(v);
    var n := Span(v[2..], "]\n", false);
    var alt, more := v[2..][..n], v[n + 4..];
    FigureFront(v, alt, more);
    hide FigureAt;
    TargetReadAs(v, alt, more);
  }

  lemma TargetReadAs(v: string, alt: string, more: string)
    requires NoneOf(alt, "]\n") && v == "![" + (alt + ("](" + more)) && TargetAt(more).Some?
    ensures exists rest :: ReadAs(v, alt, TargetAt(more).value.0, rest)
  {
    hide TargetAt, NoneOf;
    TargetRead(more);
    var (f, m) := TargetAt(more).value;
    var rest := more[m..];
    assert "](<" + (f.angled + (">)" + rest)) == "](" + ("<" + (f.angled + (">)" + rest)));
    assert ReadAs(v, alt, f, rest);
  }

  ghost predicate ReadAs(v: string, alt: string, f: Figure, rest: string) {
    (AngledAt(v, alt, f.angled, rest) && f.plain == "") || (PlainAt(v, alt, f.plain, rest) && f.angled == "")
  }

  /** At the front of a text an image is found exactly when one of the two forms stands there,
      and the form in angle brackets goes first. */
  lemma FigureExactly(v: string)
    ensures FigureAt(v).Some? <==> exists alt, f, rest :: ReadAs(v, alt, f, rest)
    ensures forall alt, target, rest | AngledAt(v, alt, target, rest) ::
              FigureAt(v) == Some((Figure(target, ""), |v| - |rest|))
    ensures forall alt, target, rest |
              PlainAt(v, alt, target, rest) && (forall x, more :: !AngledAt(v, alt, x, more)) ::
              FigureAt(v) == Some((Figure("", target), |v| - |rest|))
  {
    hide FigureAt, AngledAt, PlainAt;
    forall alt, target, rest | AngledAt(v, alt, target, rest)
      ensures FigureAt(v) == Some((Figure(target, ""), |v| - |rest|))
    {
      AngledFound(v, alt, target, rest);
    }
    forall alt, target, rest | PlainAt(v, alt, target, rest) && forall x, more :: !AngledAt(v, alt, x, more)
      ensures FigureAt(v) == Some((Figure("", target), |v| - |rest|))
    {
      PlainFound(v, alt, target, rest);
    }
    if FigureAt(v).Some? {
      FigureRead(v);
    }
  }

  /** A text without an image at its front. */
  ghost predicate NoImageAt(v: string) { forall alt, f, rest :: !ReadAs(v, alt, f, rest) }

  /** Behind text where no image begins, the images go on as if the text were not there. */
  lemma {:induction false} FiguresBehind(before: string, v: string)
    requires forall i | 0 <= i < |before| :: NoImageAt((before + v)[i..])
    ensures Figures(before + v) == Figures(v)
  {
    hide NoImageAt, FigureAt;
    if before == "" {
      assert before + v == v;
    } else {
      var whole := before + v;
      assert whole[1..] == before[1..] + v && whole[0..] == whole;
      FigureExactly(whole);
      NoImageMeans(whole);
      assert forall i | 0 <= i < |before[1..]| :: (before[1..] + v)[i..] == whole[i + 1..];
      FiguresBehind(before[1..], v);
    }
  }

  lemma NoImageMeans(v: string)
    requires NoImageAt(v)
    ensures FigureAt(v).None?
  {
    hide FigureAt, ReadAs;
    FigureExactly(v);
  }

  /** One group of an image holds its target, the other is empty, and the target stands in the
      text between brackets. */
  predicate Prints(v: string, f: Figure) {
    || (f.angled != "" && f.plain == "" && Contains(v, "](<" + f.angled + ">)"))
    || (f.plain != "" && f.angled == "" && Contains(v, "](" + f.plain + ")"))
  }

  lemma {:induction false} FoundInText(v: string, f: Figure)
    requires f in Figures(v)
    ensures Prints(v, f)
    decreases |v|
  {
    hide FigureAt, Contains;
    if FigureAt(v).Some? && f == FigureAt(v).value.0 {
      FrontInText(v);
    } else {
      var n := if FigureAt(v).Some? then FigureAt(v).value.1 else 1;
      FoundInText(v[n..], f);
      assert v[..n] + v[n..] + "" == v;
      if f.angled != "" {
        ContainsWithin(v[..n], v[n..], "", "](<" + f.angled + ">)");
      } else {
        ContainsWithin(v[..n], v[n..], "", "](" + f.plain + ")");
      }
    }
  }

  lemma FrontInText(v: string)
    requires FigureAt(v).Some?
    ensures Prints(v, FigureAt(v).value.0)
  {
    hide FigureAt, Contains, NoneOf;
    FigureRead(v);
    var f := FigureAt(v).value.0;
    var alt, rest :| ReadAs(v, alt, f, rest);
    if AngledAt(v, alt, f.angled, rest) && f.plain == "" {
      var part := "](<" + f.angled + ">)";
      assert v == ("![" + alt) + part + rest;
      PartContained("![" + alt, part, rest);
    } else {
      var part := "](" + f.plain + ")";
      assert v == ("![" + alt) + part + rest;
      PartContained("![" + alt, part, rest);
    }
  }

  lemma PartContained(a: string, part: string, b: string)
    ensures Contains(a + part + b, part)
  {
    assert (a + part + b)[|a|..|a| + |part|] == part;
    assert OccursAt(a + part + b, part, |a|);
  }

  /** An accepted statement prints every image of its source: the target of each stands in the
      Markdown between the brackets of an image. */
  lemma NoFigureLost(s: Statement, source: string, f: Figure)
    requires Accepts(s, source) && f in Figures(Unix(source))
    ensures var target := Target(f);
            Contains(Render(s), "](<" + target + ">)") || Contains(Render(s), "](" + target + ")")
  {
    hide Figures, Render, Contains, SectionOk, SampleOk, HasHeading, Extract, Unix;
    FoundInText(Unix(source), f);
    var printed := Figures(Render(s));
    assert Shown(printed, Target(f));
    var k :| 0 <= k < |printed| && (printed[k].angled == Target(f) || printed[k].plain == Target(f));
    FoundInText(Render(s), printed[k]);
  }

  // ---------------------------------------------------------------- what is accepted

  function Breaks(n: nat): string { seq(n, _ => '\n') }

  /** The same text up to CR LF and to line breaks at the end. */
  ghost predicate SameUpToEnd(x: string, y: string) {
    exists m, n :: Unix(x) + Breaks(m) == Unix(y) + Breaks(n)
  }

  lemma {:induction false} BreaksCut(u: string, n: nat)
    ensures CutRight(u + Breaks(n), "\n") == CutRight(u, "\n")
  {
    if n == 0 {
      assert u + Breaks(n) == u;
    } else {
      var whole := u + Breaks(n);
      assert whole[..|whole| - 1] == u + Breaks(n - 1);
      assert whole[|whole| - 1] == '\n';
      BreaksCut(u, n - 1);
    }
  }

  lemma {:induction false} CutBreaks(u: string) returns (n: nat)
    ensures u == CutRight(u, "\n") + Breaks(n)
  {
    if u != "" && u[|u| - 1] in "\n" {
      n := CutBreaks(u[..|u| - 1]);
      n := n + 1;
      assert u == u[..|u| - 1] + [u[|u| - 1]];
    } else {
      n := 0;
      assert u == u + Breaks(0);
    }
  }

  lemma BreaksAdd(u: string, a: nat, b: nat)
    ensures u + Breaks(a) + Breaks(b) == u + Breaks(a + b)
  {
  }

  lemma CanonicalTells(x: string, y: string)
    ensures Canonical(x) == Canonical(y) <==> SameUpToEnd(x, y)
  {
    hide CutRight, Unix;
    var a := CutBreaks(Unix(x));
    var b := CutBreaks(Unix(y));
    if Canonical(x) == Canonical(y) {
      BreaksAdd(Canonical(x), a, b);
      BreaksAdd(Canonical(y), b, a);
      assert Unix(x) + Breaks(b) == Unix(y) + Breaks(a);
    }
    forall m, n | Unix(x) + Breaks(m) == Unix(y) + Breaks(n)
      ensures Canonical(x) == Canonical(y)
    {
      BreaksCut(Unix(x), m);
      BreaksCut(Unix(y), n);
    }
  }

  ghost predicate KeepsSample(s: Statement, o: Sample) {
    exists x | x in s.samples ::
      x.origin == "original" && SameUpToEnd(x.input, o.input) && SameUpToEnd(x.output, o.output)
  }

  ghost predicate KeepsFigure(s: Statement, f: Figure) {
    exists g | g in Figures(Render(s)) :: Target(f) in {g.angled, g.plain}
  }

  /** A section has text, is bounded in bytes and holds no heading. */
  ghost predicate SectionFits(v: string) {
    (exists c | c in v :: !IsSpace(c)) && |Bytes(v)| <= 0x1_0000 && !HasHeading(v)
  }

  /** An original sample stands in the source, up to line breaks at its end; a generated one is
      small. */
  ghost predicate SampleFits(x: Sample, source: string) {
    && x.output != "" && |Bytes(x.input)| + |Bytes(x.output)| <= 0x8000
    && |Bytes(x.explanation)| <= 4000 && !HasHeading(x.explanation)
    && if x.origin == "original" then StandsIn(source, x.input) && StandsIn(source, x.output)
       else x.origin == "generated" && |Bytes(x.input)| <= 0x1000 && |Bytes(x.output)| <= 0x1000
  }

  ghost predicate StandsIn(source: string, body: string) {
    exists part, n, before, after ::
      Parts(source, before, part, after) && Unix(body) == part + Breaks(n) && (part == "" || part[|part| - 1] != '\n')
  }

  predicate Parts(source: string, before: string, part: string, after: string) { source == before + part + after }

  lemma {:induction false} LeftOfSpace(v: string)
    ensures TrimLeft(v) == "" <==> forall i | 0 <= i < |v| :: IsSpace(v[i])
  {
    hide IsSpace;
    if v != "" && IsSpace(v[0]) {
      LeftOfSpace(v[1..]);
      assert forall i | 1 <= i < |v| :: v[i] == v[1..][i - 1];
    }
  }

  lemma HasText(v: string)
    ensures Trim(v) != "" <==> exists c | c in v :: !IsSpace(c)
  {
    hide IsSpace;
    LeftOfSpace(v);
    TrimLeftShape(v);
    if TrimLeft(v) == "" {
      assert Trim(v) == "";
    } else {
      FirstStays(TrimLeft(v));
      var i :| 0 <= i < |v| && !IsSpace(v[i]);
      assert v[i] in v;
    }
  }

  lemma {:induction false} FirstStays(v: string)
    requires v != "" && !IsSpace(v[0])
    ensures TrimRight(v) != ""
  {
    hide IsSpace;
    if IsSpace(v[|v| - 1]) {
      FirstStays(v[..|v| - 1]);
    }
  }

  lemma StandsExactly(source: string, body: string)
    ensures Contains(source, Canonical(body)) <==> StandsIn(source, body)
  {
    hide CutRight, Unix, Contains;
    var n := CutBreaks(Unix(body));
    var part := Canonical(body);
    CutEnds(Unix(body));
    if Contains(source, part) {
      HoldsIsContains(source, part);
      var a, b :| source == a + part + b;
      assert Parts(source, a, part, b);
      assert StandsIn(source, body);
    }
    if StandsIn(source, body) {
      var other, m, a, b :| Parts(source, a, other, b) && Unix(body) == other + Breaks(m)
                            && (other == "" || other[|other| - 1] != '\n');
      BreaksCut(other, m);
      NothingCut(other);
      PartContained(a, part, b);
    }
  }

  lemma {:induction false} CutEnds(u: string)
    ensures CutRight(u, "\n") == "" || CutRight(u, "\n")[|CutRight(u, "\n")| - 1] != '\n'
  {
    if u != "" && u[|u| - 1] in "\n" {
      CutEnds(u[..|u| - 1]);
    }
  }

  lemma NothingCut(u: string)
    requires u == "" || u[|u| - 1] != '\n'
    ensures CutRight(u, "\n") == u
  {
  }

  lemma KeptExactly(s: Statement, o: Sample)
    ensures Retained(s.samples, o) <==> KeepsSample(s, o)
  {
    hide Canonical, SameUpToEnd;
    forall x: Sample
      ensures SameContent(x, o) <==> SameUpToEnd(x.input, o.input) && SameUpToEnd(x.output, o.output)
    {
      CanonicalTells(x.input, o.input);
      CanonicalTells(x.output, o.output);
    }
    if KeepsSample(s, o) {
      var x :| x in s.samples
               && x.origin == "original" && SameUpToEnd(x.input, o.input) && SameUpToEnd(x.output, o.output);
      var k :| 0 <= k < |s.samples| && s.samples[k] == x;
      assert SameContent(s.samples[k], o);
    }
  }

  lemma ShownExactly(s: Statement, f: Figure)
    ensures Shown(Figures(Render(s)), Target(f)) <==> KeepsFigure(s, f)
  {
    hide Figures, Render, Target;
    var gs := Figures(Render(s));
    if KeepsFigure(s, f) {
      var g :| g in gs && Target(f) in {g.angled, g.plain};
      var k :| 0 <= k < |gs| && gs[k] == g;
      assert gs[k].angled == Target(f) || gs[k].plain == Target(f);
    }
  }

  lemma SectionExactly(v: string)
    ensures SectionOk(v) <==> SectionFits(v)
  {
    hide HasHeading, Trim, ByteLength, Bytes;
    HasText(v);
    ByteLengthIsUtf8(v);
  }

  lemma SampleExactly(x: Sample, source: string)
    ensures SampleOk(x, source) <==> SampleFits(x, source)
  {
    hide HasHeading, ByteLength, Bytes, Canonical, StandsIn, Contains;
    ByteLengthIsUtf8(x.input);
    ByteLengthIsUtf8(x.output);
    ByteLengthIsUtf8(x.explanation);
    StandsExactly(source, x.input);
    StandsExactly(source, x.output);
  }

  /** Exactly these statements are accepted against a source. */
  lemma AcceptsExactly(s: Statement, source: string)
    ensures Accepts(s, source) <==>
            && s.version == STATEMENT_VERSION
            && SectionFits(s.description) && SectionFits(s.input) && SectionFits(s.output) && SectionFits(s.constraints)
            && |Bytes(s.notes)| <= 0x4000 && !HasHeading(s.notes)
            && (exists c | c in s.reason :: !IsSpace(c)) && |Bytes(s.reason)| <= 4000
            && 1 <= |s.samples| <= 20 && (forall x | x in s.samples :: SampleFits(x, Unix(source)))
            && (forall o | o in Extract(Unix(source)) :: KeepsSample(s, o))
            && (forall f | f in Figures(Unix(source)) :: KeepsFigure(s, f))
            && |Bytes(Render(s))| <= 0x2_0000
  {
    hide SectionOk, SectionFits, SampleOk, SampleFits, Retained, KeepsSample, Shown, KeepsFigure, Figures, Render,
         Extract, HasHeading, Trim, ByteLength, Bytes, Unix, IsSpace;
    SectionExactly(s.description);
    SectionExactly(s.input);
    SectionExactly(s.output);
    SectionExactly(s.constraints);
    HasText(s.reason);
    ByteLengthIsUtf8(s.notes);
    ByteLengthIsUtf8(s.reason);
    ByteLengthIsUtf8(Render(s));
    SamplesFit(s.samples, Unix(source));
    OriginalsKept(s, Unix(source));
    FiguresKept(s, Unix(source));
  }

  lemma SamplesFit(samples: seq<Sample>, source: string)
    ensures (forall k :: 0 <= k < |samples| ==> SampleOk(samples[k], source)) <==>
            forall x | x in samples :: SampleFits(x, source)
  {
    hide SampleOk, SampleFits;
    forall x: Sample
      ensures SampleOk(x, source) <==> SampleFits(x, source)
    {
      SampleExactly(x, source);
    }
    if forall x | x in samples :: SampleFits(x, source) {
      assert forall k | 0 <= k < |samples| :: samples[k] in samples;
    }
  }

  lemma OriginalsKept(s: Statement, source: string)
    ensures (forall o :: o in Extract(source) ==> Retained(s.samples, o)) <==>
            forall o | o in Extract(source) :: KeepsSample(s, o)
  {
    hide Retained, KeepsSample, Extract;
    forall o: Sample
      ensures Retained(s.samples, o) <==> KeepsSample(s, o)
    {
      KeptExactly(s, o);
    }
  }

  lemma FiguresKept(s: Statement, source: string)
    ensures (forall f :: f in Figures(source) ==> Shown(Figures(Render(s)), Target(f))) <==>
            forall f | f in Figures(source) :: KeepsFigure(s, f)
  {
    hide Shown, KeepsFigure, Figures, Render, Target;
    forall f: Figure
      ensures Shown(Figures(Render(s)), Target(f)) <==> KeepsFigure(s, f)
    {
      ShownExactly(s, f);
    }
  }
}
