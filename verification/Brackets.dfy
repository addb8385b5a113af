/** Which texts the bracket scanner of Editorial takes for a balanced candidate: exactly the
    groups of a grammar with loose bytes, quoted strings and nested groups. */
module Brackets {
  import opened Wrappers
  import opened Editorial

  /** A byte inside quotes: one that stands for itself, or a backslash with any byte. */
  datatype Inner = Byte(c: char) | Escape(c: char)

  /** A loose byte, a quoted string, or a group in curly or square brackets. */
  datatype Part = Loose(c: char) | Quoted(inner: seq<Inner>) | Group(curly: bool, parts: seq<Part>)

  predicate Formed(p: Part) {
    match p
    case Loose(c) => c !in "\"{}[]"
    case Quoted(inner) => forall i | 0 <= i < |inner| :: inner[i].Byte? ==> inner[i].c != '"' && inner[i].c != '\\'
    case Group(_, parts) => AllFormed(parts)
  }

  predicate AllFormed(ps: seq<Part>) { forall i | 0 <= i < |ps| :: Formed(ps[i]) }

  function InnerText(inner: seq<Inner>): string {
    if inner == [] then ""
    else (if inner[0].Byte? then [inner[0].c] else ['\\', inner[0].c]) + InnerText(inner[1..])
  }

  function PartText(p: Part): string {
    match p
    case Loose(c) => [c]
    case Quoted(inner) => "\"" + (InnerText(inner) + "\"")
    case Group(curly, parts) => [Open(curly)] + (PartsText(parts) + [Close(curly)])
  }

  function PartsText(ps: seq<Part>): string {
    if ps == [] then "" else PartText(ps[0]) + PartsText(ps[1..])
  }

  function Open(curly: bool): char { if curly then '{' else '[' }

  function Close(curly: bool): char { if curly then '}' else ']' }

  // ---- one step of the scanner ----

  lemma OutsideStep(c: char, rest: string, stack: string)
    ensures c !in "\"{}[]" ==> Scan([c] + rest, stack, Outside) == Shift(1, Scan(rest, stack, Outside))
    ensures c == '"' ==> Scan([c] + rest, stack, Outside) == Shift(1, Scan(rest, stack, InString))
    ensures c in "{[" ==> Scan([c] + rest, stack, Outside) == Shift(1, Scan(rest, stack + [c], Outside))
    ensures c in "}]" && (stack == "" || stack[|stack| - 1] != Open(c == '}')) ==>
              Scan([c] + rest, stack, Outside) == None
    ensures c in "}]" && stack != "" && stack[|stack| - 1] == Open(c == '}') ==>
              Scan([c] + rest, stack, Outside)
              == if |stack| == 1 then Some(1) else Shift(1, Scan(rest, stack[..|stack| - 1], Outside))
  {
    assert ([c] + rest)[1..] == rest;
  }

  lemma InsideStep(i: Inner, rest: string, stack: string)
    requires i.Byte? ==> i.c != '"' && i.c != '\\'
    ensures i.Byte? ==> Scan([i.c] + rest, stack, InString) == Shift(1, Scan(rest, stack, InString))
    ensures i.Escape? ==> Scan(['\\', i.c] + rest, stack, InString) == Shift(2, Scan(rest, stack, InString))
    ensures Scan("\"" + rest, stack, InString) == Shift(1, Scan(rest, stack, Outside))
  {
    var plain, escape, quote := [i.c] + rest, ['\\', i.c] + rest, "\"" + rest;
    assert plain[1..] == rest && quote[1..] == rest;
    assert escape[1..] == [i.c] + rest;
    assert escape[1..][1..] == rest;
  }

  // ---- a group is a candidate ----

  lemma {:induction false} InnerScanned(inner: seq<Inner>, tail: string, stack: string)
    requires Formed(Quoted(inner))
    ensures Scan(InnerText(inner) + ("\"" + tail), stack, InString)
            == Shift(|InnerText(inner)| + 1, Scan(tail, stack, Outside))
  {
    hide Scan;
    var rest := "\"" + tail;
    if inner == [] {
      assert InnerText(inner) + rest == rest;
      InsideStep(Escape('x'), tail, stack);
    } else {
      var more := InnerText(inner[1..]) + rest;
      var unit := if inner[0].Byte? then [inner[0].c] else ['\\', inner[0].c];
      assert InnerText(inner) + rest == unit + more;
      InsideStep(inner[0], more, stack);
      InnerScanned(inner[1..], tail, stack);
    }
  }

  lemma {:induction false} PartScanned(p: Part, tail: string, stack: string)
    requires Formed(p) && stack != ""
    ensures Scan(PartText(p) + tail, stack, Outside) == Shift(|PartText(p)|, Scan(tail, stack, Outside))
    decreases p
  {
    hide Scan;
    match p
    case Loose(c) =>
      OutsideStep(c, tail, stack);
    case Quoted(inner) =>
      var rest := InnerText(inner) + ("\"" + tail);
      assert PartText(p) + tail == "\"" + rest;
      OutsideStep('"', rest, stack);
      InnerScanned(inner, tail, stack);
    case Group(curly, parts) =>
      GroupScanned(curly, parts, tail, stack);
  }

  lemma {:induction false} GroupScanned(curly: bool, parts: seq<Part>, tail: string, stack: string)
    requires AllFormed(parts)
    ensures var text := PartText(Group(curly, parts));
            Scan(text + tail, stack, Outside)
            == if stack == "" then Some(|text|) else Shift(|text|, Scan(tail, stack, Outside))
    decreases parts, 1
  {
    hide Scan, PartsText, AllFormed;
    var open, close := Open(curly), Close(curly);
    var rest := [close] + tail;
    assert PartText(Group(curly, parts)) + tail == [open] + (PartsText(parts) + rest);
    OutsideStep(open, PartsText(parts) + rest, stack);
    PartsScanned(parts, rest, stack + [open]);
    OutsideStep(close, tail, stack + [open]);
    assert (stack + [open])[..|stack|] == stack;
  }

  lemma {:induction false} PartsScanned(ps: seq<Part>, tail: string, stack: string)
    requires AllFormed(ps) && stack != ""
    ensures Scan(PartsText(ps) + tail, stack, Outside) == Shift(|PartsText(ps)|, Scan(tail, stack, Outside))
    decreases ps, 0
  {
    hide Scan;
    if ps == [] {
      assert PartsText(ps) + tail == tail;
    } else {
      var rest := PartsText(ps[1..]) + tail;
      assert PartsText(ps) + tail == PartText(ps[0]) + rest;
      PartScanned(ps[0], rest, stack);
      PartsScanned(ps[1..], tail, stack);
    }
  }

  // ---- a candidate is a group ----

  lemma {:induction false} InnerRead(rest: string, stack: string) returns (inner: seq<Inner>, tail: string)
    requires Scan(rest, stack, InString).Some?
    ensures Formed(Quoted(inner)) && rest == InnerText(inner) + ("\"" + tail)
    decreases |rest|
  {
    var c, more := rest[0], rest[1..];
    assert rest == [c] + more;
    if c == '"' {
      inner, tail := [], more;
      assert InnerText([]) + ("\"" + tail) == "\"" + tail;
    } else if c == '\\' {
      assert Scan(more, stack, Escaped).Some?;
      var d, after := more[0], more[1..];
      assert rest == ['\\', d] + after;
      inner, tail := InnerRead(after, stack);
      inner := [Escape(d)] + inner;
      assert inner[1..] == inner[1..];
    } else {
      inner, tail := InnerRead(more, stack);
      inner := [Byte(c)] + inner;
    }
  }

  predicate IsStack(stack: string) { forall i | 0 <= i < |stack| :: stack[i] in "{[" }

  /** What is left to read once the innermost bracket is closed. */
  predicate Rests(tail: string, stack: string, n: int)
    requires stack != ""
  {
    if |stack| == 1 then n == 0 else n >= 0 && Scan(tail, stack[..|stack| - 1], Outside) == Some(n)
  }

  lemma QuotedRead(rest: string, stack: string, n: nat) returns (p: Part, tail: string)
    requires rest != "" && rest[0] == '"' && Scan(rest, stack, Outside) == Some(n)
    ensures Formed(p) && rest == PartText(p) + tail
    ensures n >= |PartText(p)| && Scan(tail, stack, Outside) == Some(n - |PartText(p)|)
  {
    hide Scan;
    var inner;
    assert rest == [rest[0]] + rest[1..];
    OutsideStep('"', rest[1..], stack);
    inner, tail := InnerRead(rest[1..], stack);
    InnerScanned(inner, tail, stack);
    p := Quoted(inner);
    assert PartText(p) + tail == "\"" + (InnerText(inner) + ("\"" + tail));
  }

  lemma CloserRead(rest: string, stack: string, n: nat)
    requires stack != "" && IsStack(stack) && rest != "" && rest[0] in "}]" && Scan(rest, stack, Outside) == Some(n)
    ensures rest[0] == Close(stack[|stack| - 1] == '{') && n >= 1 && Rests(rest[1..], stack, n - 1)
  {
    hide Scan;
    assert rest == [rest[0]] + rest[1..];
    OutsideStep(rest[0], rest[1..], stack);
  }

  /** Inside brackets the scanner has read parts up to the closing bracket. */
  lemma {:induction false} PartsRead(rest: string, stack: string, n: nat) returns (ps: seq<Part>, tail: string)
    requires stack != "" && IsStack(stack) && Scan(rest, stack, Outside) == Some(n)
    ensures AllFormed(ps) && rest == PartsText(ps) + ([Close(stack[|stack| - 1] == '{')] + tail)
    ensures Rests(tail, stack, n - |PartsText(ps)| - 1)
    decreases |rest|
  {
    hide Scan, Rests, Formed, PartText;
    NotEmpty(rest, stack);
    var c, more := rest[0], rest[1..];
    assert rest == [c] + more;
    if c in "}]" {
      CloserRead(rest, stack, n);
      ps, tail := [], more;
      assert PartsText([]) + ([c] + tail) == [c] + tail;
    } else {
      var p, after := OnePartRead(rest, stack, n);
      ps, tail := PartsRead(after, stack, n - |PartText(p)|);
      Prefixed(p, ps, [Close(stack[|stack| - 1] == '{')] + tail);
      ps := [p] + ps;
    }
  }

  lemma Prefixed(p: Part, ps: seq<Part>, tail: string)
    ensures PartsText([p] + ps) + tail == PartText(p) + (PartsText(ps) + tail)
    ensures |PartsText([p] + ps)| == |PartText(p)| + |PartsText(ps)|
    ensures Formed(p) && AllFormed(ps) ==> AllFormed([p] + ps)
  {
    hide PartText, Formed;
    assert ([p] + ps)[1..] == ps;
  }

  lemma NotEmpty(rest: string, stack: string)
    requires Scan(rest, stack, Outside).Some?
    ensures rest != ""
  {
  }

  lemma {:induction false} OnePartRead(rest: string, stack: string, n: nat) returns (p: Part, tail: string)
    requires stack != "" && IsStack(stack) && Scan(rest, stack, Outside) == Some(n)
    requires rest != "" && rest[0] !in "}]"
    ensures Formed(p) && rest == PartText(p) + tail && |tail| < |rest|
    ensures n >= |PartText(p)| && Scan(tail, stack, Outside) == Some(n - |PartText(p)|)
    decreases |rest|, 0
  {
    hide Scan;
    var c, more := rest[0], rest[1..];
    assert rest == [c] + more;
    OutsideStep(c, more, stack);
    if c == '"' {
      p, tail := QuotedRead(rest, stack, n);
    } else if c in "{[" {
      var ps, after := PartsRead(more, stack + [c], n - 1);
      assert (stack + [c])[..|stack|] == stack;
      p, tail := Group(c == '{', ps), after;
      assert PartText(p) + tail == [c] + (PartsText(ps) + ([Close(c == '{')] + tail));
    } else {
      p, tail := Loose(c), more;
    }
  }

  /** Where a bracket opens, the scanner stops behind n bytes exactly when these are a group of
      the grammar. */
  lemma CandidateExactly(text: string, n: nat)
    requires text != "" && text[0] in "{["
    ensures Scan(text, "", Outside) == Some(n) <==>
            exists curly, ps :: AllFormed(ps) && PartText(Group(curly, ps)) <= text && n == |PartText(Group(curly, ps))|
  {
    hide Scan, PartsText, AllFormed;
    if Scan(text, "", Outside) == Some(n) {
      var c, more := text[0], text[1..];
      assert text == [c] + more;
      OutsideStep(c, more, "");
      assert "" + [c] == [c];
      var ps, tail := PartsRead(more, [c], n - 1);
      var g := Group(c == '{', ps);
      assert text == PartText(g) + tail;
      assert AllFormed(ps) && PartText(Group(c == '{', ps)) <= text;
    }
    forall curly, ps | AllFormed(ps) && PartText(Group(curly, ps)) <= text && n == |PartText(Group(curly, ps))|
      ensures Scan(text, "", Outside) == Some(n)
    {
      assert text == PartText(Group(curly, ps)) + text[n..];
      GroupScanned(curly, ps, text[n..], "");
    }
  }
}
