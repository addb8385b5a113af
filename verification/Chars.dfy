/** Text as a sequence of characters: the trimming, line splitting and replacing that
    the statement printer and its parser apply. White space is Unicode's, as in Go;
    lower-casing acts on ASCII letters only. */
module Chars {
  import opened Text

  /** unicode.IsSpace */
  predicate IsSpace(c: char) {
    || '\t' <= c <= '\r' || c == ' ' || c == '\U{85}' || c == '\U{A0}' || c == '\U{1680}'
    || '\U{2000}' <= c <= '\U{200A}' || c == '\U{2028}' || c == '\U{2029}'
    || c == '\U{202F}' || c == '\U{205F}' || c == '\U{3000}'
  }

  function TrimLeft(s: string): string {
    if s != "" && IsSpace(s[0]) then TrimLeft(s[1..]) else s
  }

  function TrimRight(s: string): string {
    if s != "" && IsSpace(s[|s| - 1]) then TrimRight(s[..|s| - 1]) else s
  }

  /** strings.TrimSpace */
  function Trim(s: string): string { TrimRight(TrimLeft(s)) }

  /** strings.TrimLeft with a cutset */
  function CutLeft(s: string, cut: string): string {
    if s != "" && s[0] in cut then CutLeft(s[1..], cut) else s
  }

  /** strings.TrimRight with a cutset */
  function CutRight(s: string, cut: string): string {
    if s != "" && s[|s| - 1] in cut then CutRight(s[..|s| - 1], cut) else s
  }

  function LowerChar(c: char): char {
    if 'A' <= c <= 'Z' then c - 'A' + 'a' else c
  }

  /** strings.ToLower on ASCII letters */
  function Lower(s: string): string { seq(|s|, i requires 0 <= i < |s| => LowerChar(s[i])) }

  /** Go's len of a string: its length in UTF-8. */
  function ByteLength(s: string): nat {
    if s == "" then 0
    else
      (if s[0] < '\U{80}' then 1 else if s[0] < '\U{800}' then 2 else if s[0] < '\U{10000}' then 3 else 4)
      + ByteLength(s[1..])
  }

  predicate StartsCrLf(s: string) {
    |s| >= 2 && s[0] == '\r' && s[1] == '\n'
  }

  /** strings.ReplaceAll(s, "\r\n", "\n") */
  function Unix(s: string): string {
    if s == "" then ""
    else if StartsCrLf(s) then "\n" + Unix(s[2..])
    else [s[0]] + Unix(s[1..])
  }

  /** strings.Split(s, "\n") */
  function Lines(s: string): (ls: seq<string>)
    ensures |ls| >= 1
  {
    if s == "" then [""]
    else
      var rest := Lines(s[1..]);
      if s[0] == '\n' then [""] + rest else [[s[0]] + rest[0]] + rest[1..]
  }

  function JoinLines(ls: seq<string>): string {
    if ls == [] then "" else ls[0] + "\n" + JoinLines(ls[1..])
  }

  /** strings.HasSuffix(s, "\n") */
  predicate EndsLine(s: string) { s != "" && s[|s| - 1] == '\n' }

  /** strings.TrimSuffix(s, "\n") */
  function DropNewline(s: string): string {
    if EndsLine(s) then s[..|s| - 1] else s
  }

  // ---- trimming ----

  lemma {:induction false} TrimLeftShape(s: string)
    ensures exists k :: 0 <= k <= |s| && TrimLeft(s) == s[k..]
    ensures TrimLeft(s) != "" ==> !IsSpace(TrimLeft(s)[0])
  {
    if s != "" && IsSpace(s[0]) {
      TrimLeftShape(s[1..]);
      var k :| 0 <= k <= |s[1..]| && TrimLeft(s[1..]) == s[1..][k..];
      assert s[1..][k..] == s[k + 1..];
    } else {
      assert s == s[0..];
    }
  }

  lemma {:induction false} TrimRightShape(s: string)
    ensures TrimRight(s) <= s
    ensures TrimRight(s) != "" ==> !IsSpace(TrimRight(s)[|TrimRight(s)| - 1])
  {
    if s != "" && IsSpace(s[|s| - 1]) {
      TrimRightShape(s[..|s| - 1]);
    }
  }

  /** What Trim returns is a contiguous part of its argument with no space at either end. */
  lemma TrimShape(s: string)
    ensures Trim(s) != "" ==> !IsSpace(Trim(s)[0]) && !IsSpace(Trim(s)[|Trim(s)| - 1])
    ensures exists i, j :: 0 <= i <= j <= |s| && Trim(s) == s[i..j]
  {
    hide TrimLeft, TrimRight, IsSpace;
    var left := TrimLeft(s);
    TrimLeftShape(s);
    TrimRightShape(left);
    var k :| 0 <= k <= |s| && left == s[k..];
    var n := |Trim(s)|;
    assert Trim(s) == left[..n];
    assert s[k..][..n] == s[k..k + n];
  }

  lemma TrimIsId(s: string)
    requires s == "" || (!IsSpace(s[0]) && !IsSpace(s[|s| - 1]))
    ensures Trim(s) == s
  {
  }

  lemma TrimTwice(s: string)
    ensures Trim(Trim(s)) == Trim(s)
  {
    hide Trim, IsSpace;
    TrimShape(s);
    TrimIsId(Trim(s));
  }

  lemma {:induction false} TrimRightDropsSpace(s: string, space: string)
    requires forall i :: 0 <= i < |space| ==> IsSpace(space[i])
    ensures TrimRight(s + space) == TrimRight(s)
    decreases |space|
  {
    if space == "" {
      assert s + space == s;
    } else {
      var whole := s + space;
      assert whole[..|whole| - 1] == s + space[..|space| - 1];
      TrimRightDropsSpace(s, space[..|space| - 1]);
    }
  }

  lemma {:induction false} CutLeftSkips(skipped: string, rest: string, cut: string)
    requires forall i :: 0 <= i < |skipped| ==> skipped[i] in cut
    requires rest != "" && rest[0] !in cut
    ensures CutLeft(skipped + rest, cut) == rest
  {
    if skipped == "" {
      assert skipped + rest == rest;
    } else {
      assert (skipped + rest)[1..] == skipped[1..] + rest;
      CutLeftSkips(skipped[1..], rest, cut);
    }
  }

  // ---- lines ----

  lemma {:induction false} LinesConcat(a: string, b: string)
    ensures Lines(a + "\n" + b) == Lines(a) + Lines(b)
  {
    if a == "" {
      assert a + "\n" + b == "\n" + b;
      assert ("\n" + b)[1..] == b;
    } else {
      assert (a + "\n" + b)[1..] == a[1..] + "\n" + b;
      LinesConcat(a[1..], b);
    }
  }

  lemma {:induction false} JoinOfLines(s: string)
    ensures JoinLines(Lines(s)) == s + "\n"
  {
    if s == "" {
      assert JoinLines([""]) == "" + "\n" + JoinLines([]);
    } else {
      var rest := Lines(s[1..]);
      JoinOfLines(s[1..]);
      assert s == [s[0]] + s[1..];
      if s[0] == '\n' {
        assert Lines(s)[1..] == rest;
      } else {
        var first := [s[0]] + rest[0];
        assert Lines(s)[0] == first && Lines(s)[1..] == rest[1..];
        assert first + "\n" + JoinLines(rest[1..]) == [s[0]] + JoinLines(rest);
      }
    }
  }

  lemma {:induction false} LineIsPart(s: string, k: nat)
    requires k < |Lines(s)|
    ensures exists i, j :: 0 <= i <= j <= |s| && Lines(s)[k] == s[i..j] && (k == 0 ==> i == 0)
  {
    if s == "" || (s[0] == '\n' && k == 0) {
      assert Lines(s)[k] == s[0..0];
    } else {
      var rest := Lines(s[1..]);
      var r := if s[0] == '\n' then k - 1 else k;
      LineIsPart(s[1..], r);
      var i, j :| 0 <= i <= j <= |s[1..]| && rest[r] == s[1..][i..j] && (r == 0 ==> i == 0);
      var tailPart := s[1..][i..j];
      assert tailPart == s[i + 1..j + 1];
      if s[0] != '\n' && k == 0 {
        assert Lines(s)[0] == [s[0]] + tailPart == s[0..j + 1];
      } else {
        assert Lines(s)[k] == tailPart;
      }
    }
  }

  // ---- "\r\n" ----

  lemma {:induction false} UnixConcat(a: string, b: string)
    requires a == "" || b == "" || a[|a| - 1] != '\r' || b[0] != '\n'
    ensures Unix(a + b) == Unix(a) + Unix(b)
  {
    hide Unix;
    if a == "" || b == "" {
      UnixEmpty();
      assert a + b == if a == "" then b else a;
      assert Unix(a) + Unix(b) == if a == "" then Unix(b) else Unix(a);
    } else if StartsCrLf(a) {
      UnixFirst(a);
      UnixFirst(a + b);
      assert (a + b)[2..] == a[2..] + b;
      UnixConcat(a[2..], b);
      Associates("\n", Unix(a[2..]), Unix(b));
    } else {
      UnixFirst(a);
      UnixFirst(a + b);
      assert !StartsCrLf(a + b);
      assert (a + b)[1..] == a[1..] + b;
      UnixConcat(a[1..], b);
      Associates([a[0]], Unix(a[1..]), Unix(b));
    }
  }

  lemma UnixEmpty()
    ensures Unix("") == ""
  {
  }

  lemma UnixFirst(s: string)
    requires s != ""
    ensures Unix(s) == if StartsCrLf(s) then "\n" + Unix(s[2..]) else [s[0]] + Unix(s[1..])
  {
  }

  /** "\r\n" occurs nowhere in s. */
  ghost predicate NoCrLf(s: string) {
    forall i :: 0 <= i < |s| - 1 ==> !(s[i] == '\r' && s[i + 1] == '\n')
  }

  lemma {:induction false} UnixShortens(s: string)
    ensures |Unix(s)| <= |s|
    ensures NoCrLf(s) ==> Unix(s) == s
    ensures !NoCrLf(s) ==> |Unix(s)| < |s|
  {
    if s != "" {
      if StartsCrLf(s) {
        UnixShortens(s[2..]);
        assert s[0] == '\r' && s[1] == '\n';
      } else {
        UnixShortens(s[1..]);
        if NoCrLf(s) {
          assert forall i :: 0 <= i < |s[1..]| ==> s[1..][i] == s[i + 1];
        } else {
          var i :| 0 <= i < |s| - 1 && s[i] == '\r' && s[i + 1] == '\n';
          assert s[1..][i - 1] == '\r' && s[1..][i] == '\n';
        }
      }
    }
  }

  lemma UnixIsId(s: string)
    ensures Unix(s) == s <==> NoCrLf(s)
  {
    UnixShortens(s);
  }

  lemma UnixEnd(s: string)
    requires EndsLine(s)
    ensures EndsLine(Unix(s)) && Unix(s) == DropNewline(Unix(s)) + "\n"
  {
  }

  /** A run of one character that is neither '\r' nor '\n' appears after Unix only if it
      was there before. */
  lemma {:induction false} UnixAddsNoRun(s: string, p: string)
    requires p != "" && forall i :: 0 <= i < |p| ==> p[i] != '\r' && p[i] != '\n'
    requires Contains(Unix(s), p)
    ensures Contains(s, p)
  {
    var u := Unix(s);
    var i :| 0 <= i <= |u| && OccursAt(u, p, i);
    assert u != "" && s != "";
    var skip := if StartsCrLf(s) then 2 else 1;
    var rest := Unix(s[skip..]);
    assert u[1..] == rest;
    if i > 0 {
      assert rest[i - 1..i - 1 + |p|] == u[i..i + |p|];
      assert OccursAt(rest, p, i - 1);
      UnixAddsNoRun(s[skip..], p);
      ContainsWithin(s[..skip], s[skip..], "", p);
      assert s[..skip] + s[skip..] + "" == s;
    } else {
      assert p[0] == u[0];
      UnixKeepsPrefix(s, p);
      assert OccursAt(s, p, 0);
    }
  }

  lemma {:induction false} UnixKeepsPrefix(s: string, p: string)
    requires p <= Unix(s)
    requires forall i :: 0 <= i < |p| ==> p[i] != '\r' && p[i] != '\n'
    ensures p <= s
  {
    if p != "" {
      assert p[0] == Unix(s)[0];
      UnixKeepsPrefix(s[1..], p[1..]);
      assert p == [p[0]] + p[1..];
    }
  }
}
