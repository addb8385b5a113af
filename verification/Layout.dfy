/** The normaliser of editorial text (backend/internal/domain/editorial_markdown.go:394-469):
    line endings, one layer of escaped line breaks, surrounding white space. Text is a byte
    string, as in Utf8. */
module Layout {
  import opened Text
  import opened Utf8
  import Chars

  // ------------------------------------------------------------ escaped breaks

  predicate IsLetter(c: char) { 'A' <= c <= 'Z' || 'a' <= c <= 'z' }

  function LetterRun(s: string): string {
    if s != "" && IsLetter(s[0]) then [s[0]] + LetterRun(s[1..]) else ""
  }

  const NAMES := {"nabla", "ne", "neq", "ni", "not", "notin", "nu"}

  /** editorialLayoutEscapeV1 for an escape that stands just after a backslash or not,
      with next the text behind it. */
  predicate EscapeOk(afterSlash: bool, next: string) {
    if afterSlash then false
    else if next == "" then true
    else if next[0] in "\\#-*`~>|" || '0' <= next[0] <= '9' then true
    else if next[0] == '\'' || next[0] == '"' then false
    else if next[0] >= RUNE_SELF then true
    else if IsLetter(next[0]) then Chars.Lower(LetterRun(next)) !in NAMES
    else true
  }

  predicate IsCrLfEscape(s: string) { |s| >= 4 && s[0] == '\\' && s[1] == 'r' && s[2] == '\\' && s[3] == 'n' }

  predicate IsLfEscape(s: string) { |s| >= 2 && s[0] == '\\' && s[1] == 'n' }

  /** The width of the escape that is decoded at the front of s; 0 when there is none. */
  function Fires(afterSlash: bool, s: string): (w: nat)
    ensures w <= |s|
    ensures w > 0 ==> s[0] == '\\' && !afterSlash
  {
    if IsCrLfEscape(s) && EscapeOk(afterSlash, s[4..]) then 4
    else if IsLfEscape(s) && EscapeOk(afterSlash, s[2..]) then 2
    else 0
  }

  /** The decoded form of s, which stands just after a backslash or not. */
  function Decoded(afterSlash: bool, s: string): string
    decreases s
  {
    if s == "" then ""
    else if Fires(afterSlash, s) > 0 then "\n" + Decoded(false, s[Fires(afterSlash, s)..])
    else [s[0]] + Decoded(s[0] == '\\', s[1..])
  }

  /** editorialLayoutEscapeV1 */
  method LayoutEscape(text: string, slashIndex: nat, escapeWidth: nat) returns (ok: bool)
    requires slashIndex + escapeWidth <= |text|
    ensures ok == EscapeOk(slashIndex > 0 && text[slashIndex - 1] == '\\', text[slashIndex + escapeWidth..])
  {
    if slashIndex > 0 && text[slashIndex - 1] == '\\' {
      return false;
    }
    var next := slashIndex + escapeWidth;
    if next >= |text| {
      return true;
    }
    if text[next] in "\\#-*`~>|" || '0' <= text[next] <= '9' {
      return true;
    }
    if text[next] == '\'' || text[next] == '"' {
      return false;
    }
    if text[next] >= RUNE_SELF {
      return true;
    }
    if IsLetter(text[next]) {
      var end := next;
      while end < |text| && IsLetter(text[end])
        invariant next <= end <= |text|
        invariant text[next..end] + LetterRun(text[end..]) == LetterRun(text[next..])
      {
        RunStep(text, next, end);
        end := end + 1;
      }
      assert LetterRun(text[end..]) == "";
      assert text[next..end] == LetterRun(text[next..]);
      return Chars.Lower(text[next..end]) !in NAMES;
    }
    return true;
  }

  lemma RunStep(text: string, next: nat, end: nat)
    requires next <= end < |text| && IsLetter(text[end])
    ensures text[next..end] + LetterRun(text[end..]) == text[next..end + 1] + LetterRun(text[end + 1..])
  {
    assert text[end..][1..] == text[end + 1..];
    assert text[next..end + 1] == text[next..end] + [text[end]];
    hide IsLetter;
    assert LetterRun(text[end..]) == [text[end]] + LetterRun(text[end + 1..]);
  }

  /** decodeEditorialLayoutEscapesV1 copies whole characters, not bytes. */
  method DecodeLayoutEscapes(text: string) returns (out: string)
    ensures out == Decoded(false, text)
  {
    hide Decoded, Fires, EscapeOk, ValidWidth, Contains;
    if !Contains(text, "\\n") && !Contains(text, "\\r\\n") {
      DecodedIsId(false, text);
      return text;
    }
    out := "";
    var index := 0;
    assert text[0..] == text;
    while index < |text|
      invariant 0 <= index <= |text|
      invariant out + Decoded(AfterSlash(text, index), text[index..]) == Decoded(false, text)
    {
      FiresAt(text, index);
      if index + 3 < |text| && text[index] == '\\' && text[index + 1] == 'r'
         && text[index + 2] == '\\' && text[index + 3] == 'n' {
        var ok := LayoutEscape(text, index, 4);
        if ok {
          BreakWritten(text, index, out);
          out := out + "\n";
          index := index + 4;
          continue;
        }
      }
      if index + 1 < |text| && text[index] == '\\' && text[index + 1] == 'n' {
        var ok := LayoutEscape(text, index, 2);
        if ok {
          BreakWritten(text, index, out);
          out := out + "\n";
          index := index + 2;
          continue;
        }
      }
      var size := ValidWidth(text[index..]);
      if size == 0 {
        size := 1;
      }
      CharacterWritten(text, index, out, size);
      out := out + text[index..index + size];
      index := index + size;
    }
    EmptyDecoded(AfterSlash(text, index), text[index..]);
    assert out + "" == out;
  }

  /** Fires, in terms of the whole text. */
  lemma FiresAt(text: string, index: nat)
    requires index < |text|
    ensures Fires(AfterSlash(text, index), text[index..]) ==
            if index + 3 < |text| && text[index] == '\\' && text[index + 1] == 'r' && text[index + 2] == '\\'
               && text[index + 3] == 'n' && EscapeOk(AfterSlash(text, index), text[index + 4..]) then 4
            else if index + 1 < |text| && text[index] == '\\' && text[index + 1] == 'n'
                    && EscapeOk(AfterSlash(text, index), text[index + 2..]) then 2
            else 0
  {
    hide EscapeOk;
    if index + 3 < |text| {
      assert text[index..][4..] == text[index + 4..];
    }
    if index + 1 < |text| {
      assert text[index..][2..] == text[index + 2..];
    }
  }

  lemma BreakWritten(text: string, index: nat, out: string)
    requires index < |text| && Fires(AfterSlash(text, index), text[index..]) > 0
    ensures var w := Fires(AfterSlash(text, index), text[index..]);
            && index + w <= |text|
            && !AfterSlash(text, index + w)
            && out + Decoded(AfterSlash(text, index), text[index..])
               == (out + "\n") + Decoded(AfterSlash(text, index + w), text[index + w..])
  {
    FiresAt(text, index);
    hide Fires, Decoded, EscapeOk;
    var w := Fires(AfterSlash(text, index), text[index..]);
    DecodedStep(AfterSlash(text, index), text[index..]);
    assert text[index..][w..] == text[index + w..];
  }

  lemma CharacterWritten(text: string, index: nat, out: string, size: nat)
    requires index < |text| && Fires(AfterSlash(text, index), text[index..]) == 0
    requires size == if ValidWidth(text[index..]) == 0 then 1 else ValidWidth(text[index..])
    ensures index + size <= |text|
    ensures out + Decoded(AfterSlash(text, index), text[index..])
            == (out + text[index..index + size]) + Decoded(AfterSlash(text, index + size), text[index + size..])
  {
    hide Fires, Decoded, ValidWidth;
    var rest := text[index..];
    CharacterCopied(AfterSlash(text, index), rest, size);
    assert rest[size..] == text[index + size..] && rest[..size] == text[index..index + size];
    Associates(out, rest[..size], Decoded(rest[size - 1] == '\\', rest[size..]));
  }

  predicate AfterSlash(text: string, index: nat)
    requires index <= |text|
  {
    index > 0 && text[index - 1] == '\\'
  }

  lemma EmptyDecoded(p: bool, s: string)
    requires s == ""
    ensures Decoded(p, s) == ""
  {
  }

  lemma DecodedStep(p: bool, s: string)
    requires s != ""
    ensures Fires(p, s) > 0 ==> Decoded(p, s) == "\n" + Decoded(false, s[Fires(p, s)..])
    ensures Fires(p, s) == 0 ==> Decoded(p, s) == [s[0]] + Decoded(s[0] == '\\', s[1..])
  {
    hide Fires;
  }

  /** No byte of a multi-byte character can begin an escape. */
  lemma CharacterCopied(p: bool, s: string, size: nat)
    requires s != "" && Fires(p, s) == 0
    requires size == if ValidWidth(s) == 0 then 1 else ValidWidth(s)
    ensures Decoded(p, s) == s[..size] + Decoded(s[size - 1] == '\\', s[size..])
  {
    DecodedStep(p, s);
    if size == 1 {
      assert s[..1] == [s[0]];
    } else {
      hide ValidWidth;
      PlainCopied(p, s, size);
    }
  }

  lemma {:induction false} PlainCopied(p: bool, s: string, n: nat)
    requires 0 < n <= |s| && forall i :: 0 <= i < n ==> s[i] != '\\'
    ensures Decoded(p, s) == s[..n] + Decoded(false, s[n..])
  {
    hide Fires, Decoded, EscapeOk;
    DecodedStep(p, s);
    if n == 1 {
      assert s[..1] == [s[0]];
    } else {
      PlainCopied(false, s[1..], n - 1);
      assert s[1..][n - 1..] == s[n..];
      assert s[..n] == [s[0]] + s[1..][..n - 1];
      Associates([s[0]], s[1..][..n - 1], Decoded(false, s[n..]));
    }
  }

  lemma {:induction false} DecodedIsId(p: bool, s: string)
    requires !Contains(s, "\\n")
    ensures Decoded(p, s) == s
    decreases s
  {
    hide EscapeOk;
    if s != "" {
      forall i | 0 <= i <= |s[1..]|
        ensures !OccursAt(s[1..], "\\n", i)
      {
        if i + 2 <= |s[1..]| {
          assert !OccursAt(s, "\\n", i + 1);
          assert s[1..][i..i + 2] == s[i + 1..i + 3];
        }
      }
      DecodedIsId(s[0] == '\\', s[1..]);
      if |s| >= 2 {
        assert !OccursAt(s, "\\n", 0);
        if |s| >= 4 {
          assert !OccursAt(s, "\\n", 2);
        }
      }
      assert Fires(p, s) == 0;
    }
  }

  // ---- decoding twice is decoding once ----

  lemma {:induction false} RunKept(p: bool, s: string)
    ensures LetterRun(Decoded(p, s)) == LetterRun(s)
  {
    if s != "" {
      hide Fires;
      if IsLetter(s[0]) {
        RunKept(false, s[1..]);
        assert Decoded(p, s)[1..] == Decoded(false, s[1..]);
      }
    }
  }

  /** A refused escape is still refused once the text behind it has been decoded. */
  lemma StillRefused(p: bool, next: string)
    requires !EscapeOk(p, next)
    ensures !EscapeOk(p, Decoded(false, next))
  {
    if !p {
      RunKept(false, next);
      hide Fires;
      assert Decoded(false, next)[0] == next[0];
    }
  }

  /** What follows an escape that does not fire. */
  lemma RefusedTail(p: bool, s: string)
    requires s != "" && s[0] == '\\' && Fires(p, s) == 0
    ensures Fires(p, Decoded(p, s)) == 0
  {
    hide EscapeOk;
    DecodedStep(p, s);
    if |s| > 1 {
      DecodedStep(true, s[1..]);
      EscapeOkAfterSlash();
      var t := Decoded(p, s);
      assert t == [s[0]] + Decoded(true, s[1..]);
      assert t[1] == s[1];
      if s[1] == 'n' {
        assert s[1..][1..] == s[2..];
        assert t[2..] == Decoded(false, s[2..]);
        StillRefused(p, s[2..]);
      } else if IsCrLfEscape(t) {
        CrLfTail(p, s, t);
      }
    } else {
      EmptyDecoded(true, s[1..]);
    }
  }

  lemma EscapeOkAfterSlash()
    ensures forall next :: !EscapeOk(true, next)
  {
  }

  lemma CrLfTail(p: bool, s: string, t: string)
    requires |s| > 1 && s[0] == '\\' && Fires(p, s) == 0
    requires t == "\\r" + Decoded(false, s[2..]) && s[1] == 'r' && IsCrLfEscape(t)
    ensures !EscapeOk(p, t[4..])
  {
    hide EscapeOk;
    var rest := s[2..];
    EscapeOkAfterSlash();
    assert t[2..] == Decoded(false, rest);
    DecodedStep(false, rest);
    assert t[2] == Decoded(false, rest)[0] && t[3] == Decoded(false, rest)[1];
    assert Fires(false, rest) == 0 && rest[0] == '\\';
    assert Decoded(false, rest)[1..] == Decoded(true, rest[1..]);
    DecodedStep(true, rest[1..]);
    assert rest[1] == 'n' && rest[1..][1..] == s[4..] && rest[2..] == s[4..];
    assert t[4..] == Decoded(false, s[4..]);
    assert IsCrLfEscape(s);
    StillRefused(p, s[4..]);
  }

  lemma {:induction false} DecodedTwice(p: bool, s: string)
    ensures Decoded(p, Decoded(p, s)) == Decoded(p, s)
    decreases s
  {
    if s != "" {
      var w, t := Fires(p, s), Decoded(p, s);
      var q, rest := if w > 0 then false else s[0] == '\\', if w > 0 then s[w..] else s[1..];
      DecodedTwice(q, rest);
      if w == 0 && s[0] == '\\' {
        RefusedTail(p, s);
      }
      hide Fires;
      assert t[1..] == Decoded(q, rest);
      assert Fires(p, t) == 0;
    }
  }

  // ---- trimming decoded text leaves nothing to decode ----

  lemma {:induction false} RunCut(y: string, z: string)
    requires y != "" && z != "" && !IsLetter(z[0])
    ensures LetterRun(y + z) == LetterRun(y)
  {
    assert (y + z)[1..] == y[1..] + z;
    if |y| > 1 {
      RunCut(y[1..], z);
    } else {
      assert y[1..] + z == z;
    }
  }

  lemma OkCut(p: bool, y: string, z: string)
    requires z != "" && !IsLetter(z[0]) && EscapeOk(false, z)
    requires EscapeOk(p, y)
    ensures EscapeOk(p, y + z)
  {
    if y == "" {
      assert y + z == z;
    } else {
      RunCut(y, z);
      hide LetterRun;
    }
  }

  lemma FiresCut(p: bool, y: string, z: string)
    requires z != "" && !IsLetter(z[0]) && EscapeOk(false, z)
    requires Fires(p, y) > 0
    ensures Fires(p, y + z) > 0
  {
    var w := Fires(p, y);
    OkCut(p, y[w..], z);
    hide EscapeOk;
    assert (y + z)[w..] == y[w..] + z;
  }

  lemma {:induction false} CutStable(p: bool, y: string, z: string)
    requires z != "" && !IsLetter(z[0]) && EscapeOk(false, z)
    requires Decoded(p, y + z) == y + z
    ensures Decoded(p, y) == y
    decreases y
  {
    if y != "" {
      var x := y + z;
      assert x[1..] == y[1..] + z && x[0] == y[0];
      if Fires(p, y) > 0 {
        FiresCut(p, y, z);
      }
      DecodedStep(p, x);
      DecodedStep(p, y);
      hide Fires, Decoded, EscapeOk, IsLetter;
      assert Fires(p, x) == 0;
      assert Decoded(p, x)[1..] == Decoded(y[0] == '\\', y[1..] + z);
      CutStable(y[0] == '\\', y[1..], z);
    } else {
      EmptyDecoded(p, y);
    }
  }

  lemma {:induction false} TrimFrontStable(x: string)
    requires Decoded(false, x) == x
    ensures Decoded(false, TrimFront(x)) == TrimFront(x)
    decreases |x|
  {
    var w := SpaceAtFront(x);
    if w > 0 {
      assert forall i :: 0 <= i < w ==> x[i] != '\\';
      PlainCopied(false, x, w);
      assert x[..w] + x[w..] == x;
      hide Decoded, SpaceAtFront;
      assert Decoded(false, x)[w..] == Decoded(false, x[w..]);
      TrimFrontStable(x[w..]);
    }
  }

  /** A white-space character breaks a run of letters and permits an escape before it. */
  lemma SpaceBreaks(x: string)
    requires SpaceAtEnd(x) > 0
    ensures var z := x[|x| - SpaceAtEnd(x)..]; !IsLetter(z[0]) && EscapeOk(false, z)
  {
    hide LetterRun, NAMES;
    var w := SpaceAtEnd(x);
    assert x[|x| - w..][0] == x[|x| - w];
  }

  lemma {:induction false} TrimEndStable(x: string)
    requires Decoded(false, x) == x
    ensures Decoded(false, TrimEnd(x)) == TrimEnd(x)
    decreases |x|
  {
    var w := SpaceAtEnd(x);
    if w > 0 {
      hide Decoded, SpaceAtEnd, EscapeOk;
      var y, z := x[..|x| - w], x[|x| - w..];
      SpaceBreaks(x);
      assert x == y + z;
      CutStable(false, y, z);
      TrimEndStable(y);
    }
  }

  // ---- commands that begin with n ----

  lemma {:induction false} RunOfLetters(w: string, rest: string)
    requires forall i :: 0 <= i < |w| ==> IsLetter(w[i])
    requires rest == "" || !IsLetter(rest[0])
    ensures LetterRun(w + rest) == w
  {
    if w == "" {
      assert w + rest == rest;
    } else {
      assert (w + rest)[1..] == w[1..] + rest;
      RunOfLetters(w[1..], rest);
      assert w == [w[0]] + w[1..];
    }
  }

  // ---- what is decoded, on the characters ----

  /** w is the whole run of letters in front of rest. */
  ghost predicate LeadingWord(next: string, w: string, rest: string) {
    && next == w + rest && (forall i | 0 <= i < |w| :: 'A' <= w[i] <= 'Z' || 'a' <= w[i] <= 'z')
    && (rest != "" ==> rest[0] < 'A' || 'Z' < rest[0] < 'a' || 'z' < rest[0])
  }

  predicate Protected(w: string) { Chars.Lower(w) in {"nabla", "ne", "neq", "ni", "not", "notin", "nu"} }

  /** A quote, or one of the seven names as the whole run of letters: the text behind an escape
      that keeps it from being a line break. */
  ghost predicate Forbids(next: string) {
    || (next != "" && (next[0] == '\'' || next[0] == '"'))
    || exists w, rest :: LeadingWord(next, w, rest) && Protected(w)
  }

  lemma {:induction false} RunSplits(s: string)
    ensures LetterRun(s) <= s
    ensures forall i | 0 <= i < |LetterRun(s)| :: IsLetter(LetterRun(s)[i])
    ensures |LetterRun(s)| < |s| ==> !IsLetter(s[|LetterRun(s)|])
  {
    if s != "" && IsLetter(s[0]) {
      RunSplits(s[1..]);
      assert s == [s[0]] + s[1..];
    }
  }

  lemma ProtectedIsName(w: string)
    ensures Protected(w) <==> Chars.Lower(w) in NAMES
    ensures Protected(w) ==> w != ""
  {
  }

  lemma NameForbids(next: string)
    requires Protected(LetterRun(next))
    ensures Forbids(next) && next != "" && IsLetter(next[0])
  {
    hide Protected, LetterRun;
    var w := LetterRun(next);
    ProtectedIsName(w);
    RunSplits(next);
    assert LeadingWord(next, w, next[|w|..]);
    assert IsLetter(w[0]);
  }

  lemma ForbidsName(next: string)
    requires Forbids(next)
    ensures next != "" && (next[0] == '\'' || next[0] == '"' || Protected(LetterRun(next)))
  {
    hide Protected;
    if next == "" || !(next[0] == '\'' || next[0] == '"') {
      var w, rest :| LeadingWord(next, w, rest) && Protected(w);
      RunOfLetters(w, rest);
      ProtectedIsName(w);
    }
  }

  /** The permitted characters need no list: whatever is not forbidden is permitted. */
  lemma PermittedExactly(next: string)
    ensures EscapeOk(false, next) <==> !Forbids(next)
  {
    hide Forbids, Protected, NAMES, LetterRun;
    ProtectedIsName(LetterRun(next));
    if Forbids(next) {
      ForbidsName(next);
    }
    if Protected(LetterRun(next)) {
      NameForbids(next);
    }
    if next != "" && (next[0] == '\'' || next[0] == '"') {
      QuoteForbids(next);
    }
  }

  lemma QuoteForbids(next: string)
    requires next != "" && (next[0] == '\'' || next[0] == '"')
    ensures Forbids(next)
  {
  }

  /** A command \n followed by letters keeps its backslash exactly when the letters behind the
      n are one of the names. */
  lemma CommandSurvives(w: string, rest: string)
    requires w != "" && forall i :: 0 <= i < |w| ==> IsLetter(w[i])
    requires rest == "" || !IsLetter(rest[0])
    ensures Decoded(false, "\\n" + (w + rest))[0] == '\\' <==> Chars.Lower(w) in NAMES
  {
    var next := w + rest;
    var s := "\\n" + next;
    RunOfLetters(w, rest);
    assert s[2..] == next && next[0] == w[0];
    assert EscapeOk(false, next) <==> Chars.Lower(w) !in NAMES;
    hide EscapeOk, NAMES;
    DecodedStep(false, s);
  }

  lemma AblaIsNoName()
    ensures Chars.Lower("abla") !in NAMES
  {
    assert Chars.Lower("abla") == "abla";
  }

  /** So \nabla, which the names are meant to protect, is broken: the letters behind its n are
      abla. */
  lemma NablaIsBroken()
    ensures Decoded(false, "\\nabla")[0] == '\n'
  {
    hide Decoded, EscapeOk, NAMES;
    var w := "abla";
    CommandSurvives(w, "");
    assert "\\n" + (w + "") == "\\nabla";
    AblaIsNoName();
    DecodedStep(false, "\\nabla");
  }

  /** The escape \\n at the front of any text, wherever it stands: a line break unless it stands
      behind a backslash or in front of a quote or a name, and then it stays as it is. */
  lemma BreakExactly(afterSlash: bool, next: string)
    ensures Decoded(afterSlash, "\\n" + next)
            == (if afterSlash || Forbids(next) then "\\n" else "\n") + Decoded(false, next)
  {
    hide Decoded, EscapeOk, Forbids;
    var s := "\\n" + next;
    PermittedExactly(next);
    RefusedBehindSlash(next);
    assert s[2..] == next && s[1..] == "n" + next && ("n" + next)[1..] == next;
    assert !IsCrLfEscape(s);
    DecodedStep(afterSlash, s);
    if afterSlash || Forbids(next) {
      DecodedStep(true, "n" + next);
      assert "\\" + ("n" + Decoded(false, next)) == "\\n" + Decoded(false, next);
    }
  }

  lemma RefusedBehindSlash(next: string)
    ensures !EscapeOk(true, next)
  {
  }

  /** The same for \\r\\n, of which the second half is an escape of its own behind a refused one. */
  lemma CrLfBreakExactly(afterSlash: bool, next: string)
    ensures Decoded(afterSlash, "\\r\\n" + next)
            == (if afterSlash && !Forbids(next) then "\\r\n"
                else if Forbids(next) then "\\r\\n" else "\n") + Decoded(false, next)
  {
    hide Decoded, EscapeOk, Forbids;
    var s := "\\r\\n" + next;
    PermittedExactly(next);
    RefusedBehindSlash(next);
    assert s[4..] == next && s[1..] == "r\\n" + next && ("r\\n" + next)[1..] == "\\n" + next;
    assert IsCrLfEscape(s) && !IsLfEscape(s);
    DecodedStep(afterSlash, s);
    if afterSlash || Forbids(next) {
      DecodedStep(true, "r\\n" + next);
      BreakExactly(false, next);
      var kept := if Forbids(next) then "\\n" else "\n";
      assert "\\" + ("r" + (kept + Decoded(false, next))) == ("\\r" + kept) + Decoded(false, next);
      assert "\\r" + "\\n" == "\\r\\n" && "\\r" + "\n" == "\\r\n";
    }
  }

  // ---------------------------------------------------------------- normaliser

  /** strings.ReplaceAll(s, "\r", "\n") */
  function DropCr(s: string): string { seq(|s|, i requires 0 <= i < |s| => if s[i] == '\r' then '\n' else s[i]) }

  function Normalize(text: string): string { TrimBytes(Decoded(false, DropCr(Chars.Unix(text)))) }

  /** normalizeEditorialTextV1 */
  method NormalizeText(text: string) returns (out: string)
    ensures out == Normalize(text)
  {
    var decoded := DecodeLayoutEscapes(DropCr(Chars.Unix(text)));
    out := TrimBytes(decoded);
  }

  lemma {:induction false} DecodedAdds(p: bool, s: string, c: char)
    requires c in Decoded(p, s) && c != '\n'
    ensures c in s
    decreases s
  {
    if s != "" {
      var w := Fires(p, s);
      DecodedStep(p, s);
      hide Fires, Decoded;
      if w > 0 {
        DecodedAdds(false, s[w..], c);
      } else if c != s[0] {
        DecodedAdds(s[0] == '\\', s[1..], c);
      }
    }
  }

  lemma {:induction false} TrimFrontAdds(s: string, c: char)
    requires c in TrimFront(s)
    ensures c in s
    decreases |s|
  {
    if SpaceAtFront(s) > 0 {
      TrimFrontAdds(s[SpaceAtFront(s)..], c);
    }
  }

  lemma NormalizedHasNoCr(text: string)
    ensures '\r' !in Normalize(text)
  {
    var plain := DropCr(Chars.Unix(text));
    var decoded := Decoded(false, plain);
    if '\r' in Normalize(text) {
      TrimEndDone(TrimFront(decoded));
      hide Decoded, TrimEnd;
      assert '\r' in TrimFront(decoded);
      TrimFrontAdds(decoded, '\r');
      DecodedAdds(false, plain, '\r');
    }
  }

  lemma WithoutCr(s: string)
    requires '\r' !in s
    ensures DropCr(Chars.Unix(s)) == s
  {
    Chars.UnixIsId(s);
  }

  /** normalizeEditorialTextV1 is idempotent on every byte string. */
  lemma NormalizeTwice(text: string)
    ensures Normalize(Normalize(text)) == Normalize(text)
  {
    var decoded := Decoded(false, DropCr(Chars.Unix(text)));
    NormalizedHasNoCr(text);
    WithoutCr(Normalize(text));
    DecodedTwice(false, DropCr(Chars.Unix(text)));
    hide Decoded, DropCr;
    TrimFrontStable(decoded);
    TrimEndStable(TrimFront(decoded));
    TrimTwice(decoded);
  }

  lemma DropCrConcat(a: string, b: string)
    ensures DropCr(a + b) == DropCr(a) + DropCr(b)
  {
  }

  lemma UnixOfBreak(b: string)
    ensures Chars.Unix("\r\n" + b) == "\n" + Chars.Unix(b)
    ensures Chars.Unix("\n" + b) == "\n" + Chars.Unix(b)
    ensures (b == "" || b[0] != '\n') ==> Chars.Unix("\r" + b) == "\r" + Chars.Unix(b)
  {
    assert ("\r\n" + b)[2..] == b && ("\n" + b)[1..] == b && ("\r" + b)[1..] == b;
  }

  /** A carriage return with a newline, a newline and a carriage return alone are all one
      line break to the normaliser. */
  lemma BreaksAreAlike(a: string, b: string)
    requires a == "" || a[|a| - 1] != '\r'
    ensures Normalize(a + ("\r\n" + b)) == Normalize(a + ("\n" + b))
    ensures (b == "" || b[0] != '\n') ==> Normalize(a + ("\r" + b)) == Normalize(a + ("\n" + b))
  {
    hide Decoded, TrimBytes, Chars.Unix, DropCr;
    UnixOfBreak(b);
    Chars.UnixConcat(a, "\r\n" + b);
    Chars.UnixConcat(a, "\n" + b);
    Chars.UnixConcat(a, "\r" + b);
    DropCrConcat(Chars.Unix(a), "\r" + Chars.Unix(b));
    DropCrConcat(Chars.Unix(a), "\n" + Chars.Unix(b));
    DropCrConcat("\r", Chars.Unix(b));
    DropCrConcat("\n", Chars.Unix(b));
    OneBreak();
  }

  lemma OneBreak()
    ensures DropCr("\r") == "\n" && DropCr("\n") == "\n"
  {
  }
}
