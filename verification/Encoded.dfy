/** Text of characters against text of bytes: the statement and request models cut and measure
    characters, the editorial and sandbox models bytes of UTF-8, and both do the same. */
module Encoded {
  import opened Chars
  import opened Utf8

  /** The text in UTF-8; a character is a scalar value. */
  function Bytes(s: string): string {
    if s == "" then "" else Encode(s[0] as nat) + Bytes(s[1..])
  }

  lemma {:induction false} BytesConcat(a: string, b: string)
    ensures Bytes(a + b) == Bytes(a) + Bytes(b)
  {
    hide Encode;
    if a == "" {
      assert a + b == b;
    } else {
      BytesConcat(a[1..], b);
      assert (a + b)[1..] == a[1..] + b;
    }
  }

  lemma BytesOfLast(s: string)
    requires s != ""
    ensures Bytes(s) == Bytes(s[..|s| - 1]) + Encode(s[|s| - 1] as nat)
  {
    hide Encode;
    var last := [s[|s| - 1]];
    assert s == s[..|s| - 1] + last;
    BytesConcat(s[..|s| - 1], last);
    assert Bytes(last[1..]) == "";
  }

  /** ByteLength is the number of bytes. */
  lemma {:induction false} ByteLengthIsUtf8(s: string)
    ensures ByteLength(s) == |Bytes(s)|
  {
    if s != "" {
      ByteLengthIsUtf8(s[1..]);
    }
  }

  /** The two tables of white space are one. */
  lemma WhiteSpaceAgrees(c: char)
    ensures IsSpace(c) <==> IsWhite(c as nat)
  {
  }

  lemma FrontAgrees(s: string)
    requires s != ""
    ensures SpaceAtFront(Bytes(s)) == if IsSpace(s[0]) then |Encode(s[0] as nat)| else 0
    ensures |Encode(s[0] as nat)| > 0
  {
    hide SpaceAtFront, IsSpace, IsWhite, ValueAtFront, ValidWidth, Encode;
    WhiteSpaceAgrees(s[0]);
    EncodedIsValid(s[0] as nat, Bytes(s));
    SpaceIsWhite(Bytes(s));
  }

  lemma {:induction false} TrimLeftAgrees(s: string)
    ensures Bytes(TrimLeft(s)) == TrimFront(Bytes(s))
  {
    hide SpaceAtFront, IsSpace, Encode;
    if s == "" {
      NoSpace();
    } else {
      FrontAgrees(s);
      if IsSpace(s[0]) {
        TrimLeftAgrees(s[1..]);
        assert Bytes(s)[|Encode(s[0] as nat)|..] == Bytes(s[1..]);
      }
    }
  }

  lemma NoSpace()
    ensures SpaceAtFront("") == 0 && SpaceAtEnd("") == 0
  {
  }

  /** Only the first byte of an encoding is no tail. */
  lemma EncodingShape(cp: nat)
    requires Scalar(cp)
    ensures Encode(cp) != "" && !IsTail(Encode(cp)[0])
    ensures forall i | 1 <= i < |Encode(cp)| :: IsTail(Encode(cp)[i])
  {
  }

  lemma LastIsLonger(x: string, a: nat, y: string, b: nat)
    requires Scalar(a) && Scalar(b) && x + Encode(a) == y + Encode(b)
    ensures |x| <= |y|
  {
    hide Scalar, Encode, IsTail;
    EncodingShape(a);
    EncodingShape(b);
    var s := x + Encode(a);
    assert !IsTail(s[|x|]);
    assert forall i | |y| < i < |s| :: IsTail(s[i]) by {
      forall i | |y| < i < |s|
        ensures IsTail(s[i])
      {
        assert s[i] == Encode(b)[i - |y|];
      }
    }
  }

  /** A text ends with one encoding only. */
  lemma LastEncoding(x: string, a: nat, y: string, b: nat)
    requires Scalar(a) && Scalar(b) && x + Encode(a) == y + Encode(b)
    ensures a == b
  {
    hide Scalar, Encode;
    LastIsLonger(x, a, y, b);
    LastIsLonger(y, b, x, a);
    var s := x + Encode(a);
    assert s[|x|..] == Encode(a) && s[|y|..] == Encode(b);
    EncodedIsValid(a, Encode(a));
    EncodedIsValid(b, Encode(b));
  }

  lemma EndAgrees(s: string)
    requires s != ""
    ensures SpaceAtEnd(Bytes(s)) == if IsSpace(s[|s| - 1]) then |Encode(s[|s| - 1] as nat)| else 0
    ensures |Encode(s[|s| - 1] as nat)| > 0
  {
    hide SpaceAtEnd, IsSpace, IsWhite, Encode, Bytes;
    var c, front := s[|s| - 1], Bytes(s[..|s| - 1]);
    WhiteSpaceAgrees(c);
    BytesOfLast(s);
    EncodingShape(c as nat);
    if IsSpace(c) {
      EndOfEncoding(c as nat, front);
    } else if SpaceAtEnd(Bytes(s)) > 0 {
      var cp, other := EncodingAtEnd(Bytes(s));
      LastEncoding(front, c as nat, other, cp);
    }
  }

  lemma {:induction false} TrimRightAgrees(s: string)
    ensures Bytes(TrimRight(s)) == TrimEnd(Bytes(s))
  {
    hide SpaceAtEnd, IsSpace, Encode;
    if s == "" {
      NoSpace();
    } else {
      hide Bytes;
      EndAgrees(s);
      BytesOfLast(s);
      if IsSpace(s[|s| - 1]) {
        TrimRightAgrees(s[..|s| - 1]);
        assert Bytes(s)[..|Bytes(s)| - SpaceAtEnd(Bytes(s))] == Bytes(s[..|s| - 1]);
      }
    }
  }

  /** Cutting white space from characters or from their bytes is the same. */
  lemma TrimAgrees(s: string)
    ensures Bytes(Trim(s)) == TrimBytes(Bytes(s))
  {
    hide Bytes, TrimLeft, TrimRight, TrimFront, TrimEnd;
    TrimLeftAgrees(s);
    TrimRightAgrees(TrimLeft(s));
  }

  /** ... and so is replacing "\r\n". */
  lemma {:induction false} UnixAgrees(s: string)
    ensures Bytes(Unix(s)) == Unix(Bytes(s))
  {
    if s != "" {
      hide Encode, Unix, Bytes;
      var cp, rest := s[0] as nat, s[1..];
      BytesOfFirst(s);
      UnixFirst(s);
      if StartsCrLf(s) {
        BytesOfFirst(rest);
        UnixAgrees(s[2..]);
        assert rest[1..] == s[2..];
        BreakAgrees(Bytes(s[2..]));
        BytesConcat("\n", Unix(s[2..]));
      } else {
        UnixAgrees(rest);
        BytesConcat([s[0]], Unix(rest));
        NoBreakHere(s);
        UnixConcat(Encode(cp), Bytes(rest));
        EncodedKeeps(cp);
      }
    } else {
      assert Bytes("") == "";
    }
  }

  lemma BytesOfFirst(s: string)
    requires s != ""
    ensures Bytes(s) == Encode(s[0] as nat) + Bytes(s[1..])
    ensures s[0] < '\U{80}' ==> Encode(s[0] as nat) == [s[0]] && Bytes([s[0]]) == [s[0]]
    ensures Bytes([s[0]]) == Encode(s[0] as nat) && Encode(s[0] as nat) != ""
  {
    assert [s[0]][1..] == "";
    assert s[0] < '\U{80}' ==> [s[0] as nat as char] == [s[0]];
  }

  lemma BreakAgrees(rest: string)
    ensures Unix("\r" + ("\n" + rest)) == "\n" + Unix(rest)
    ensures Bytes("\n") == "\n"
  {
    var s := "\r" + ("\n" + rest);
    UnixFirst(s);
    assert s[2..] == rest;
    BytesOfFirst("\n");
  }

  lemma NoBreakHere(s: string)
    requires s != "" && !StartsCrLf(s)
    ensures var e, rest := Encode(s[0] as nat), Bytes(s[1..]);
            e != "" && (rest == "" || e[|e| - 1] != '\r' || rest[0] != '\n')
  {
    var e := Encode(s[0] as nat);
    if s[1..] != "" {
      var f := Encode(s[1] as nat);
      assert Bytes(s[1..]) == f + Bytes(s[1..][1..]);
      assert e[|e| - 1] == '\r' ==> s[0] == '\r';
      assert f[0] == '\n' ==> s[1] == '\n';
    }
  }

  lemma EncodedKeeps(cp: nat)
    requires Scalar(cp)
    ensures Unix(Encode(cp)) == Encode(cp)
  {
    EncodingShape(cp);
    hide IsTail;
    assert NoCrLf(Encode(cp)) by {
      var e := Encode(cp);
      if i :| 0 <= i < |e| - 1 && e[i] == '\r' && e[i + 1] == '\n' {
        assert IsTail(e[i + 1]);
        TailIsNoBreak(e[i + 1]);
      }
    }
    UnixIsId(Encode(cp));
  }

  lemma TailIsNoBreak(c: char)
    ensures IsTail(c) ==> c != '\n'
  {
  }

  // ---- case ----

  const CAPITALS := "ABCDEFGHIJKLM" + "NOPQRSTUVWXYZ"
  const SMALL := "abcdefghijklm" + "nopqrstuvwxyz"

  lemma Letters(c: char)
    ensures forall k | 0 <= k < 26 :: CAPITALS[k] as int == 'A' as int + k && SMALL[k] as int == 'a' as int + k
    ensures 'A' <= c <= 'Z' ==> c == CAPITALS[c as int - 'A' as int]
    ensures |CAPITALS| == |SMALL| == 26
  {
  }

  /** Lower-casing writes the small letter for each capital one and nothing else. */
  lemma LowerLetters(s: string, i: nat)
    requires i < |s|
    ensures |Lower(s)| == |s|
    ensures s[i] !in CAPITALS ==> Lower(s)[i] == s[i]
    ensures forall k | 0 <= k < 26 && s[i] == CAPITALS[k] :: Lower(s)[i] == SMALL[k]
  {
    Letters(s[i]);
    hide CAPITALS, SMALL;
  }
}
