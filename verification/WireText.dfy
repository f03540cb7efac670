/** Text as the front door compares it: ASCII case folding, and trimming of the
    whitespace Unicode knows, over bytes of UTF-8. A char stands for one byte. */
module WireText {
  // ---- case ----

  function FoldByte(c: char): char {
    if 'A' <= c <= 'Z' then ((c as int) + 32) as char else c
  }

  /** ASCII folding, byte for byte, as the target compares setting names. */
  function Fold(name: string): (r: string)
    ensures |r| == |name| && forall i :: 0 <= i < |r| ==> r[i] == FoldByte(name[i])
  {
    seq(|name|, i requires 0 <= i < |name| => FoldByte(name[i]))
  }

  lemma FoldTwice(name: string)
    ensures Fold(Fold(name)) == Fold(name)
  {
  }

  // ---- one name in two spellings ----

  const UPPER: string := "ABCDEFGHIJKLMNOPQRSTUVWXYZ"
  const LOWER: string := "abcdefghijklmnopqrstuvwxyz"

  /** The k-th letter in both its cases. */
  predicate Cases(k: nat, upper: char, lower: char) {
    k < |UPPER| && k < |LOWER| && upper == UPPER[k] && lower == LOWER[k]
  }

  /** One byte, or one letter of the alphabet in either case. */
  ghost predicate SameLetter(a: char, b: char) {
    a == b || (exists k: nat :: Cases(k, a, b)) || (exists k: nat :: Cases(k, b, a))
  }

  /** Two spellings of one setting name. */
  ghost predicate SameName(a: string, b: string) {
    |a| == |b| && forall i :: 0 <= i < |a| ==> SameLetter(a[i], b[i])
  }

  lemma UpperAt(k: nat)
    ensures |UPPER| == 26 && (k < 26 ==> UPPER[k] as int == 65 + k)
  {
  }

  lemma LowerAt(k: nat)
    ensures |LOWER| == 26 && (k < 26 ==> LOWER[k] as int == 97 + k)
  {
  }

  lemma CasesExactly(k: nat, upper: char, lower: char)
    ensures Cases(k, upper, lower) <==> k < 26 && upper as int == 65 + k && lower as int == 97 + k
  {
    UpperAt(k);
    LowerAt(k);
  }

  lemma CaseOf(upper: char, lower: char)
    ensures (exists k: nat :: Cases(k, upper, lower)) <==> 'A' <= upper <= 'Z' && lower as int == upper as int + 32
  {
    if k: nat :| Cases(k, upper, lower) {
      CasesExactly(k, upper, lower);
    } else if 'A' <= upper <= 'Z' && lower as int == upper as int + 32 {
      CasesExactly(upper as int - 65, upper, lower);
    }
  }

  lemma FoldedLetters(a: char, b: char)
    ensures FoldByte(a) == FoldByte(b) <==> SameLetter(a, b)
  {
    CaseOf(a, b);
    CaseOf(b, a);
  }

  /** What the fold identifies: the spellings of one name, and nothing else. */
  lemma FoldIdentifies(a: string, b: string)
    ensures Fold(a) == Fold(b) <==> SameName(a, b)
  {
    forall i | 0 <= i < |a| && |a| == |b| ensures Fold(a)[i] == Fold(b)[i] <==> SameLetter(a[i], b[i]) {
      FoldedLetters(a[i], b[i]);
    }
    if Fold(a) == Fold(b) {
      assert |a| == |Fold(a)| == |b|;
    }
  }

  // ---- whitespace ----

  /** How many bytes the whitespace character at the front of this UTF-8 text takes. */
  function SpaceWidth(s: string): (n: nat)
    ensures n <= |s|
  {
    if s == "" then 0
    else
      var a := s[0] as int;
      if 9 <= a <= 13 || a == 32 then 1
      else if |s| == 1 then 0
      else
        var b := s[1] as int;
        if a == 0xC2 && (b == 0x85 || b == 0xA0) then 2
        else if |s| == 2 then 0
        else if WideSpace(a, b, s[2] as int) then 3
        else 0
  }

  /** U+1680, U+2000 to U+200A, U+2028, U+2029, U+202F, U+205F and U+3000. */
  predicate WideSpace(a: int, b: int, c: int) {
    || (a == 0xE1 && b == 0x9A && c == 0x80)
    || (a == 0xE2 && b == 0x80 && (0x80 <= c <= 0x8A || c == 0xA8 || c == 0xA9 || c == 0xAF))
    || (a == 0xE2 && b == 0x81 && c == 0x9F)
    || (a == 0xE3 && b == 0x80 && c == 0x80)
  }

  /** The characters Unicode gives the White_Space property. */
  predicate WhiteSpace(cp: nat) {
    || 0x9 <= cp <= 0xD || cp == 0x20 || cp == 0x85 || cp == 0xA0 || cp == 0x1680 || 0x2000 <= cp <= 0x200A
    || cp == 0x2028 || cp == 0x2029 || cp == 0x202F || cp == 0x205F || cp == 0x3000
  }

  /** A character of the basic plane in UTF-8 (section 3 of RFC 3629). */
  function Utf8Of(cp: nat): (r: string)
    requires cp < 0x1_0000
  {
    if cp < 0x80 then [cp as char]
    else if cp < 0x800 then [(0xC0 + cp / 64) as char, (0x80 + cp % 64) as char]
    else [(0xE0 + cp / 4096) as char, (0x80 + cp / 64 % 64) as char, (0x80 + cp % 64) as char]
  }

  /** The text begins with this whitespace character. */
  predicate BeginsWith(s: string, cp: nat) { WhiteSpace(cp) && Utf8Of(cp) <= s }

  /** The bytes that are taken for whitespace are the UTF-8 of such a character, all of it. */
  lemma SpaceWidthExactly(s: string)
    ensures SpaceWidth(s) > 0 <==> exists cp: nat :: BeginsWith(s, cp)
    ensures forall cp: nat :: BeginsWith(s, cp) ==> SpaceWidth(s) == |Utf8Of(cp)|
  {
    forall cp: nat | BeginsWith(s, cp) ensures SpaceWidth(s) == |Utf8Of(cp)| {
      BeginningIsSpace(s, cp);
    }
    if SpaceWidth(s) == 1 {
      assert BeginsWith(s, s[0] as int);
    } else if SpaceWidth(s) == 2 {
      assert BeginsWith(s, s[1] as int);
    } else if SpaceWidth(s) == 3 {
      var cp := (s[0] as int - 0xE0) * 4096 + (s[1] as int - 0x80) * 64 + (s[2] as int - 0x80);
      assert BeginsWith(s, cp);
    }
  }

  lemma BeginningIsSpace(s: string, cp: nat)
    requires BeginsWith(s, cp)
    ensures SpaceWidth(s) == |Utf8Of(cp)|
  {
    var c := Utf8Of(cp);
    assert s[0] == c[0] && (|c| > 1 ==> s[1] == c[1]) && (|c| > 2 ==> s[2] == c[2]);
  }

  /** Nothing is left of it once whitespace is trimmed. */
  predicate Blank(s: string)
    decreases |s|
  {
    s == "" || (SpaceWidth(s) > 0 && Blank(s[SpaceWidth(s)..]))
  }

  function TrimLeft(s: string): string
    decreases |s|
  {
    if SpaceWidth(s) > 0 then TrimLeft(s[SpaceWidth(s)..]) else s
  }

  /** The text ends in a whitespace character of `n` bytes. */
  predicate EndsInSpace(s: string, n: nat) {
    n <= |s| && SpaceWidth(s[|s| - n..]) == n
  }

  function SpaceWidthAtEnd(s: string): nat {
    if EndsInSpace(s, 1) then 1 else if EndsInSpace(s, 2) then 2 else if EndsInSpace(s, 3) then 3 else 0
  }

  function TrimRight(s: string): string
    decreases |s|
  {
    if SpaceWidthAtEnd(s) > 0 then TrimRight(s[..|s| - SpaceWidthAtEnd(s)]) else s
  }

  function Trim(s: string): string { TrimRight(TrimLeft(s)) }

  // ---- what trimming leaves ----

  /** One whitespace character, and no more. */
  predicate Space(c: string) { c != "" && SpaceWidth(c) == |c| }

  lemma SpaceInFront(c: string, rest: string)
    requires Space(c)
    ensures SpaceWidth(c + rest) == |c| && (c + rest)[|c|..] == rest
  {
    var s := c + rest;
    assert s[0] == c[0] && (|c| > 1 ==> s[1] == c[1]) && (|c| > 2 ==> s[2] == c[2]);
  }

  lemma FrontIsSpace(s: string)
    requires SpaceWidth(s) > 0
    ensures Space(s[..SpaceWidth(s)]) && s == s[..SpaceWidth(s)] + s[SpaceWidth(s)..]
  {
  }

  lemma {:induction false} BlankConcat(a: string, b: string)
    requires Blank(a) && Blank(b)
    ensures Blank(a + b)
    decreases |a|
  {
    if a == "" {
      assert a + b == b;
    } else {
      var n := SpaceWidth(a);
      FrontIsSpace(a);
      assert a + b == a[..n] + (a[n..] + b);
      SpaceInFront(a[..n], a[n..] + b);
      BlankConcat(a[n..], b);
    }
  }

  lemma OneSpaceIsBlank(c: string)
    requires Space(c)
    ensures Blank(c)
  {
    assert c[|c|..] == "";
  }

  lemma Regroup(a: string, b: string, c: string)
    ensures a + (b + c) == (a + b) + c
  {
  }

  lemma {:induction false} TrimLeftCuts(s: string) returns (a: string)
    ensures Blank(a) && s == a + TrimLeft(s) && SpaceWidth(TrimLeft(s)) == 0
    decreases |s|
  {
    var n := SpaceWidth(s);
    if n == 0 {
      a := "";
    } else {
      FrontIsSpace(s);
      OneSpaceIsBlank(s[..n]);
      var more := TrimLeftCuts(s[n..]);
      a := s[..n] + more;
      BlankConcat(s[..n], more);
      Regroup(s[..n], more, TrimLeft(s[n..]));
    }
  }

  lemma EndIsSpace(s: string)
    requires SpaceWidthAtEnd(s) > 0
    ensures var init, last := s[..|s| - SpaceWidthAtEnd(s)], s[|s| - SpaceWidthAtEnd(s)..];
            Blank(last) && s == init + last
  {
    OneSpaceIsBlank(s[|s| - SpaceWidthAtEnd(s)..]);
  }

  lemma TrimRightOnce(s: string)
    requires SpaceWidthAtEnd(s) > 0
    ensures TrimRight(s) == TrimRight(s[..|s| - SpaceWidthAtEnd(s)])
  {
  }

  /** What is cut from the end of a text cut before, and what was cut then. */
  lemma CutOneMore(s: string, kept: string, more: string, last: string)
    requires Blank(more) && Blank(last) && s == (kept + more) + last
    ensures Blank(more + last) && s == kept + (more + last)
  {
    BlankConcat(more, last);
    Regroup(kept, more, last);
  }

  lemma {:induction false} TrimRightCuts(s: string) returns (b: string)
    ensures Blank(b) && s == TrimRight(s) + b && SpaceWidthAtEnd(TrimRight(s)) == 0
    decreases |s|
  {
    var n := SpaceWidthAtEnd(s);
    if n == 0 {
      b := "";
      assert s + b == s;
    } else {
      EndIsSpace(s);
      var more := TrimRightCuts(s[..|s| - n]);
      TrimRightOnce(s);
      CutOneMore(s, TrimRight(s), more, s[|s| - n..]);
      b := more + s[|s| - n..];
    }
  }

  lemma {:induction false} TrimLeftThrough(a: string, rest: string)
    requires Blank(a)
    ensures TrimLeft(a + rest) == TrimLeft(rest)
    decreases |a|
  {
    if a == "" {
      assert a + rest == rest;
    } else {
      var n := SpaceWidth(a);
      FrontIsSpace(a);
      assert a + rest == a[..n] + (a[n..] + rest);
      SpaceInFront(a[..n], a[n..] + rest);
      TrimLeftThrough(a[n..], rest);
    }
  }

  /** A blank text has a last whitespace character. */
  lemma {:induction false} BlankEnds(b: string) returns (init: string, last: string)
    requires Blank(b) && b != ""
    ensures b == init + last && Blank(init) && Space(last)
    decreases |b|
  {
    var n := SpaceWidth(b);
    FrontIsSpace(b);
    if b[n..] == "" {
      init, last := "", b;
    } else {
      var more;
      more, last := BlankEnds(b[n..]);
      init := b[..n] + more;
      OneSpaceIsBlank(b[..n]);
      BlankConcat(b[..n], more);
    }
  }

  /** No shorter character is read at the end of a longer one. */
  lemma SpaceAtEnd(init: string, c: string)
    requires Space(c)
    ensures SpaceWidthAtEnd(init + c) == |c|
  {
    var s := init + c;
    assert s[|s| - |c|..] == c;
    assert |c| > 1 ==> s[|s| - 1..] == c[|c| - 1..];
    assert |c| > 2 ==> s[|s| - 2..] == c[|c| - 2..];
  }

  lemma {:induction false} TrimRightThrough(x: string, b: string)
    requires Blank(b)
    ensures TrimRight(x + b) == TrimRight(x)
    decreases |b|
  {
    if b == "" {
      assert x + b == x;
    } else {
      var init, last := BlankEnds(b);
      assert x + b == (x + init) + last;
      SpaceAtEnd(x + init, last);
      assert (x + b)[..|x + b| - |last|] == x + init;
      TrimRightThrough(x, init);
    }
  }

  /** No whitespace character begins in a text and ends in the blank behind it. */
  lemma NoSpaceAcross(x: string, b: string)
    requires x != "" && SpaceWidth(x) == 0 && Blank(b)
    ensures SpaceWidth(x + b) == 0
  {
    var s := x + b;
    assert forall i :: 0 <= i < |x| ==> s[i] == x[i];
    assert forall i :: 0 <= i < |b| ==> s[|x| + i] == b[i];
  }

  lemma StartsAlike(x: string, b: string)
    requires SpaceWidth(x + b) == 0
    ensures SpaceWidth(x) == 0
  {
    assert forall i :: 0 <= i < |x| ==> (x + b)[i] == x[i];
  }

  /** The text stands between two blanks. */
  ghost predicate Between(s: string, x: string) {
    exists a: string, b: string :: Blank(a) && Blank(b) && s == a + (x + b)
  }

  /** Trimming leaves exactly the text between two blanks that neither begins nor ends
      with whitespace. */
  lemma TrimExactly(s: string, x: string)
    ensures Trim(s) == x <==> Between(s, x) && SpaceWidth(x) == 0 && SpaceWidthAtEnd(x) == 0
  {
    if Between(s, x) && SpaceWidth(x) == 0 && SpaceWidthAtEnd(x) == 0 {
      var a, b :| Blank(a) && Blank(b) && s == a + (x + b);
      TrimLeftThrough(a, x + b);
      if x == "" {
        assert x + b == b + "";
        TrimLeftThrough(b, "");
      } else {
        NoSpaceAcross(x, b);
        TrimRightThrough(x, b);
      }
    }
    if Trim(s) == x {
      var a := TrimLeftCuts(s);
      var b := TrimRightCuts(TrimLeft(s));
      StartsAlike(x, b);
    }
  }

  /** It neither begins nor ends with whitespace. */
  predicate Bare(x: string) { SpaceWidth(x) == 0 && SpaceWidthAtEnd(x) == 0 }

  lemma TrimTo(s: string, x: string)
    requires Between(s, x) && Bare(x)
    ensures Trim(s) == x
  {
    TrimExactly(s, x);
  }
}
