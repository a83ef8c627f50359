/** C++ string literals: `cstrlit` (metadata.cpp), which writes text as a
    `u8"..."` literal, and `parse_cstrlit` (call_faust.cpp), which reads a
    quoted literal of the generated source back into text. */
module Literals {
  import opened Text

  const NUL: char := '\0'
  const BEL: char := '\U{7}'
  const BS: char := '\U{8}'
  const TAB: char := '\t'
  const LF: char := '\n'
  const VT: char := '\U{B}'
  const FF: char := '\U{C}'
  const CR: char := '\r'

  // ---------------------------------------------------------------------
  // cstrlit

  /** The letter `cstrlit` writes after a backslash for `c`, if `c` is one
      of the characters it escapes. NUL is not among them. */
  function EscapeLetter(c: char): Option<char> {
    if c == BEL then Some('a')
    else if c == BS then Some('b')
    else if c == TAB then Some('t')
    else if c == LF then Some('n')
    else if c == VT then Some('v')
    else if c == FF then Some('f')
    else if c == CR then Some('r')
    else if c == '"' || c == '\\' then Some(c)
    else None
  }

  /** The one or two characters `cstrlit` writes for `c`. */
  function EscapeChar(c: char): string {
    match EscapeLetter(c)
    case Some(l) => ['\\', l]
    case None => [c]
  }

  /** The text between the quotes of `cstrlit(text)`. */
  function EscapeBody(text: string): string {
    if text == [] then [] else EscapeChar(text[0]) + EscapeBody(text[1..])
  }

  /** The literal `cstrlit(text)` produces. */
  function Literal(text: string): string {
    "u8\"" + EscapeBody(text) + "\""
  }

  lemma {:induction false} EscapeBodyAppend(a: string, b: string)
    ensures EscapeBody(a + b) == EscapeBody(a) + EscapeBody(b)
  {
    if a == [] {
      assert a + b == b;
    } else {
      assert (a + b)[0] == a[0];
      assert (a + b)[1..] == a[1..] + b;
      EscapeBodyAppend(a[1..], b);
    }
  }

  /** `cstrlit`: opens with `u8"`, writes each character through the escape
      switch with `push_back`, and closes the quote. */
  method CStrLit(text: string) returns (lit: string)
    ensures lit == Literal(text)
  {
    lit := ['u', '8', '"'];
    for i := 0 to |text|
      invariant lit == "u8\"" + EscapeBody(text[..i])
    {
      var c := text[i];
      if c == BEL { lit := lit + ['\\', 'a']; }
      else if c == BS { lit := lit + ['\\', 'b']; }
      else if c == TAB { lit := lit + ['\\', 't']; }
      else if c == LF { lit := lit + ['\\', 'n']; }
      else if c == VT { lit := lit + ['\\', 'v']; }
      else if c == FF { lit := lit + ['\\', 'f']; }
      else if c == CR { lit := lit + ['\\', 'r']; }
      else if c == '"' || c == '\\' { lit := lit + ['\\', c]; }
      else { lit := lit + [c]; }
      assert EscapeBody([c]) == EscapeChar(c);
      EscapeBodyAppend(text[..i], [c]);
      assert text[..i + 1] == text[..i] + [c];
    }
    assert text[..|text|] == text;
    lit := lit + ['"'];
  }

  // ---------------------------------------------------------------------
  // parse_cstrlit

  /** The character `parse_cstrlit` stores for the escape `\c`: the eight
      control escapes (including `\0`) and otherwise `c` itself. */
  function UnescapeLetter(c: char): char {
    if c == '0' then NUL
    else if c == 'a' then BEL
    else if c == 'b' then BS
    else if c == 't' then TAB
    else if c == 'n' then LF
    else if c == 'v' then VT
    else if c == 'f' then FF
    else if c == 'r' then CR
    else c
  }

  /** What the decoding loop has appended, and whether it ran to the closing
      quote (`complete`) or stopped at a backslash with nothing after it. */
  datatype Unescaped = Unescaped(text: string, complete: bool)

  function Prepend(p: string, u: Unescaped): Unescaped {
    Unescaped(p + u.text, u.complete)
  }

  /** The decoding of the characters between the quotes. */
  function UnescapeBody(b: string): Unescaped {
    if b == [] then Unescaped([], true)
    else if b[0] != '\\' then Prepend([b[0]], UnescapeBody(b[1..]))
    else if |b| == 1 then Unescaped([], false)
    else Prepend([UnescapeLetter(b[1])], UnescapeBody(b[2..]))
  }

  predicate IsQuoted(src: string) {
    |src| >= 2 && src[0] == '"' && src[|src| - 1] == '"'
  }

  /** The text `parse_cstrlit` accepts `src` as, or `None` when it returns false. */
  function ParseLit(src: string): Option<string> {
    if !IsQuoted(src) then None
    else
      var u := UnescapeBody(src[1..|src| - 1]);
      if u.complete then Some(u.text) else None
  }

  /** `parse_cstrlit(dst, src)`: checks the quotes, then decodes the body into
      `dst` with `push_back`. On success `dst` has gained the decoded text; on
      a failure after the quote check it has gained the part decoded before
      the dangling backslash; on a bad quote it is unchanged. */
  method ParseCStrLit(dst: string, src: string) returns (ok: bool, dst': string)
    ensures ok <==> ParseLit(src).Some?
    ensures ok ==> dst' == dst + ParseLit(src).value
    ensures !ok && IsQuoted(src) ==> dst' == dst + UnescapeBody(src[1..|src| - 1]).text
    ensures !IsQuoted(src) ==> dst' == dst
  {
    var n := |src|;
    if n < 2 || src[0] != '"' || src[n - 1] != '"' {
      return false, dst;
    }
    dst' := dst;
    var i := 1;
    while i < n - 1
      invariant 1 <= i <= n - 1
      invariant Prepend(dst', UnescapeBody(src[i..n - 1])) == Prepend(dst, UnescapeBody(src[1..n - 1]))
    {
      var c := src[i];
      if c != '\\' {
        assert src[i..n - 1][1..] == src[i + 1..n - 1];
        dst' := dst' + [c];
      } else {
        i := i + 1;
        if i == n - 1 {
          assert src[i - 1..n - 1] == ['\\'];
          return false, dst';
        }
        assert src[i - 1..n - 1][2..] == src[i + 1..n - 1];
        c := src[i];
        dst' := dst' + [UnescapeLetter(c)];
      }
      i := i + 1;
    }
    assert src[i..n - 1] == [];
    return true, dst';
  }

  // ---------------------------------------------------------------------
  // Properties

  /** A body without backslashes is copied unchanged. */
  lemma {:induction false} UnescapePlain(b: string)
    requires forall i :: 0 <= i < |b| ==> b[i] != '\\'
    ensures UnescapeBody(b) == Unescaped(b, true)
  {
    if b != [] {
      UnescapePlain(b[1..]);
      assert [b[0]] + b[1..] == b;
    }
  }

  /** The number of backslashes that end `b`. */
  function TrailingBackslashes(b: string): nat {
    if |b| > 0 && b[|b| - 1] == '\\' then 1 + TrailingBackslashes(b[..|b| - 1]) else 0
  }

  lemma {:induction false} TrailingAfterNonBackslash(c: char, b: string)
    requires c != '\\'
    ensures TrailingBackslashes([c] + b) == TrailingBackslashes(b)
    decreases |b|
  {
    if |b| > 0 && b[|b| - 1] == '\\' {
      assert ([c] + b)[..|b|] == [c] + b[..|b| - 1];
      TrailingAfterNonBackslash(c, b[..|b| - 1]);
    } else if b == [] {
    } else {
      assert ([c] + b)[|b|] == b[|b| - 1];
    }
  }

  lemma {:induction false} TrailingAfterTwoBackslashes(b: string)
    ensures TrailingBackslashes(['\\', '\\'] + b) % 2 == TrailingBackslashes(b) % 2
    decreases |b|
  {
    var s := ['\\', '\\'] + b;
    if |b| > 0 && b[|b| - 1] == '\\' {
      assert s[..|s| - 1] == ['\\', '\\'] + b[..|b| - 1];
      TrailingAfterTwoBackslashes(b[..|b| - 1]);
    } else if b == [] {
      assert s[..1] == ['\\'];
      assert s[..1][..0] == [];
    } else {
      assert s[|s| - 1] == b[|b| - 1];
    }
  }

  /** `parse_cstrlit` fails inside the body exactly when the body ends with
      an odd number of backslashes, that is when an escaping backslash stands
      directly before the closing quote. */
  lemma {:induction false} UnescapeCompleteIff(b: string)
    ensures UnescapeBody(b).complete <==> TrailingBackslashes(b) % 2 == 0
    decreases |b|
  {
    if b == [] {
    } else if b[0] != '\\' {
      UnescapeCompleteIff(b[1..]);
      assert [b[0]] + b[1..] == b;
      TrailingAfterNonBackslash(b[0], b[1..]);
    } else if |b| == 1 {
      assert b[..0] == [];
    } else {
      UnescapeCompleteIff(b[2..]);
      if b[1] == '\\' {
        assert ['\\', '\\'] + b[2..] == b;
        TrailingAfterTwoBackslashes(b[2..]);
      } else {
        assert [b[1]] + b[2..] == b[1..];
        TrailingAfterNonBackslash(b[1], b[2..]);
        assert ['\\'] + b[1..] == b;
        assert TrailingBackslashes(b) == TrailingBackslashes(b[1..]) by {
          if |b[1..]| > 0 && b[1..][|b[1..]| - 1] == '\\' {
            TrailingBackslashPrefix(b);
          }
        }
      }
    }
  }

  lemma {:induction false} TrailingBackslashPrefix(b: string)
    requires |b| >= 2 && b[0] == '\\' && b[1] != '\\'
    ensures TrailingBackslashes(b) == TrailingBackslashes(b[1..])
    decreases |b|
  {
    if b[|b| - 1] == '\\' {
      assert |b| > 2;
      assert b[1..][..|b| - 2] == b[..|b| - 1][1..];
      TrailingBackslashPrefix(b[..|b| - 1]);
    }
  }

  /** `parse_cstrlit` rejects exactly: inputs shorter than two characters,
      inputs not opening and closing with a quote, and bodies that end in an
      escaping backslash. */
  lemma ParseLitRejects(src: string)
    ensures ParseLit(src).None? <==>
      !IsQuoted(src) || TrailingBackslashes(src[1..|src| - 1]) % 2 == 1
  {
    if IsQuoted(src) {
      UnescapeCompleteIff(src[1..|src| - 1]);
    }
  }

  lemma EscapeLetterRoundTrip(c: char)
    ensures EscapeLetter(c).Some? ==> UnescapeLetter(EscapeLetter(c).value) == c
    ensures EscapeLetter(c).None? ==> c != '\\'
  {
  }

  /** Decoding the escaped body of any text gives the text back: NUL, which
      `cstrlit` leaves raw, is copied through as well. */
  lemma {:induction false} UnescapeEscape(text: string)
    ensures UnescapeBody(EscapeBody(text)) == Unescaped(text, true)
  {
    if text != [] {
      var c := text[0];
      var rest := EscapeBody(text[1..]);
      UnescapeEscape(text[1..]);
      EscapeLetterRoundTrip(c);
      var e := EscapeChar(c) + rest;
      assert EscapeBody(text) == e;
      match EscapeLetter(c)
      case Some(l) =>
        assert e[0] == '\\' && e[1] == l && e[2..] == rest;
      case None =>
        assert e[0] == c && e[1..] == rest;
      assert [c] + text[1..] == text;
    }
  }

  /** The round trip between the two: stripping the `u8` prefix from
      `cstrlit(s)` leaves a literal that `parse_cstrlit` accepts as `s`. */
  lemma LiteralRoundTrip(s: string)
    ensures ParseLit(Literal(s)[2..]) == Some(s)
  {
    var lit := Literal(s)[2..];
    assert lit == "\"" + EscapeBody(s) + "\"";
    assert lit[1..|lit| - 1] == EscapeBody(s);
    UnescapeEscape(s);
  }

  /** `\0` is decoded although `cstrlit` never writes it. */
  lemma NulEscapes()
    ensures EscapeBody([NUL]) == [NUL]
    ensures ParseLit("\"\\0\"") == Some([NUL])
  {
    var body := "\"\\0\""[1..3];
    assert body == "\\0";
    assert body[0] == '\\' && body[1] == '0' && body[2..] == [];
    assert UnescapeBody(body) == Unescaped([NUL], true);
  }
}
