/** JavaScript strings: sequences of UTF-16 code units, which is what
    `length`, `substring`, `trim`, `includes` and `toLowerCase` see. */
module JsText {
  import opened Wrappers
  import Seqs

  newtype CodeUnit = x: int | 0 <= x < 0x1_0000
  type JsString = seq<CodeUnit>

  /** The UTF-16 encoding of a Unicode text: how a string literal, or a Rust
      `String` passed through the command bridge, appears in JavaScript. */
  function Utf16(s: string): (r: JsString)
    ensures |r| >= |s|
  {
    if s == [] then []
    else
      var c := s[0] as int;
      (if c < 0x1_0000 then [c as CodeUnit]
       else [(0xD800 + (c - 0x1_0000) / 0x400) as CodeUnit,
             (0xDC00 + (c - 0x1_0000) % 0x400) as CodeUnit])
      + Utf16(s[1..])
  }

  predicate IsHighSurrogate(u: CodeUnit) { 0xD800 <= u <= 0xDBFF }
  predicate IsLowSurrogate(u: CodeUnit) { 0xDC00 <= u <= 0xDFFF }

  /** Decoding UTF-16 back to Unicode text, as a string crosses into Rust:
      a surrogate pair becomes one character and a lone surrogate makes the
      text undecodable. */
  function FromUtf16(u: JsString): (r: Option<string>)
    decreases |u|
  {
    if u == [] then Some([])
    else if IsHighSurrogate(u[0]) then
      if |u| >= 2 && IsLowSurrogate(u[1]) then
        var c := 0x1_0000 + (u[0] as int - 0xD800) * 0x400 + (u[1] as int - 0xDC00);
        match FromUtf16(u[2..])
        case None => None
        case Some(rest) => Some([c as char] + rest)
      else None
    else if IsLowSurrogate(u[0]) then None
    else
      match FromUtf16(u[1..])
      case None => None
      case Some(rest) => Some([u[0] as int as char] + rest)
  }

  /** Every Unicode text survives the trip through UTF-16. */
  lemma {:induction false} Utf16RoundTrip(s: string)
    ensures FromUtf16(Utf16(s)) == Some(s)
  {
    if s != [] {
      var c := s[0] as int;
      Utf16RoundTrip(s[1..]);
      var u := Utf16(s);
      if c < 0x1_0000 {
        assert u[1..] == Utf16(s[1..]);
      } else {
        var hi := 0xD800 + (c - 0x1_0000) / 0x400;
        var lo := 0xDC00 + (c - 0x1_0000) % 0x400;
        assert u[0] as int == hi && u[1] as int == lo;
        assert u[2..] == Utf16(s[1..]);
        assert 0x1_0000 + (hi - 0xD800) * 0x400 + (lo - 0xDC00) == c;
      }
      assert s == [s[0]] + s[1..];
    }
  }

  /** Every character is a 7-bit ASCII character. */
  predicate IsAscii(s: string) {
    forall i | 0 <= i < |s| :: s[i] as int < 0x80
  }

  /** On ASCII text the encoding is one code unit per character, with the
      same numeric value. */
  lemma {:induction false} Utf16Ascii(s: string)
    requires IsAscii(s)
    ensures |Utf16(s)| == |s|
    ensures forall i | 0 <= i < |s| :: Utf16(s)[i] as int == s[i] as int
  {
    if s != [] {
      assert IsAscii(s[1..]) by {
        forall i | 0 <= i < |s[1..]| ensures s[1..][i] as int < 0x80 {
          assert s[1..][i] == s[i + 1];
        }
      }
      Utf16Ascii(s[1..]);
    }
  }

  /** Encoding distributes over concatenation. */
  lemma {:induction false} Utf16Append(a: string, b: string)
    ensures Utf16(a + b) == Utf16(a) + Utf16(b)
  {
    if a == [] {
      assert a + b == b;
    } else {
      assert (a + b)[1..] == a[1..] + b;
      Utf16Append(a[1..], b);
    }
  }

  /** A string literal as JavaScript sees it when every character lies in
      the Basic Multilingual Plane: one code unit per character. */
  function Lit(s: string): (r: JsString)
    ensures |r| == |s|
    ensures forall i | 0 <= i < |s| && s[i] as int < 0x1_0000 :: r[i] as int == s[i] as int
  {
    seq(|s|, i requires 0 <= i < |s| => (s[i] as int % 0x1_0000) as CodeUnit)
  }

  /** Text in the Basic Multilingual Plane takes one code unit per
      character. */
  lemma {:induction false} Utf16LengthBmp(s: string)
    requires forall i | 0 <= i < |s| :: s[i] as int < 0x1_0000
    ensures |Utf16(s)| == |s|
  {
    if s != [] {
      assert forall i | 0 <= i < |s[1..]| :: s[1..][i] == s[i + 1];
      Utf16LengthBmp(s[1..]);
    }
  }

  /** An ASCII literal is its own UTF-16 encoding. */
  lemma LitIsUtf16(s: string)
    requires IsAscii(s)
    ensures Lit(s) == Utf16(s)
  {
    Utf16Ascii(s);
  }

  /** The code units `String.prototype.trim` removes: the ECMAScript
      WhiteSpace and LineTerminator code points. */
  predicate IsWhitespace(u: CodeUnit) {
    || 0x09 <= u <= 0x0D   // tab, line feed, vertical tab, form feed, carriage return
    || u == 0x20 || u == 0xA0 || u == 0x1680
    || 0x2000 <= u <= 0x200A
    || u == 0x2028 || u == 0x2029 || u == 0x202F || u == 0x205F
    || u == 0x3000 || u == 0xFEFF
  }

  /** `s.trim()`: the text between the leading and the trailing white
      space, starting with and ending in a non-white-space character. */
  function Trim(s: JsString): (r: JsString)
    ensures Seqs.TrimmedAt(s, r, Seqs.TrimOffset(s, IsWhitespace), IsWhitespace)
    ensures r == [] || (!IsWhitespace(r[0]) && !IsWhitespace(r[|r| - 1]))
  {
    Seqs.Trim(s, IsWhitespace)
  }

  /** Lower-cases the ASCII letters A-Z and leaves every other code unit. */
  function ToLowerUnit(u: CodeUnit): (r: CodeUnit)
    ensures 0x41 <= u <= 0x5A ==> 0x61 <= r <= 0x7A && r - u == 0x20
    ensures !(0x41 <= u <= 0x5A) ==> r == u
  {
    if 0x41 <= u <= 0x5A then u + 0x20 else u
  }

  /** `s.toLowerCase()` restricted to ASCII case mapping. */
  function ToLower(s: JsString): (r: JsString)
    ensures |r| == |s|
    ensures forall i | 0 <= i < |s| :: r[i] == ToLowerUnit(s[i])
  {
    seq(|s|, i requires 0 <= i < |s| => ToLowerUnit(s[i]))
  }

  /** Lower-casing twice is lower-casing once. */
  lemma ToLowerIdempotent(s: JsString)
    ensures ToLower(ToLower(s)) == ToLower(s)
  {
  }
}
