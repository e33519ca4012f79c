/** Rust strings: a `String` is a sequence of Unicode scalar values stored as
    UTF-8, so `len()` counts bytes and `&s[..n]` slices at a byte offset. */
module RustText {
  import opened Wrappers
  import Seqs

  /** Why a byte-offset slice `&s[..n]` panics. */
  datatype Panic = OutOfBounds | NotCharBoundary

  /** Number of bytes in the UTF-8 encoding of `c`. */
  function Utf8Len(c: char): (n: nat)
    ensures 1 <= n <= 4
    ensures n == 1 <==> c as int < 0x80
  {
    if c as int < 0x80 then 1
    else if c as int < 0x800 then 2
    else if c as int < 0x1_0000 then 3
    else 4
  }

  /** `s.len()`: the length of `s` in UTF-8 bytes. */
  function ByteLen(s: string): (n: nat)
    ensures n >= |s|
  {
    if s == [] then 0 else Utf8Len(s[0]) + ByteLen(s[1..])
  }

  /** Byte length adds up over concatenation. */
  lemma {:induction false} ByteLenAppend(a: string, b: string)
    ensures ByteLen(a + b) == ByteLen(a) + ByteLen(b)
  {
    if a == [] {
      assert a + b == b;
    } else {
      assert (a + b)[1..] == a[1..] + b;
      ByteLenAppend(a[1..], b);
    }
  }

  /** On ASCII text, bytes and characters coincide. */
  lemma {:induction false} ByteLenAscii(s: string)
    requires forall i | 0 <= i < |s| :: s[i] as int < 0x80
    ensures ByteLen(s) == |s|
  {
    if s != [] {
      assert forall i | 0 <= i < |s[1..]| :: s[1..][i] == s[i + 1];
      ByteLenAscii(s[1..]);
    }
  }

  /** A longer prefix never has fewer bytes; a strictly longer one has more. */
  lemma {:induction false} ByteLenPrefixMonotone(s: string, j: nat, k: nat)
    requires j <= k <= |s|
    ensures ByteLen(s[..j]) + (k - j) <= ByteLen(s[..k])
  {
    assert s[..k] == s[..j] + s[j..k];
    ByteLenAppend(s[..j], s[j..k]);
  }

  /** Byte offset `n` falls between two characters of `s` (or at either end),
      as Rust's `str::is_char_boundary`. */
  ghost predicate IsCharBoundary(s: string, n: int) {
    exists k | 0 <= k <= |s| :: ByteLen(s[..k]) == n
  }

  /** `&s[..n]`: the prefix of `s` that is `n` bytes long, or the panic Rust
      raises when `n` is past the end or inside a character. */
  function SliceTo(s: string, n: nat): (r: Result<string, Panic>)
    ensures r.Ok? ==> |r.value| <= |s| && r.value == s[..|r.value|] && ByteLen(r.value) == n
    ensures r == Err(OutOfBounds) <==> n > ByteLen(s)
  {
    if n == 0 then Ok([])
    else if s == [] then Err(OutOfBounds)
    else if Utf8Len(s[0]) <= n then
      match SliceTo(s[1..], n - Utf8Len(s[0]))
      case Ok(t) => Ok([s[0]] + t)
      case Err(e) => Err(e)
    else if n > ByteLen(s) then Err(OutOfBounds)
    else Err(NotCharBoundary)
  }

  /** The slice succeeds exactly at character boundaries. */
  lemma {:induction false} SliceToOkIffBoundary(s: string, n: nat)
    ensures SliceTo(s, n).Ok? <==> IsCharBoundary(s, n)
  {
    if SliceTo(s, n).Ok? {
      var k := |SliceTo(s, n).value|;
      assert s[..k] == SliceTo(s, n).value;
    } else if IsCharBoundary(s, n) {
      var k :| 0 <= k <= |s| && ByteLen(s[..k]) == n;
      NoBoundaryWhenSliceFails(s, n, k);
    }
  }

  /** Helper for `SliceToOkIffBoundary`: when the slice fails, no prefix of
      `s` is `n` bytes long. */
  lemma {:induction false} NoBoundaryWhenSliceFails(s: string, n: nat, k: nat)
    requires SliceTo(s, n).Err?
    requires k <= |s|
    ensures ByteLen(s[..k]) != n
  {
    if k == 0 {
      assert s[..0] == [];
    } else {
      assert s != [] && n != 0;
      assert s[..k][1..] == s[1..][..k - 1];
      if Utf8Len(s[0]) <= n {
        NoBoundaryWhenSliceFails(s[1..], n - Utf8Len(s[0]), k - 1);
      }
    }
  }

  /** The characters Rust's `char::is_whitespace` accepts (Unicode
      White_Space). */
  predicate IsWhitespace(c: char) {
    || 0x09 <= c as int <= 0x0D
    || c as int == 0x20 || c as int == 0x85 || c as int == 0xA0 || c as int == 0x1680
    || 0x2000 <= c as int <= 0x200A
    || c as int == 0x2028 || c as int == 0x2029 || c as int == 0x202F || c as int == 0x205F
    || c as int == 0x3000
  }

  /** `s.trim()`: the text between the leading and the trailing white
      space, starting with and ending in a non-white-space character. */
  function Trim(s: string): (r: string)
    ensures Seqs.TrimmedAt(s, r, Seqs.TrimOffset(s, IsWhitespace), IsWhitespace)
    ensures r == [] || (!IsWhitespace(r[0]) && !IsWhitespace(r[|r| - 1]))
  {
    Seqs.Trim(s, IsWhitespace)
  }
}
