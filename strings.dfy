/**
 * The few operations of Go's `strings` package that the validators use,
 * stated over Dafny strings.  A Go string is a byte sequence and `len`
 * counts bytes, so lengths are taken in UTF-8 bytes (ByteLen), while
 * indexing and the character class work on characters as Go's regexp does.
 */
module Strings {

  /** strings.HasPrefix */
  predicate HasPrefix(s: string, p: string)
  {
    |p| <= |s| && s[..|p|] == p
  }

  /** strings.HasSuffix */
  predicate HasSuffix(s: string, p: string)
  {
    |p| <= |s| && s[|s| - |p|..] == p
  }

  /** strings.TrimSuffix: drops p from the end of s when s ends with p. */
  function TrimSuffix(s: string, p: string): (r: string)
    ensures HasSuffix(s, p) ==> r + p == s
    ensures !HasSuffix(s, p) ==> r == s
  {
    if HasSuffix(s, p) then s[..|s| - |p|] else s
  }

  /** strings.Contains(s, "://") */
  predicate ContainsProtocol(s: string)
  {
    exists i | 0 <= i < |s| - 2 :: s[i] == ':' && s[i + 1] == '/' && s[i + 2] == '/'
  }

  /** strings.Contains(s, [c, c]): two copies of c next to each other. */
  predicate Doubled(s: string, c: char)
  {
    exists i | 0 <= i < |s| - 1 :: s[i] == c && s[i + 1] == c
  }

  predicate IsAscii(c: char)
  {
    c as int < 0x80
  }

  /** Number of bytes UTF-8 uses for c. */
  function Utf8Width(c: char): (n: nat)
    ensures 1 <= n <= 4
    ensures n == 1 <==> IsAscii(c)
  {
    if c as int < 0x80 then 1
    else if c as int < 0x800 then 2
    else if c as int < 0x10000 then 3
    else 4
  }

  /** Go's len(s): the length of s in UTF-8 bytes. */
  function ByteLen(s: string): (n: nat)
  {
    if s == [] then 0 else Utf8Width(s[0]) + ByteLen(s[1..])
  }

  /** Every character takes one to four bytes. */
  lemma {:induction false} ByteLenBounds(s: string)
    ensures |s| <= ByteLen(s) <= 4 * |s|
  {
    if s != [] {
      ByteLenBounds(s[1..]);
    }
  }

  /** The byte length equals the character count exactly when every character is ASCII. */
  lemma {:induction false} ByteLenAscii(s: string)
    ensures ByteLen(s) == |s| <==> forall i | 0 <= i < |s| :: IsAscii(s[i])
  {
    if s != [] {
      ByteLenAscii(s[1..]);
      ByteLenBounds(s[1..]);
      assert forall i | 1 <= i < |s| :: s[i] == s[1..][i - 1];
    }
  }
}
