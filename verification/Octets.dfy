/** Octets, kept as characters below 256, and little-endian numbers in them. */
module Octets {

  type U8 = n: nat | n < 0x100
  type U16 = n: nat | n < 0x1_0000
  type U32 = n: nat | n < 0x1_0000_0000

  function Zeros(n: nat): (s: string)
    ensures |s| == n && forall i :: 0 <= i < n ==> s[i] == '\0'
  {
    seq(n, _ => '\0')
  }

  function Cut(s: string, n: nat): (r: string)
    ensures |r| <= n
  {
    if |s| > n then s[..n] else s
  }

  /** A field of fixed width, cut or filled with NUL. */
  function Padded(s: string, n: nat): (r: string)
    ensures |r| == n
  {
    Cut(s, n) + Zeros(n - |Cut(s, n)|)
  }

  function Octet(n: U8): (s: string)
    ensures |s| == 1
  {
    [n as char]
  }

  function FromOctet(c: char): U8 {
    c as int % 256
  }

  function Le16(n: U16): (s: string)
    ensures |s| == 2
  {
    [(n % 256) as char, (n / 256) as char]
  }

  function FromLe16(s: string): U16
    requires |s| == 2
  {
    s[0] as int % 256 + 256 * (s[1] as int % 256)
  }

  /** A word of 16 bits at its place, with the low octet first. */
  predicate HasWord(s: string, i: nat, n: int) {
    i + 2 <= |s| && s[i] as int == n % 0x1_0000 % 256 && s[i + 1] as int == n % 0x1_0000 / 256
  }

  lemma WordOctets(s: string, i: nat, n: int)
    requires i + 2 <= |s| && s[i..i + 2] == Le16(n % 0x1_0000)
    ensures HasWord(s, i, n)
  {
    assert s[i] == s[i..i + 2][0] && s[i + 1] == s[i..i + 2][1];
  }

  function Le32(n: U32): (s: string)
    ensures |s| == 4
  {
    Le16(n % 0x1_0000) + Le16(n / 0x1_0000)
  }

  function FromLe32(s: string): U32
    requires |s| == 4
  {
    FromLe16(s[..2]) + 0x1_0000 * FromLe16(s[2..])
  }

  lemma Le16RoundTrip(n: U16)
    ensures FromLe16(Le16(n)) == n
  {
  }

  lemma Le32RoundTrip(n: U32)
    ensures FromLe32(Le32(n)) == n
  {
    hide Le16, FromLe16;
    assert Le32(n)[..2] == Le16(n % 0x1_0000) && Le32(n)[2..] == Le16(n / 0x1_0000);
    Le16RoundTrip(n % 0x1_0000);
    Le16RoundTrip(n / 0x1_0000);
  }

  lemma SliceLeft(a: string, b: string, i: nat, j: nat)
    requires i <= j <= |a|
    ensures (a + b)[i..j] == a[i..j]
  {
  }

  lemma SliceRight(a: string, b: string, i: nat, j: nat)
    requires i <= j <= |b|
    ensures (a + b)[|a| + i..|a| + j] == b[i..j]
  {
  }

  /** `copy(dst[lo:], t)` */
  method Place(dst: array<char>, lo: nat, t: string)
    requires lo + |t| <= dst.Length
    modifies dst
    ensures dst[..] == old(dst[..lo]) + t + old(dst[lo + |t|..])
    ensures dst[..lo + |t|] == old(dst[..lo]) + t
    ensures dst[lo + |t|..] == old(dst[lo + |t|..])
  {
    for i := 0 to |t|
      invariant dst[..lo] == old(dst[..lo]) && dst[lo + |t|..] == old(dst[lo + |t|..])
      invariant dst[lo..lo + i] == t[..i]
    {
      dst[lo + i] := t[i];
    }
    assert dst[..] == dst[..lo] + dst[lo..lo + |t|] + dst[lo + |t|..];
    assert dst[..lo + |t|] == dst[..lo] + dst[lo..lo + |t|];
  }
}
