/**
 * Hex digests and `getSeed`: a seed is the base-16 value of a window of the
 * hint, and a window past the end first grows the hint by appending the
 * digest of the whole hint.
 */
module Digest {

  predicate IsHexDigit(c: char)
  {
    '0' <= c <= '9' || 'a' <= c <= 'f'
  }

  predicate IsHex(s: string)
  {
    forall i :: 0 <= i < |s| ==> IsHexDigit(s[i])
  }

  /** A SHA-1 digest has 160 bits: 40 hex digits. */
  const DigestLength: nat := 40

  /** `digest('hex')` of SHA-1 (FIPS 180-4, section 6.1): 40 lower-case hex
      digits. */
  type Sha1Hex = s: string | |s| == DigestLength && IsHex(s)
    witness "0000000000000000000000000000000000000000"

  /** `getHash`: the digest of a string, left uninterpreted. */
  type Hasher = string -> Sha1Hex

  function DigitValue(c: char): (d: nat)
    requires IsHexDigit(c)
    ensures d < 16
  {
    if c <= '9' then c as int - '0' as int else c as int - 'a' as int + 10
  }

  function HexDigit(d: nat): (c: char)
    requires d < 16
    ensures IsHexDigit(c) && DigitValue(c) == d
  {
    if d < 10 then ('0' as int + d) as char else ('a' as int + d - 10) as char
  }

  function Pow16(n: nat): (p: nat)
    ensures p >= 1
  {
    if n == 0 then 1 else 16 * Pow16(n - 1)
  }

  /** `parseInt(s, 16)` of a string of hex digits. The empty string (for
      which `parseInt` gives NaN) is only the base of the recursion: the
      windows read by `getSeed` are never empty. */
  function HexValue(s: string): (v: nat)
    requires IsHex(s)
    ensures v < Pow16(|s|)
  {
    if s == [] then 0
    else
      var init := s[..|s| - 1];
      assert IsHex(init);
      Digits(HexValue(init), DigitValue(s[|s| - 1]), Pow16(|init|))
  }

  /** One more low digit: `16 * high + low`, below `16 * bound`. */
  function Digits(high: nat, low: nat, bound: nat): (v: nat)
    requires high < bound && low < 16
    ensures v < 16 * bound
  {
    16 * high + low
  }

  /** The `len` low hex digits of `n`, most significant first. */
  function ToHex(n: nat, len: nat): (s: string)
    ensures |s| == len && IsHex(s)
  {
    if len == 0 then [] else ToHex(n / 16, len - 1) + [HexDigit(n % 16)]
  }

  /** Reading back the digits of a number that fits gives the number. */
  lemma {:induction false} HexValueToHex(n: nat, len: nat)
    requires n < Pow16(len)
    ensures HexValue(ToHex(n, len)) == n
  {
    if len > 0 {
      var s := ToHex(n, len);
      assert s[..len - 1] == ToHex(n / 16, len - 1);
      HexValueToHex(n / 16, len - 1);
    }
  }

  /** Writing back the value of a hex string gives the string. */
  lemma {:induction false} ToHexHexValue(s: string)
    requires IsHex(s)
    ensures ToHex(HexValue(s), |s|) == s
  {
    if s != [] {
      var init := s[..|s| - 1];
      var v := HexValue(s);
      assert v / 16 == HexValue(init) && v % 16 == DigitValue(s[|s| - 1]);
      ToHexHexValue(init);
      assert HexDigit(v % 16) == s[|s| - 1];
      assert init + [s[|s| - 1]] == s;
    }
  }

  // ---------------------------------------------------------------------
  // Growing the hint

  /** The hint once it reaches `need` characters: while too short it is
      extended by the digest of itself. */
  function Extended(h: string, need: nat, hash: Hasher): (r: string)
    ensures |r| >= need && h <= r
    ensures |h| >= need ==> r == h
    ensures |h| < need ==> |r| < need + DigestLength
    ensures (|r| - |h|) % DigestLength == 0
    ensures IsHex(h) ==> IsHex(r)
    decreases need - |h|
  {
    if |h| >= need then h else Extended(h + hash(h), need, hash)
  }

  /** Growing to `a` characters and then to `b >= a` is growing to `b`. */
  lemma {:induction false} ExtendedCompose(h: string, a: nat, b: nat, hash: Hasher)
    requires a <= b
    ensures Extended(Extended(h, a, hash), b, hash) == Extended(h, b, hash)
    decreases b - |h|
  {
    if |h| < a {
      ExtendedCompose(h + hash(h), a, b, hash);
    }
  }

  /** Two growths in either order reach the larger target. */
  lemma ExtendedTwice(h: string, a: nat, b: nat, hash: Hasher)
    ensures Extended(Extended(h, a, hash), b, hash) == Extended(h, if a <= b then b else a, hash)
  {
    if a <= b {
      ExtendedCompose(h, a, b, hash);
    }
  }

  /** Growing further only appends: a shorter growth is a prefix of a
      longer one, whichever was asked for first. */
  lemma ExtendedMonotone(h: string, a: nat, b: nat, hash: Hasher)
    requires a <= b
    ensures Extended(h, a, hash) <= Extended(h, b, hash)
  {
    ExtendedCompose(h, a, b, hash);
  }

  /** The seed `getSeed(offset, len)` yields for a hint that starts as `h`. */
  function SeedAt(h: string, offset: nat, len: nat, hash: Hasher): (seed: nat)
    requires IsHex(h)
    ensures seed < Pow16(len)
  {
    var r := Extended(h, offset + len, hash);
    HexValue(r[offset..offset + len])
  }

  /** Earlier growth of the hint never changes a later seed: every window
      reads the same digits whatever windows were read before it. */
  lemma SeedIgnoresEarlierGrowth(h: string, m: nat, offset: nat, len: nat, hash: Hasher)
    requires IsHex(h)
    ensures SeedAt(Extended(h, m, hash), offset, len, hash) == SeedAt(h, offset, len, hash)
  {
    var need := offset + len;
    if m <= need {
      ExtendedCompose(h, m, need, hash);
    } else {
      ExtendedCompose(h, need, m, hash);
      var short := Extended(h, need, hash);
      var long := Extended(h, m, hash);
      assert short[offset..need] == long[offset..need];
    }
  }

  /** Windows inside the hint read its digits directly. */
  lemma SeedInsideHint(h: string, offset: nat, len: nat, hash: Hasher)
    requires IsHex(h) && offset + len <= |h|
    ensures SeedAt(h, offset, len, hash) == HexValue(h[offset..offset + len])
  {
  }

  /** `getSeed(offset, len)`: grows `hint` until the window fits, then reads
      the window as a hex number. */
  method GetSeed(hint: string, offset: nat, len: nat, hash: Hasher)
      returns (seed: nat, grown: string)
    requires IsHex(hint) && 0 < len < 8
    ensures grown == Extended(hint, offset + len, hash)
    ensures offset + len <= |grown| && IsHex(grown)
    ensures seed == HexValue(grown[offset..offset + len]) == SeedAt(hint, offset, len, hash)
    ensures seed < Pow16(len)
  {
    grown := hint;
    while |grown| < offset + len
      invariant IsHex(grown)
      invariant Extended(grown, offset + len, hash) == Extended(hint, offset + len, hash)
      decreases offset + len - |grown|
    {
      grown := grown + hash(grown);
    }
    seed := HexValue(grown[offset..offset + len]);
  }
}
