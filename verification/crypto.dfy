/**
 * The password-hashing primitive. Salting and one-wayness are abstracted
 * away: a digest is the key material bcrypt's key schedule consumes. That
 * schedule reads the password's UTF-8 bytes followed by one zero byte,
 * cyclically, and stops after 72 bytes, so two passwords with the same
 * 72-byte key stream share a digest.
 */
module Crypto {

  type Byte = b: int | 0 <= b < 0x100

  /** How many key bytes the key schedule reads. */
  const KeyBytes: nat := 72

  /** The UTF-8 encoding of one code point. */
  function Utf8Char(c: char): (b: seq<Byte>)
    ensures 1 <= |b| <= 4
    ensures (c as int < 0x80) <==> |b| == 1
    ensures c as int < 0x80 ==> b == [c as int]
  {
    var n := c as int;
    if n < 0x80 then [n]
    else if n < 0x800 then [0xC0 + n / 0x40, 0x80 + n % 0x40]
    else if n < 0x1_0000 then [0xE0 + n / 0x1000, 0x80 + (n / 0x40) % 0x40, 0x80 + n % 0x40]
    else [0xF0 + n / 0x4_0000, 0x80 + (n / 0x1000) % 0x40, 0x80 + (n / 0x40) % 0x40, 0x80 + n % 0x40]
  }

  /** The UTF-8 encoding of a string, code point by code point. */
  function Utf8(s: string): (b: seq<Byte>)
    ensures |b| >= |s|
    decreases |s|
  {
    if s == [] then [] else Utf8Char(s[0]) + Utf8(s[1..])
  }

  /** Encoding distributes over concatenation. */
  lemma {:induction false} Utf8Append(s: string, t: string)
    ensures Utf8(s + t) == Utf8(s) + Utf8(t)
    decreases |s|
  {
    if s == [] {
      assert s + t == t;
    } else {
      assert (s + t)[1..] == s[1..] + t;
      Utf8Append(s[1..], t);
    }
  }

  /** An ASCII string encodes to one byte per character, each its code. */
  lemma {:induction false} Utf8Ascii(s: string)
    requires forall i :: 0 <= i < |s| ==> s[i] as int < 0x80
    ensures |Utf8(s)| == |s|
    ensures forall i :: 0 <= i < |s| ==> Utf8(s)[i] == s[i] as int
    decreases |s|
  {
    if s != [] {
      Utf8Ascii(s[1..]);
    }
  }

  /** The first `n` bytes of `b` repeated end to end. */
  function Cycle(b: seq<Byte>, n: nat): (r: seq<Byte>)
    requires |b| > 0
    ensures |r| == n
    decreases n
  {
    if n <= |b| then b[..n] else b + Cycle(b, n - |b|)
  }

  /** The 72 bytes the key schedule reads: encoding and terminator, repeated. */
  function Key(p: string): (k: seq<Byte>)
    ensures |k| == KeyBytes
  {
    Cycle(Utf8(p) + [0], KeyBytes)
  }

  datatype Digest = Digest(key: seq<Byte>)

  function Hash(p: string): (d: Digest)
    ensures |d.key| == KeyBytes
  {
    Digest(Key(p))
  }

  /** The comparison primitive: does secret `p` produce digest `d`? */
  predicate Matches(p: string, d: Digest) {
    d == Hash(p)
  }

  /** A password matches another's digest exactly when their key streams agree. */
  lemma MatchesIffSameKey(p: string, q: string)
    ensures Matches(p, Hash(q)) <==> Key(p) == Key(q)
  {
  }

  /** A password whose encoding is at least 72 bytes long is keyed by that prefix alone. */
  lemma {:induction false} LongKey(p: string)
    requires |Utf8(p)| >= KeyBytes
    ensures Key(p) == Utf8(p)[..KeyBytes]
  {
    assert (Utf8(p) + [0])[..KeyBytes] == Utf8(p)[..KeyBytes];
  }

  /** Anything appended after the first 72 bytes is ignored: distinct passwords can share a digest. */
  lemma {:induction false} TruncationCollides(p: string, suffix: string)
    requires |Utf8(p)| >= KeyBytes
    ensures Matches(p + suffix, Hash(p))
  {
    Utf8Append(p, suffix);
    LongKey(p);
    LongKey(p + suffix);
    assert (Utf8(p) + Utf8(suffix))[..KeyBytes] == Utf8(p)[..KeyBytes];
  }

  /** A concrete pair: 72 'a's, and the same followed by 'b'. */
  lemma SeventyTwoBytesCollide()
    ensures var p := seq(KeyBytes, _ => 'a');
            p != p + "b" && Matches(p + "b", Hash(p))
  {
    var p := seq(KeyBytes, _ => 'a');
    Utf8Ascii(p);
    TruncationCollides(p, "b");
  }
}
