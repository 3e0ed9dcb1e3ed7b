/**
 * Naming of baseline files. A check's baseline lives under
 * `<prefix><digest of the URL in lower-case hex>`, where the prefix is the
 * configured one or `.last-` when none is configured (src/main.rs:73-74).
 * The digest itself (MD5) is not modelled: it is any deterministic function
 * from the URL to bytes, passed in as `digest`.
 */
module CacheKey {
  import opened Wrappers

  newtype byte = b: int | 0 <= b < 256

  /** A message digest, such as MD5, as a deterministic function of the URL. */
  type DigestFn = string -> seq<byte>

  /** The prefix used when the configuration names none. */
  const DefaultPrefix: string := ".last-"

  /** The lower-case hexadecimal digit for a nibble. */
  function HexDigit(n: int): (c: char)
    requires 0 <= n < 16
    ensures DigitValue(c) == Some(n)
  {
    if n < 10 then (48 + n) as char else (87 + n) as char
  }

  /** The nibble a lower-case hexadecimal digit stands for; anything else is not a digit. */
  function DigitValue(c: char): (v: Option<int>)
    ensures v.Some? ==> 0 <= v.value < 16
    ensures v.Some? <==> ('0' <= c <= '9' || 'a' <= c <= 'f')
  {
    if '0' <= c <= '9' then Some(c as int - 48)
    else if 'a' <= c <= 'f' then Some(c as int - 87)
    else None
  }

  /** One byte as `{:02x}` writes it: high nibble first, always two digits. */
  function HexByte(b: byte): (s: string)
    ensures |s| == 2
  {
    [HexDigit((b / 16) as int), HexDigit((b % 16) as int)]
  }

  /** A digest as `{:x}` writes it: its bytes in order, two digits each. */
  function Hex(d: seq<byte>): (s: string)
    ensures |s| == 2 * |d|
  {
    if d == [] then "" else HexByte(d[0]) + Hex(d[1..])
  }

  /** What Hex writes consists of lower-case hexadecimal digits only. */
  lemma {:induction false} HexIsDigits(d: seq<byte>)
    ensures forall k :: 0 <= k < |Hex(d)| ==> DigitValue(Hex(d)[k]).Some?
  {
    if d != [] {
      HexIsDigits(d[1..]);
      var s := Hex(d);
      assert s == HexByte(d[0]) + Hex(d[1..]);
      forall k | 2 <= k < |s| ensures s[k] == Hex(d[1..])[k - 2] { }
    }
  }

  /** Reads lower-case hex back into bytes; fails on an odd length or a non-digit. */
  function HexDecode(s: string): (r: Option<seq<byte>>)
    ensures r.Some? ==> 2 * |r.value| == |s|
    decreases |s|
  {
    if s == [] then Some([])
    else if |s| == 1 then None
    else
      match (DigitValue(s[0]), DigitValue(s[1]), HexDecode(s[2..]))
      case (Some(hi), Some(lo), Some(rest)) => Some([(hi * 16 + lo) as byte] + rest)
      case _ => None
  }

  /** Hex loses nothing: decoding what it writes gives the digest back. */
  lemma {:induction false} HexRoundTrip(d: seq<byte>)
    ensures HexDecode(Hex(d)) == Some(d)
  {
    if d != [] {
      var s := Hex(d);
      var b := d[0] as int;
      assert s == HexByte(d[0]) + Hex(d[1..]);
      assert s[0] == HexDigit(b / 16) && s[1] == HexDigit(b % 16);
      assert s[2..] == Hex(d[1..]);
      HexRoundTrip(d[1..]);
      assert (b / 16) * 16 + b % 16 == b;
      assert [d[0]] + d[1..] == d;
    }
  }

  /** The prefix in force: the configured one, or `.last-`. */
  function EffectivePrefix(configured: Option<string>): (p: string)
    ensures configured.None? ==> p == DefaultPrefix
    ensures configured.Some? ==> p == configured.value
  {
    match configured
    case Some(p) => p
    case None => DefaultPrefix
  }

  /**
   * `format!("{}{:x}", prefix, digest)`: the baseline file name for a URL,
   * the prefix in force followed by two hex digits per digest byte.
   */
  function ContentFilename(configured: Option<string>, digest: DigestFn, url: string): (name: string)
    ensures |name| == |EffectivePrefix(configured)| + 2 * |digest(url)|
    ensures name[..|EffectivePrefix(configured)|] == EffectivePrefix(configured)
  {
    EffectivePrefix(configured) + Hex(digest(url))
  }

  /** The digest can be read back from the part of the file name after the prefix. */
  lemma FilenameDecodes(configured: Option<string>, digest: DigestFn, url: string)
    ensures var p := EffectivePrefix(configured);
            HexDecode(ContentFilename(configured, digest, url)[|p|..]) == Some(digest(url))
  {
    var p := EffectivePrefix(configured);
    assert ContentFilename(configured, digest, url)[|p|..] == Hex(digest(url));
    HexRoundTrip(digest(url));
  }

  /**
   * Under one prefix setting, two URLs share a baseline file exactly when
   * their digests are equal; nothing else about a check enters the name.
   */
  lemma FilenameIdentifiesDigest(configured: Option<string>, digest: DigestFn, u1: string, u2: string)
    ensures ContentFilename(configured, digest, u1) == ContentFilename(configured, digest, u2)
            <==> digest(u1) == digest(u2)
  {
    var p := EffectivePrefix(configured);
    var n1, n2 := ContentFilename(configured, digest, u1), ContentFilename(configured, digest, u2);
    if n1 == n2 {
      FilenameDecodes(configured, digest, u1);
      FilenameDecodes(configured, digest, u2);
      assert n1[|p|..] == n2[|p|..];
    }
  }
}
