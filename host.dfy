/**
 * The runtime primitives the request gate calls but does not define:
 * Node's crypto and Buffer routines, JavaScript number parsing and the
 * form decoder. They are passed in as a record of functions, so every
 * property proved about the gate holds whatever these functions compute,
 * unless a lemma names an extra hypothesis about them.
 *
 * The one primitive modelled concretely is hex encoding of a digest
 * (`digest("hex")`), together with its inverse.
 */
module Host {

  newtype byte = x: int | 0 <= x < 256

  datatype Option<+T> = None | Some(value: T)

  /** The foreign routines used by packages/lambda/src/http.ts. */
  datatype Runtime = Runtime(
    // `Number(s)` followed by `Number.isFinite`: None when the result is NaN or infinite.
    parseTs: string -> Option<int>,
    // HMAC-SHA256 (RFC 2104 over SHA-256) on the key bytes and the message bytes.
    hmacSha256: (seq<byte>, seq<byte>) -> seq<byte>,
    // `Buffer.from(s, "utf8")`.
    utf8: string -> seq<byte>,
    // `Buffer.from(s, "base64").toString("utf8")`; total, never throws.
    base64Decode: string -> string,
    // `new URLSearchParams(body).get(key)`.
    formGet: (string, string) -> Option<string>
  )

  /** Distinct strings have distinct byte encodings (true of UTF-8 over Unicode scalar values). */
  ghost predicate Injective(utf8: string -> seq<byte>)
  {
    forall s, t :: utf8(s) == utf8(t) ==> s == t
  }

  /** The HMAC primitive yields a SHA-256 sized tag: 32 bytes. */
  ghost predicate DigestIsSha256Sized(rt: Runtime)
  {
    forall key, msg :: |rt.hmacSha256(key, msg)| == 32
  }

  predicate IsLowerHexDigit(c: char)
  {
    '0' <= c <= '9' || 'a' <= c <= 'f'
  }

  /** The lower-case hex digit of a nibble. */
  function HexDigit(n: int): (c: char)
    requires 0 <= n < 16
    ensures IsLowerHexDigit(c)
    ensures HexValue(c) == n
  {
    if n < 10 then (48 + n) as char else (97 + n - 10) as char
  }

  /** The nibble a lower-case hex digit stands for. */
  function HexValue(c: char): (n: int)
    requires IsLowerHexDigit(c)
    ensures 0 <= n < 16
  {
    if c <= '9' then c as int - 48 else c as int - 97 + 10
  }

  /** `digest("hex")`: two lower-case hex digits per byte, high nibble first. */
  function Hex(bs: seq<byte>): (s: string)
    ensures |s| == 2 * |bs|
    ensures forall i :: 0 <= i < |s| ==> IsLowerHexDigit(s[i])
  {
    if bs == [] then []
    else [HexDigit(bs[0] as int / 16), HexDigit(bs[0] as int % 16)] + Hex(bs[1..])
  }

  predicate IsLowerHex(s: string)
  {
    |s| % 2 == 0 && forall i :: 0 <= i < |s| ==> IsLowerHexDigit(s[i])
  }

  /** The inverse of Hex on well-formed hex text. */
  function Unhex(s: string): (bs: seq<byte>)
    requires IsLowerHex(s)
    ensures |bs| * 2 == |s|
  {
    if s == [] then []
    else [(HexValue(s[0]) * 16 + HexValue(s[1])) as byte] + Unhex(s[2..])
  }

  /** Decoding the hex text of a digest gives back the digest. */
  lemma {:induction false} UnhexHex(bs: seq<byte>)
    ensures IsLowerHex(Hex(bs)) && Unhex(Hex(bs)) == bs
  {
    if bs != [] {
      var s := Hex(bs);
      assert s[2..] == Hex(bs[1..]);
      UnhexHex(bs[1..]);
      assert HexValue(s[0]) * 16 + HexValue(s[1]) == bs[0] as int;
    }
  }

  /** Encoding well-formed hex text after decoding it gives back the text. */
  lemma {:induction false} HexUnhex(s: string)
    requires IsLowerHex(s)
    ensures Hex(Unhex(s)) == s
  {
    if s != [] {
      var bs := Unhex(s);
      assert IsLowerHex(s[2..]);
      HexUnhex(s[2..]);
      assert bs[1..] == Unhex(s[2..]);
      var v := HexValue(s[0]) * 16 + HexValue(s[1]);
      assert v / 16 == HexValue(s[0]) && v % 16 == HexValue(s[1]);
      assert Hex(bs) == [s[0], s[1]] + s[2..];
    }
  }

  /** Hex encoding loses nothing: distinct digests have distinct hex text. */
  lemma HexInjective(a: seq<byte>, b: seq<byte>)
    requires Hex(a) == Hex(b)
    ensures a == b
  {
    UnhexHex(a);
    UnhexHex(b);
  }
}
