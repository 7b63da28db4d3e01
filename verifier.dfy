/**
 * Slack request-signature verification (`verifySlackSignature` in
 * packages/lambda/src/http.ts): a replay window on the request timestamp,
 * then an HMAC-SHA256 tag over the canonical base string
 * "v0:" + timestamp + ":" + body, compared byte for byte with the
 * signature header.
 */
module Verifier {
  import opened Host

  /** Requests older or newer than this many seconds are replays: 60 * 5. */
  const ReplayWindowSeconds: int := 60 * 5

  function Abs(x: int): int { if x < 0 then -x else x }

  /** `Math.floor(Date.now() / 1000)`: the clock in whole seconds. */
  function NowSeconds(nowMs: int): (s: int)
    ensures s * 1000 <= nowMs < s * 1000 + 1000
  {
    nowMs / 1000
  }

  /** The timestamp is rejected when it is more than the window away from now, either way. */
  predicate Stale(now: int, ts: int)
  {
    Abs(now - ts) > ReplayWindowSeconds
  }

  /** The string Slack signs, built from the timestamp exactly as it arrived. */
  function BaseString(timestamp: string, body: string): (s: string)
    ensures |s| == 4 + |timestamp| + |body|
    ensures s[..3] == "v0:" && s[3 + |timestamp|] == ':'
    ensures s[3..3 + |timestamp|] == timestamp && s[4 + |timestamp|..] == body
  {
    "v0:" + timestamp + ":" + body
  }

  /** "v0=" followed by the lower-case hex HMAC-SHA256 of the base string, keyed by the secret. */
  function ExpectedSignature(rt: Runtime, signingSecret: string, timestamp: string, body: string): (sig: string)
    ensures |sig| == 3 + 2 * |rt.hmacSha256(rt.utf8(signingSecret), rt.utf8(BaseString(timestamp, body)))|
    ensures sig[..3] == "v0=" && IsLowerHex(sig[3..])
    ensures Unhex(sig[3..]) == rt.hmacSha256(rt.utf8(signingSecret), rt.utf8(BaseString(timestamp, body)))
  {
    var digest := rt.hmacSha256(rt.utf8(signingSecret), rt.utf8(BaseString(timestamp, body)));
    var tag := Hex(digest);
    UnhexHex(digest);
    assert ("v0=" + tag)[3..] == tag;
    "v0=" + tag
  }

  /** The shape of every signature the verifier can accept when HMAC yields 32 bytes. */
  predicate WellFormedSignature(s: string)
  {
    |s| == 67 && s[..3] == "v0=" && IsLowerHex(s[3..])
  }

  /**
   * `verifySlackSignature`: false for an unparsable or stale timestamp, false when the
   * UTF-8 byte lengths of the expected and supplied signatures differ, and otherwise
   * whether their bytes are equal (`timingSafeEqual`). Total: no input makes it fail.
   */
  function VerifySlackSignature(rt: Runtime, signingSecret: string, timestamp: string,
                                body: string, signature: string, nowMs: int): (ok: bool)
    ensures ok <==> && rt.parseTs(timestamp).Some?
                    && !Stale(NowSeconds(nowMs), rt.parseTs(timestamp).value)
                    && rt.utf8(signature) == rt.utf8(ExpectedSignature(rt, signingSecret, timestamp, body))
  {
    var now := NowSeconds(nowMs);
    match rt.parseTs(timestamp)
    case None => false
    case Some(ts) =>
      if Stale(now, ts) then false
      else
        var a := rt.utf8(ExpectedSignature(rt, signingSecret, timestamp, body));
        var b := rt.utf8(signature);
        if |a| != |b| then false
        else a == b
  }

  /** A timestamp that does not parse to a finite number is rejected whatever the other inputs. */
  lemma BadTimestampRejected(rt: Runtime, signingSecret: string, timestamp: string,
                             body: string, signature: string, nowMs: int)
    requires rt.parseTs(timestamp).None?
    ensures !VerifySlackSignature(rt, signingSecret, timestamp, body, signature, nowMs)
  {
  }

  /** A timestamp more than 300 s from now is rejected, even with the correct signature. */
  lemma ReplayRejected(rt: Runtime, signingSecret: string, timestamp: string,
                       body: string, nowMs: int, ts: int)
    requires rt.parseTs(timestamp) == Some(ts)
    requires Abs(NowSeconds(nowMs) - ts) > 300
    ensures !VerifySlackSignature(rt, signingSecret, timestamp, body,
                                  ExpectedSignature(rt, signingSecret, timestamp, body), nowMs)
  {
  }

  /** Inside the window the verifier accepts exactly the expected signature. */
  lemma AcceptsExactlyExpected(rt: Runtime, signingSecret: string, timestamp: string,
                               body: string, signature: string, nowMs: int, ts: int)
    requires Injective(rt.utf8)
    requires rt.parseTs(timestamp) == Some(ts)
    requires Abs(NowSeconds(nowMs) - ts) <= 300
    ensures VerifySlackSignature(rt, signingSecret, timestamp, body, signature, nowMs)
            <==> signature == ExpectedSignature(rt, signingSecret, timestamp, body)
  {
  }

  /** The window is inclusive: a timestamp exactly 300 s away, before or after, is not stale. */
  lemma WindowBoundaryAccepted(rt: Runtime, signingSecret: string, timestamp: string,
                               body: string, nowMs: int)
    requires rt.parseTs(timestamp) == Some(NowSeconds(nowMs) - 300)
             || rt.parseTs(timestamp) == Some(NowSeconds(nowMs) + 300)
    ensures VerifySlackSignature(rt, signingSecret, timestamp, body,
                                 ExpectedSignature(rt, signingSecret, timestamp, body), nowMs)
  {
  }

  /** A signature whose byte length differs from the expected one is rejected. */
  lemma LengthMismatchRejected(rt: Runtime, signingSecret: string, timestamp: string,
                               body: string, signature: string, nowMs: int)
    requires |rt.utf8(signature)| != |rt.utf8(ExpectedSignature(rt, signingSecret, timestamp, body))|
    ensures !VerifySlackSignature(rt, signingSecret, timestamp, body, signature, nowMs)
  {
  }

  /** With a 32-byte HMAC, only "v0=" followed by 64 lower-case hex digits can be accepted. */
  lemma MalformedSignatureRejected(rt: Runtime, signingSecret: string, timestamp: string,
                                   body: string, signature: string, nowMs: int)
    requires Injective(rt.utf8) && DigestIsSha256Sized(rt)
    requires !WellFormedSignature(signature)
    ensures !VerifySlackSignature(rt, signingSecret, timestamp, body, signature, nowMs)
  {
  }

  /** "v0=invalidsignature", the shape a forged header takes, is never accepted. */
  lemma InvalidSignatureRejected(rt: Runtime, signingSecret: string, timestamp: string,
                                 body: string, nowMs: int)
    requires Injective(rt.utf8)
    ensures !VerifySlackSignature(rt, signingSecret, timestamp, body, "v0=invalidsignature", nowMs)
  {
  }

  /**
   * An accepted signature is "v0=" followed by lower-case hex that decodes to the
   * HMAC-SHA256 tag of the base string under the signing secret.
   */
  lemma AcceptedSignatureCarriesTag(rt: Runtime, signingSecret: string, timestamp: string,
                                    body: string, signature: string, nowMs: int)
    requires Injective(rt.utf8)
    requires VerifySlackSignature(rt, signingSecret, timestamp, body, signature, nowMs)
    ensures |signature| >= 3 && signature[..3] == "v0=" && IsLowerHex(signature[3..])
    ensures Unhex(signature[3..]) == rt.hmacSha256(rt.utf8(signingSecret), rt.utf8(BaseString(timestamp, body)))
  {
  }

  /** Changing any one character of a correct signature makes it fail. */
  lemma SingleCharFlipRejected(rt: Runtime, signingSecret: string, timestamp: string,
                               body: string, nowMs: int, i: int, c: char)
    requires Injective(rt.utf8)
    requires 0 <= i < |ExpectedSignature(rt, signingSecret, timestamp, body)|
    requires c != ExpectedSignature(rt, signingSecret, timestamp, body)[i]
    ensures !VerifySlackSignature(rt, signingSecret, timestamp, body,
                                  ExpectedSignature(rt, signingSecret, timestamp, body)[i := c], nowMs)
  {
  }

  /**
   * The base string is canonical: for timestamps without a colon, it determines both
   * the timestamp text and the body, so a signature over one (timestamp, body) pair
   * never validates another.
   */
  lemma BaseStringInjective(t1: string, b1: string, t2: string, b2: string)
    requires ':' !in t1 && ':' !in t2
    requires BaseString(t1, b1) == BaseString(t2, b2)
    ensures t1 == t2 && b1 == b2
  {
  }
}
