/** The signing half of a private request: the message `nonce + key` and the
    upper-cased hex HMAC-SHA256 over it. The HMAC and its hex encoding are
    external and enter as the parameter `hmacHex`. */
module Signer {
  import opened Wrappers
  import opened Text

  /** HMAC-SHA256 keyed with the secret, rendered as lower-case hex:
      `crypto.createHmac('sha256', secret).update(message).digest('hex')`. */
  type HmacHex = (string, string) -> string

  /** The message that is signed: the decimal text of the nonce followed
      directly by the API key, with no separator. */
  function SigningMessage(nonce: nat, key: string): (m: string)
    ensures |m| > |key| && m[|m| - |key|..] == key
    ensures m[..|m| - |key|] == Decimal(nonce)
    ensures AllDigits(m[..|m| - |key|]) && DigitsValue(m[..|m| - |key|]) == nonce
  {
    DecimalRoundTrip(nonce);
    var m := Decimal(nonce) + key;
    assert m[..|m| - |key|] == Decimal(nonce);
    m
  }

  /** The inverse of `SigningMessage`: the leading digits are read as the
      nonce and the remainder as the key. */
  function ParseSigningMessage(m: string): (r: Option<(nat, string)>)
    ensures r.Some? ==> |r.value.1| == 0 || !IsDigit(r.value.1[0])
  {
    var k := DigitPrefixLength(m);
    if k == 0 then None else Some((DigitsValue(m[..k]), m[k..]))
  }

  /** A key that does not start with a digit can be read back unambiguously
      from the signing message, together with the nonce. */
  lemma SigningMessageRoundTrip(nonce: nat, key: string)
    requires |key| == 0 || !IsDigit(key[0])
    ensures ParseSigningMessage(SigningMessage(nonce, key)) == Some((nonce, key))
  {
    var d := Decimal(nonce);
    DigitPrefixOfConcat(d, key);
    assert (d + key)[..|d|] == d;
    assert (d + key)[|d|..] == key;
    DecimalRoundTrip(nonce);
  }

  /** For one client (one key), two distinct nonces never produce the same
      signing message. */
  lemma DistinctNoncesDistinctMessages(a: nat, b: nat, key: string)
    ensures SigningMessage(a, key) == SigningMessage(b, key) <==> a == b
  {
    if SigningMessage(a, key) == SigningMessage(b, key) {
      var ma := SigningMessage(a, key);
      assert ma[..|ma| - |key|] == Decimal(a);
      assert SigningMessage(b, key)[..|ma| - |key|] == Decimal(b);
      DecimalInjective(a, b);
    }
  }

  /** Without a separator, a key that starts with a digit is ambiguous:
      nonce 12 with key "3k" signs the same text as nonce 123 with key "k". */
  lemma MessageHasNoSeparator()
    ensures SigningMessage(12, "3k") == SigningMessage(123, "k")
  {
    assert Decimal(12) == "12";
    assert Decimal(123) == "123";
  }

  /** The signature: the hex HMAC of the signing message, upper-cased. */
  function Signature(hmacHex: HmacHex, secret: string, nonce: nat, key: string): (sig: string)
    ensures |sig| == |hmacHex(secret, SigningMessage(nonce, key))|
    ensures forall i :: 0 <= i < |sig| ==> sig[i] == UpperChar(hmacHex(secret, SigningMessage(nonce, key))[i])
    ensures forall i :: 0 <= i < |sig| ==> !IsLowerAscii(sig[i])
    ensures IsLowerHex(hmacHex(secret, SigningMessage(nonce, key))) ==> IsUpperHex(sig)
  {
    Upper(hmacHex(secret, SigningMessage(nonce, key)))
  }

  /** The signature is the digest up to letter case: lower-casing a
      signature over a lower-case hex digest gives the digest back. */
  lemma SignatureRecoversDigest(hmacHex: HmacHex, secret: string, nonce: nat, key: string)
    requires IsLowerHex(hmacHex(secret, SigningMessage(nonce, key)))
    ensures Lower(Signature(hmacHex, secret, nonce, key)) == hmacHex(secret, SigningMessage(nonce, key))
  {
    var digest := hmacHex(secret, SigningMessage(nonce, key));
    assert forall i :: 0 <= i < |digest| ==> !IsUpperAscii(digest[i]);
    LowerUndoesUpper(digest);
  }
}
