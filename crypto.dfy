/**
 * Service-token signature checking: the multicodec prefix of a decoded
 * multibase key picks the curve, and the rest of the key verifies the
 * signature over the signed text.  Multibase decoding, key and signature
 * parsing and ECDSA verification are not modelled: a `Verifier` supplies them.
 */
module Crypto {
  import opened Wrappers
  import opened Ints

  /** The claims of a service token. */
  datatype JwtClaims = JwtClaims(iss: string, aud: string, iat: i32, exp: i32, lxm: string)

  /** The header of a service token. */
  datatype JwtHeader = JwtHeader(typ: string, alg: string)

  datatype Curve = Secp256k1 | P256

  /** Why `validate` fails; `ShortKey` is the case the source does not guard (its slice panics). */
  datatype CryptoError =
    | BadMultibase
    | ShortKey
    | UnknownPrefix(prefix: seq<byte>)
    | BadSignature
    | BadKey
    | VerifyFailed

  /** The libraries `validate` calls; the parsers and the check are those of the curve the key names. */
  datatype Verifier = Verifier(
    multibaseDecode: string -> Option<seq<byte>>,
    signatureParses: (Curve, seq<byte>) -> bool,
    keyParses: (Curve, seq<byte>) -> bool,
    verify: (Curve, seq<byte>, string, seq<byte>) -> bool)

  /** The multicodec prefixes of the two public-key types: secp256k1-pub and p256-pub. */
  function CurveForPrefix(prefix: seq<byte>): (r: Option<Curve>)
    ensures r == Some(Secp256k1) <==> prefix == [0xe7, 0x01]
    ensures r == Some(P256) <==> prefix == [0x80, 0x24]
  {
    if prefix == [0xe7, 0x01] then Some(Secp256k1)
    else if prefix == [0x80, 0x24] then Some(P256)
    else None
  }

  /** The value of a two-byte unsigned varint: seven bits per byte, least significant first. */
  function Varint2(prefix: seq<byte>): nat
    requires |prefix| == 2
  {
    (prefix[0] as int) % 128 + ((prefix[1] as int) % 128) * 128
  }

  /**
   * Matching the two prefix bytes is matching the multicodec code they spell:
   * 0xe7 (secp256k1-pub) and 0x1200 (p256-pub), for every canonical two-byte varint.
   */
  lemma {:induction false} PrefixIsMulticodec(prefix: seq<byte>)
    requires |prefix| == 2 && prefix[0] >= 0x80 && prefix[1] < 0x80 && prefix[1] != 0
    ensures CurveForPrefix(prefix) == Some(Secp256k1) <==> Varint2(prefix) == 0xe7
    ensures CurveForPrefix(prefix) == Some(P256) <==> Varint2(prefix) == 0x1200
  {
    var low: int, high: int := prefix[0] as int - 128, prefix[1] as int;
    assert Varint2(prefix) == low + high * 128;
    if Varint2(prefix) == 0xe7 {
      assert high == 1 && low == 0x67;
      assert prefix == [0xe7, 0x01];
    }
    if Varint2(prefix) == 0x1200 {
      assert high == 0x24 && low == 0;
      assert prefix == [0x80, 0x24];
    }
  }

  /**
   * `validate`: decode the key, pick the curve from its first two bytes, then
   * parse the signature, parse the rest of the key and verify the unchanged text.
   */
  function Validate(v: Verifier, multibaseKey: string, signature: seq<byte>, content: string): (r: Outcome<CryptoError>)
    ensures r.Pass? <==>
      && v.multibaseDecode(multibaseKey).Some?
      && |v.multibaseDecode(multibaseKey).value| >= 2
      && CurveForPrefix(v.multibaseDecode(multibaseKey).value[..2]).Some?
      && var key := v.multibaseDecode(multibaseKey).value;
         var curve := CurveForPrefix(key[..2]).value;
         v.signatureParses(curve, signature) && v.keyParses(curve, key[2..]) && v.verify(curve, key[2..], content, signature)
    ensures r == Fail(ShortKey) <==> v.multibaseDecode(multibaseKey).Some? && |v.multibaseDecode(multibaseKey).value| < 2
  {
    match v.multibaseDecode(multibaseKey)
    case None => Fail(BadMultibase)
    case Some(decoded) =>
      if |decoded| < 2 then Fail(ShortKey)
      else
        match CurveForPrefix(decoded[..2])
        case None => Fail(UnknownPrefix(decoded[..2]))
        case Some(curve) =>
          if !v.signatureParses(curve, signature) then Fail(BadSignature)
          else if !v.keyParses(curve, decoded[2..]) then Fail(BadKey)
          else if !v.verify(curve, decoded[2..], content, signature) then Fail(VerifyFailed)
          else Pass
  }

  /** A key behind the secp256k1 prefix is checked on secp256k1 with the bytes after the prefix. */
  lemma {:induction false} Secp256k1Dispatch(v: Verifier, multibaseKey: string, key: seq<byte>, signature: seq<byte>, content: string)
    requires v.multibaseDecode(multibaseKey) == Some([0xe7, 0x01] + key)
    ensures Validate(v, multibaseKey, signature, content).Pass? <==>
      v.signatureParses(Secp256k1, signature) && v.keyParses(Secp256k1, key) && v.verify(Secp256k1, key, content, signature)
  {
    var decoded := [0xe7, 0x01] + key;
    assert decoded[..2] == [0xe7, 0x01] && decoded[2..] == key;
  }

  /** A key behind the P-256 prefix is checked on P-256 with the bytes after the prefix. */
  lemma {:induction false} P256Dispatch(v: Verifier, multibaseKey: string, key: seq<byte>, signature: seq<byte>, content: string)
    requires v.multibaseDecode(multibaseKey) == Some([0x80, 0x24] + key)
    ensures Validate(v, multibaseKey, signature, content).Pass? <==>
      v.signatureParses(P256, signature) && v.keyParses(P256, key) && v.verify(P256, key, content, signature)
  {
    var decoded := [0x80, 0x24] + key;
    assert decoded[..2] == [0x80, 0x24] && decoded[2..] == key;
  }

  /** Any other prefix is an error naming the prefix, whatever the signature. */
  lemma {:induction false} UnknownPrefixFails(v: Verifier, multibaseKey: string, signature: seq<byte>, content: string)
    requires v.multibaseDecode(multibaseKey).Some?
    requires var decoded := v.multibaseDecode(multibaseKey).value;
      |decoded| >= 2 && decoded[..2] != [0xe7, 0x01] && decoded[..2] != [0x80, 0x24]
    ensures Validate(v, multibaseKey, signature, content) == Fail(UnknownPrefix(v.multibaseDecode(multibaseKey).value[..2]))
  {
  }
}
