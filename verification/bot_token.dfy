/**
 * Bot tokens at rest: `encryptBotToken` seals a token with AES-GCM under a key
 * derived from a passphrase by PBKDF2, and stores `iv ‖ salt ‖ ciphertext` as
 * base 64; `decryptBotToken` cuts the three parts back out at fixed offsets.
 * The primitives (PBKDF2, AES-GCM, UTF-8) are parameters: only the layout, the
 * derivation parameters and the way the parts flow are modelled.
 */
module BotToken {
  import opened Wrappers
  import opened Base64

  /** Bytes of the AES-GCM nonce, the first part of the envelope. */
  const IvLength: nat := 12
  /** Bytes of the PBKDF2 salt, the second part. */
  const SaltLength: nat := 16
  /** Where the ciphertext starts. */
  const HeaderLength: nat := IvLength + SaltLength

  /** What `deriveKey` asks Web Crypto for. */
  datatype Derivation = Derivation(
    kdf: string,         // key derivation algorithm
    iterations: nat,
    hash: string,
    cipher: string,      // algorithm the derived key is for
    keyBits: nat,
    extractable: bool)

  /** The derivation every key of the module uses. */
  const TokenDerivation: Derivation := Derivation("PBKDF2", 100000, "SHA-256", "AES-GCM", 256, true)

  /** The secret bits of a derived key: a function of the passphrase, the salt and the derivation. */
  datatype Secret = Secret(passphrase: string, salt: seq<byte>, derivation: Derivation)

  /** A `CryptoKey`: the secret and the operations it may be used for. */
  datatype Key = Key(secret: Secret, usages: seq<string>)

  /** `deriveKey(passphrase, salt, usage)`. */
  function DeriveKey(passphrase: string, salt: seq<byte>, usages: seq<string>): (k: Key)
    ensures k.secret.derivation == TokenDerivation
    ensures k.secret.salt == salt && k.secret.passphrase == passphrase && k.usages == usages
  {
    Key(Secret(passphrase, salt, TokenDerivation), usages)
  }

  /**
   * The primitives the module calls: AES-GCM under a secret and a nonce (`open`
   * is None when authentication fails), and the UTF-8 codec of
   * `TextEncoder`/`TextDecoder`.
   */
  datatype Primitives = Primitives(
    seal: (Secret, seq<byte>, seq<byte>) -> seq<byte>,
    open: (Secret, seq<byte>, seq<byte>) -> Option<seq<byte>>,
    encode: string -> seq<byte>,
    decode: seq<byte> -> string)

  /** The byte order mark, U+FEFF. */
  const Bom: char := '\U{FEFF}'

  /**
   * What `new TextDecoder()` makes of the UTF-8 of `s`: with `ignoreBOM` false
   * (the default) one leading byte order mark is consumed, and everything else
   * comes back as it was.
   */
  function StripBom(s: string): string
  {
    if |s| > 0 && s[0] == Bom then s[1..] else s
  }

  /**
   * AES-GCM opens what it sealed under the same secret and nonce, and decoding
   * the UTF-8 encoding of a text gives it back less one leading byte order mark.
   */
  ghost predicate Sound(p: Primitives)
  {
    && (forall k, iv, m :: p.open(k, iv, p.seal(k, iv, m)) == Some(m))
    && (forall s :: p.decode(p.encode(s)) == StripBom(s))
  }

  /** `subtle.encrypt`: a key without the `encrypt` usage is refused. */
  function Encrypt(p: Primitives, key: Key, iv: seq<byte>, plain: seq<byte>): Option<seq<byte>>
  {
    if "encrypt" in key.usages then Some(p.seal(key.secret, iv, plain)) else None
  }

  /** `subtle.decrypt`: a key without the `decrypt` usage, or a failed tag check, is refused. */
  function Decrypt(p: Primitives, key: Key, iv: seq<byte>, sealed: seq<byte>): Option<seq<byte>>
  {
    if "decrypt" in key.usages then p.open(key.secret, iv, sealed) else None
  }

  /** `buf.slice(from, to)` on a byte buffer: both ends are clamped to the length. */
  function Slice(buf: seq<byte>, from: nat, to: nat): (r: seq<byte>)
    ensures from <= to <= |buf| ==> r == buf[from..to]
    ensures from <= |buf| <= to ==> r == buf[from..]
    ensures to <= from || |buf| <= from ==> r == []
  {
    var end := if to <= |buf| then to else |buf|;
    var start := if from <= end then from else end;
    buf[start..end]
  }

  /** The three parts `decryptBotToken` reads from a buffer. */
  datatype Parts = Parts(iv: seq<byte>, salt: seq<byte>, ciphertext: seq<byte>)

  /** `slice(0, 12)`, `slice(12, 28)` and `slice(28)`. */
  function Unpack(buf: seq<byte>): (r: Parts)
    ensures |buf| >= HeaderLength ==>
              |r.iv| == IvLength && |r.salt| == SaltLength && r.iv + r.salt + r.ciphertext == buf
  {
    var r := Parts(Slice(buf, 0, IvLength), Slice(buf, IvLength, HeaderLength), Slice(buf, HeaderLength, |buf|));
    assert |buf| >= HeaderLength ==> r.iv + r.salt + r.ciphertext == buf by {
      if |buf| >= HeaderLength {
        assert buf == buf[..IvLength] + buf[IvLength..HeaderLength] + buf[HeaderLength..];
      }
    }
    r
  }

  /** Cutting a packed buffer at the fixed offsets gives back exactly the parts that were packed. */
  lemma UnpackPacked(iv: seq<byte>, salt: seq<byte>, ciphertext: seq<byte>)
    requires |iv| == IvLength && |salt| == SaltLength
    ensures Unpack(iv + salt + ciphertext) == Parts(iv, salt, ciphertext)
  {
    var buf := iv + salt + ciphertext;
    assert buf[..IvLength] == iv;
    assert buf[IvLength..HeaderLength] == salt;
    assert buf[HeaderLength..] == ciphertext;
  }

  /** `fullBuffer.set(src, offset)` on a typed array. */
  method SetAt(buf: array<byte>, src: seq<byte>, offset: nat)
    requires offset + |src| <= buf.Length
    modifies buf
    ensures buf[..] == old(buf[..offset]) + src + old(buf[offset + |src|..])
  {
    var i := 0;
    while i < |src|
      invariant 0 <= i <= |src|
      invariant buf[..] == old(buf[..offset]) + src[..i] + old(buf[offset + i..])
    {
      buf[offset + i] := src[i];
      assert src[..i + 1] == src[..i] + [src[i]];
      i := i + 1;
    }
  }

  /**
   * The `fullBuffer` of `encryptBotToken`: a zeroed array of the three lengths
   * together, with the IV set at 0, the salt after it and the ciphertext after both.
   */
  method Pack(iv: seq<byte>, salt: seq<byte>, ciphertext: seq<byte>) returns (buf: array<byte>)
    ensures fresh(buf)
    ensures buf[..] == iv + salt + ciphertext
  {
    buf := new byte[|iv| + |salt| + |ciphertext|](_ => 0);
    SetAt(buf, iv, 0);
    SetAt(buf, salt, |iv|);
    assert buf[..|iv| + |salt|] == iv + salt;
    SetAt(buf, ciphertext, |iv| + |salt|);
  }

  /**
   * `decryptBotToken(encrypted, passphrase)`: None where the promise rejects
   * (text that is not base 64, or a failed authentication).
   */
  function DecryptBotToken(p: Primitives, encrypted: string, passphrase: string): (r: Option<string>)
    ensures Base64.Decode(encrypted).None? ==> r.None?
    ensures r.Some? ==> exists plain :: r.value == p.decode(plain)
  {
    match Base64.Decode(encrypted)
    case None => None
    case Some(buf) =>
      var parts := Unpack(buf);
      var key := DeriveKey(passphrase, parts.salt, ["decrypt"]);
      match Decrypt(p, key, parts.iv, parts.ciphertext)
      case None => None
      case Some(plain) => Some(p.decode(plain))
  }

  /**
   * Decrypting an envelope `iv ‖ salt ‖ ciphertext` opens the ciphertext under the
   * nonce and a key derived from the passphrase and that salt, and decodes what
   * opens; it fails exactly when the tag check fails.
   */
  lemma DecryptOfEnvelope(p: Primitives, iv: seq<byte>, salt: seq<byte>, ciphertext: seq<byte>, passphrase: string)
    requires |iv| == IvLength && |salt| == SaltLength
    ensures DecryptBotToken(p, Base64.Encode(iv + salt + ciphertext), passphrase)
         == match p.open(Secret(passphrase, salt, TokenDerivation), iv, ciphertext)
            case None => None
            case Some(plain) => Some(p.decode(plain))
  {
    RoundTrip(iv + salt + ciphertext);
    UnpackPacked(iv, salt, ciphertext);
  }

  /**
   * `encryptBotToken(token, passphrase)` with the random IV and salt given. The
   * text is the base 64 of `iv ‖ salt ‖ ciphertext`, and with sound primitives
   * decrypting it under the same passphrase gives back the token less one leading
   * byte order mark, which `TextDecoder` consumes; a token without one comes back
   * exactly.
   */
  method EncryptBotToken(p: Primitives, token: string, passphrase: string, iv: seq<byte>, salt: seq<byte>)
    returns (encrypted: string)
    requires |iv| == IvLength && |salt| == SaltLength
    ensures encrypted == Base64.Encode(iv + salt + p.seal(Secret(passphrase, salt, TokenDerivation), iv, p.encode(token)))
    ensures Sound(p) ==> DecryptBotToken(p, encrypted, passphrase) == Some(StripBom(token))
    ensures Sound(p) && (|token| == 0 || token[0] != Bom) ==> DecryptBotToken(p, encrypted, passphrase) == Some(token)
  {
    var key := DeriveKey(passphrase, salt, ["encrypt"]);
    var ciphertext := Encrypt(p, key, iv, p.encode(token)).value;
    var buf := Pack(iv, salt, ciphertext);
    encrypted := Base64.Encode(buf[..]);
    RoundTrip(buf[..]);
    UnpackPacked(iv, salt, ciphertext);
  }
}
