/** The sealed-credential envelope: printed and parsed for real, over an
    idealised authenticated cipher. */
module Credentials {
  import opened Wrappers

  type Byte = b: nat | b < 256
  type Bytes = seq<Byte>

  // ---------- base64url, section 5 of RFC 4648, without padding ----------

  type Digit = d: nat | d < 64

  function CharOf(d: Digit): (c: char)
    ensures DigitOf(c) == Some(d) && c != ':'
  {
    if d < 26 then 'A' + d as char
    else if d < 52 then 'a' + (d - 26) as char
    else if d < 62 then '0' + (d - 52) as char
    else if d == 62 then '-' else '_'
  }

  function DigitOf(c: char): Option<Digit> {
    if 'A' <= c <= 'Z' then Some((c - 'A') as nat)
    else if 'a' <= c <= 'z' then Some((c - 'a') as nat + 26)
    else if '0' <= c <= '9' then Some((c - '0') as nat + 52)
    else if c == '-' then Some(62)
    else if c == '_' then Some(63)
    else None
  }

  function First(a: Byte): Digit {
    a / 4
  }

  function Second(a: Byte, b: Byte): Digit {
    (a % 4) * 16 + b / 16
  }

  function Third(b: Byte, c: Byte): Digit {
    (b % 16) * 4 + c / 64
  }

  function Fourth(c: Byte): Digit {
    c % 64
  }

  /** Three bytes to four digits; one or two bytes at the end to two or three. */
  function ToDigits(bytes: Bytes): seq<Digit> {
    if |bytes| == 0 then []
    else if |bytes| == 1 then [First(bytes[0]), Second(bytes[0], 0)]
    else if |bytes| == 2 then [First(bytes[0]), Second(bytes[0], bytes[1]), Third(bytes[1], 0)]
    else
      [First(bytes[0]), Second(bytes[0], bytes[1]), Third(bytes[1], bytes[2]), Fourth(bytes[2])] + ToDigits(bytes[3..])
  }

  function Printed(ds: seq<Digit>): string {
    seq(|ds|, i requires 0 <= i < |ds| => CharOf(ds[i]))
  }

  function Encode(bytes: Bytes): string {
    Printed(ToDigits(bytes))
  }

  function Digits(text: string): Option<seq<Digit>> {
    if text == "" then Some([])
    else
      var rest := Digits(text[1..]);
      var first := DigitOf(text[0]);
      if first.Some? && rest.Some? then Some([first.value] + rest.value) else None
  }

  function ByteOne(d: Digit, e: Digit): Byte {
    d * 4 + e / 16
  }

  function ByteTwo(e: Digit, f: Digit): Byte {
    (e % 16) * 16 + f / 4
  }

  function ByteThree(f: Digit, g: Digit): Byte {
    (f % 4) * 64 + g
  }

  function FromDigits(ds: seq<Digit>): Option<Bytes> {
    if |ds| == 0 then Some([])
    else if |ds| == 1 then None
    else if |ds| == 2 then Some([ByteOne(ds[0], ds[1])])
    else if |ds| == 3 then Some([ByteOne(ds[0], ds[1]), ByteTwo(ds[1], ds[2])])
    else
      var rest := FromDigits(ds[4..]);
      if rest.None? then None
      else Some([ByteOne(ds[0], ds[1]), ByteTwo(ds[1], ds[2]), ByteThree(ds[2], ds[3])] + rest.value)
  }

  /** `None` for text that is not base64url. */
  function Decode(text: string): Option<Bytes> {
    var ds := Digits(text);
    if ds.None? then None else FromDigits(ds.value)
  }

  lemma {:induction false} DigitsOfPrinted(ds: seq<Digit>)
    ensures Digits(Printed(ds)) == Some(ds)
  {
    if ds != [] {
      DigitsOfPrinted(ds[1..]);
      assert Printed(ds)[1..] == Printed(ds[1..]);
      assert [ds[0]] + ds[1..] == ds;
    } else {
      assert Printed(ds) == "";
    }
  }

  /** The alphabet is the standard's, and four digits stand for the number three bytes do. */
  lemma AsTheStandardSays(d: Digit, a: Byte, b: Byte, c: Byte)
    ensures CharOf(0) == 'A' && CharOf(25) == 'Z' && CharOf(26) == 'a' && CharOf(51) == 'z'
    ensures CharOf(52) == '0' && CharOf(61) == '9' && CharOf(62) == '-' && CharOf(63) == '_'
    ensures d !in {25, 51, 61, 62, 63} ==> CharOf(d + 1) as int == CharOf(d) as int + 1
    ensures First(a) * 0x4_0000 + Second(a, b) * 0x1000 + Third(b, c) * 0x40 + Fourth(c) == a * 0x1_0000 + b * 0x100 + c
  {
  }

  lemma ThreeBytes(a: Byte, b: Byte, c: Byte)
    ensures ByteOne(First(a), Second(a, b)) == a
    ensures ByteTwo(Second(a, b), Third(b, c)) == b
    ensures ByteThree(Third(b, c), Fourth(c)) == c
  {
  }

  lemma {:induction false} DigitsRoundTrip(bytes: Bytes)
    ensures FromDigits(ToDigits(bytes)) == Some(bytes)
  {
    hide First; hide Second; hide Third; hide Fourth; hide ByteOne; hide ByteTwo; hide ByteThree;
    if |bytes| == 1 {
      ThreeBytes(bytes[0], 0, 0);
      assert bytes == [bytes[0]];
    } else if |bytes| == 2 {
      ThreeBytes(bytes[0], bytes[1], 0);
      assert bytes == [bytes[0], bytes[1]];
    } else if |bytes| >= 3 {
      var ds := ToDigits(bytes);
      assert ds[4..] == ToDigits(bytes[3..]);
      ThreeBytes(bytes[0], bytes[1], bytes[2]);
      DigitsRoundTrip(bytes[3..]);
      assert bytes == [bytes[0], bytes[1], bytes[2]] + bytes[3..];
    }
  }

  lemma DecodeEncode(bytes: Bytes)
    ensures Decode(Encode(bytes)) == Some(bytes)
  {
    DigitsOfPrinted(ToDigits(bytes));
    DigitsRoundTrip(bytes);
  }

  predicate NoColon(s: string) {
    ':' !in s
  }

  lemma EncodeHasNoColon(bytes: Bytes)
    ensures NoColon(Encode(bytes))
  {
    hide ToDigits;
  }

  // ---------- Segments ----------

  function Join(segments: seq<string>): string
    requires segments != []
  {
    if |segments| == 1 then segments[0] else segments[0] + ":" + Join(segments[1..])
  }

  function Split(s: string): (segments: seq<string>)
    ensures segments != []
  {
    if s == "" then [""]
    else
      var rest := Split(s[1..]);
      if s[0] == ':' then [""] + rest else [[s[0]] + rest[0]] + rest[1..]
  }

  lemma {:induction false} SplitAtColon(head: string, tail: string)
    requires NoColon(head)
    ensures Split(head + ":" + tail) == [head] + Split(tail)
  {
    var s := head + ":" + tail;
    if head == "" {
      assert s[1..] == tail;
    } else {
      SplitAtColon(head[1..], tail);
      assert s[0] == head[0] && s[0] in head && s[1..] == head[1..] + ":" + tail;
      assert [head[0]] + head[1..] == head;
    }
  }

  lemma {:induction false} SplitWithoutColon(s: string)
    requires NoColon(s)
    ensures Split(s) == [s]
  {
    if s != "" {
      SplitWithoutColon(s[1..]);
      assert s[0] in s && [s[0]] + s[1..] == s;
    }
  }

  lemma {:induction false} SplitJoin(segments: seq<string>)
    requires segments != [] && forall s | s in segments :: NoColon(s)
    ensures Split(Join(segments)) == segments
  {
    if |segments| == 1 {
      SplitWithoutColon(segments[0]);
    } else {
      SplitJoin(segments[1..]);
      SplitAtColon(segments[0], Join(segments[1..]));
    }
  }

  /** Splitting loses nothing and leaves no colon, so it finds the only segments
      that join to the text. */
  lemma {:induction false} JoinSplit(s: string)
    ensures Join(Split(s)) == s && forall segment | segment in Split(s) :: NoColon(segment)
  {
    if s != "" {
      JoinSplit(s[1..]);
      var rest := Split(s[1..]);
      if s[0] == ':' {
        assert ([""] + rest)[1..] == rest;
        assert Join(Split(s)) == "" + ":" + Join(rest);
      } else {
        var grown := [[s[0]] + rest[0]] + rest[1..];
        assert grown[1..] == rest[1..];
        assert rest[0] in rest && forall segment | segment in rest[1..] :: segment in rest;
        assert Join(grown) == [s[0]] + Join(rest);
      }
    }
  }

  // ---------- The envelope ----------

  const ENVELOPE_VERSION := "ccv1"
  const KEY_ID_LENGTH: nat := 8
  const MIN_SECRET_LENGTH: nat := 32
  const KEY_BYTES: nat := 32

  /** The primitives, uninterpreted. */
  datatype Crypto = Crypto(
    sha256: Bytes -> Bytes,
    utf8: string -> Bytes,
    fromUtf8: Bytes -> string,
    encrypt: (Bytes, Bytes, Bytes, Bytes) -> (Bytes, Bytes),
    decrypt: (Bytes, Bytes, Bytes, Bytes, Bytes) -> Option<Bytes>)

  /** An idealised cipher opens what it sealed under the same key, nonce and
      associated data, and nothing of it under another key or other data. */
  ghost predicate Ideal(c: Crypto) {
    && (forall x :: |c.sha256(x)| == KEY_BYTES)
    && (forall s :: c.fromUtf8(c.utf8(s)) == s)
    && (forall key, iv, aad, plain, otherKey, otherAad | |key| == KEY_BYTES && |otherKey| == KEY_BYTES ::
          c.decrypt(otherKey, iv, otherAad, c.encrypt(key, iv, aad, plain).0, c.encrypt(key, iv, aad, plain).1)
            == if otherKey == key && otherAad == aad then Some(plain) else None)
  }

  datatype Keyring = Keyring(currentSecret: string, previousSecret: Option<string>)

  datatype Binding = Binding(platform: string, externalId: string)

  datatype CredentialError = ShortSecret | NotAnEnvelope | UnknownKey | FailedAuthentication

  datatype Result<T> = Ok(value: T) | Err(error: CredentialError)

  datatype DerivedKey = DerivedKey(key: Bytes, keyId: string)

  predicate Derivable(secret: string) {
    |secret| >= MIN_SECRET_LENGTH
  }

  function Take(s: string, n: nat): string {
    if |s| <= n then s else s[..n]
  }

  function DeriveKey(c: Crypto, secret: string): DerivedKey {
    var key := c.sha256(c.utf8(secret));
    DerivedKey(key, Take(Encode(c.sha256(key)), KEY_ID_LENGTH))
  }

  function AdditionalData(c: Crypto, b: Binding): Bytes {
    c.utf8(b.platform + ":" + b.externalId)
  }

  function Seal(c: Crypto, keyring: Keyring, binding: Binding, plaintext: string, iv: Bytes): Result<string> {
    if !Derivable(keyring.currentSecret) then Err(ShortSecret)
    else
      var derived := DeriveKey(c, keyring.currentSecret);
      var (ciphertext, tag) := c.encrypt(derived.key, iv, AdditionalData(c, binding), c.utf8(plaintext));
      Ok(Join([ENVELOPE_VERSION, derived.keyId, Encode(iv), Encode(tag), Encode(ciphertext)]))
  }

  /** The key of the ring an id names, the current one first. */
  function KeyFor(c: Crypto, keyring: Keyring, keyId: string): Option<Bytes> {
    var current := DeriveKey(c, keyring.currentSecret);
    if current.keyId == keyId then Some(current.key)
    else if keyring.previousSecret.None? then None
    else
      var previous := DeriveKey(c, keyring.previousSecret.value);
      if previous.keyId == keyId then Some(previous.key) else None
  }

  predicate RingDerivable(keyring: Keyring) {
    Derivable(keyring.currentSecret) && (keyring.previousSecret.Some? ==> Derivable(keyring.previousSecret.value))
  }

  function Open(c: Crypto, keyring: Keyring, binding: Binding, envelope: string): Result<string> {
    var segments := Split(envelope);
    if |segments| != 5 || segments[0] != ENVELOPE_VERSION then Err(NotAnEnvelope)
    else if !RingDerivable(keyring) then Err(ShortSecret)
    else
      var key := KeyFor(c, keyring, segments[1]);
      if key.None? then Err(UnknownKey)
      else
        var iv, tag, ciphertext := Decode(segments[2]), Decode(segments[3]), Decode(segments[4]);
        if iv.None? || tag.None? || ciphertext.None? then Err(FailedAuthentication)
        else
          var plain := c.decrypt(key.value, iv.value, AdditionalData(c, binding), ciphertext.value, tag.value);
          if plain.None? then Err(FailedAuthentication) else Ok(c.fromUtf8(plain.value))
  }

  // ---------- What opens ----------

  lemma {:induction false} EncodedLength(bytes: Bytes)
    ensures |bytes| <= |Encode(bytes)|
  {
    if |bytes| > 2 {
      EncodedLength(bytes[3..]);
    }
  }

  /** A key is the digest of its secret; its id, the first eight characters of the digest of the key. */
  lemma KeyIdIsEightCharacters(c: Crypto, secret: string)
    requires Ideal(c)
    ensures var derived := DeriveKey(c, secret);
      && derived.key == c.sha256(c.utf8(secret))
      && |derived.keyId| == 8 && derived.keyId <= Encode(c.sha256(c.sha256(c.utf8(secret))))
  {
    hide Encode;
    EncodedLength(c.sha256(c.sha256(c.utf8(secret))));
  }

  /** The secret of the ring whose key an id names, the current one first. */
  function SecretFor(c: Crypto, keyring: Keyring, keyId: string): Option<string> {
    if keyId == DeriveKey(c, keyring.currentSecret).keyId then Some(keyring.currentSecret)
    else if keyring.previousSecret.Some? && keyId == DeriveKey(c, keyring.previousSecret.value).keyId
    then keyring.previousSecret else None
  }

  /** What opening any text gives, sealed or not, error by error. */
  lemma OpenOfAny(c: Crypto, keyring: Keyring, binding: Binding, envelope: string)
    ensures var outcome, segments := Open(c, keyring, binding, envelope), Split(envelope);
      if |segments| != 5 || segments[0] != "ccv1" then outcome == Err(NotAnEnvelope)
      else if |keyring.currentSecret| < 32 || (keyring.previousSecret.Some? && |keyring.previousSecret.value| < 32)
      then outcome == Err(ShortSecret)
      else
        var secret := SecretFor(c, keyring, segments[1]);
        if secret.None? then outcome == Err(UnknownKey)
        else if Decode(segments[2]).None? || Decode(segments[3]).None? || Decode(segments[4]).None?
        then outcome == Err(FailedAuthentication)
        else
          var plain := c.decrypt(
            c.sha256(c.utf8(secret.value)), Decode(segments[2]).value, c.utf8(binding.platform + ":" + binding.externalId),
            Decode(segments[4]).value, Decode(segments[3]).value);
          outcome == if plain.Some? then Ok(c.fromUtf8(plain.value)) else Err(FailedAuthentication)
  {
    hide Split; hide Decode; hide Encode;
  }

  lemma SealedSegments(c: Crypto, keyring: Keyring, binding: Binding, plaintext: string, iv: Bytes)
    requires Derivable(keyring.currentSecret)
    ensures var derived := DeriveKey(c, keyring.currentSecret);
      var (ciphertext, tag) := c.encrypt(derived.key, iv, AdditionalData(c, binding), c.utf8(plaintext));
      Split(Seal(c, keyring, binding, plaintext, iv).value)
        == [ENVELOPE_VERSION, derived.keyId, Encode(iv), Encode(tag), Encode(ciphertext)]
  {
    hide Encode; hide Split; hide Join;
    var derived := DeriveKey(c, keyring.currentSecret);
    var (ciphertext, tag) := c.encrypt(derived.key, iv, AdditionalData(c, binding), c.utf8(plaintext));
    var segments := [ENVELOPE_VERSION, derived.keyId, Encode(iv), Encode(tag), Encode(ciphertext)];
    EncodeHasNoColon(c.sha256(derived.key));
    EncodeHasNoColon(iv);
    EncodeHasNoColon(tag);
    EncodeHasNoColon(ciphertext);
    SplitJoin(segments);
  }

  /** What sealing gives: five segments under the current key, unless the secret is short. */
  lemma SealOfAny(c: Crypto, keyring: Keyring, binding: Binding, plaintext: string, iv: Bytes)
    ensures var outcome, secret := Seal(c, keyring, binding, plaintext, iv), keyring.currentSecret;
      if |secret| < 32 then outcome == Err(ShortSecret)
      else
        var sealed := c.encrypt(c.sha256(c.utf8(secret)), iv, c.utf8(binding.platform + ":" + binding.externalId), c.utf8(plaintext));
        && outcome.Ok?
        && Split(outcome.value) == ["ccv1", DeriveKey(c, secret).keyId, Encode(iv), Encode(sealed.1), Encode(sealed.0)]
  {
    if |keyring.currentSecret| >= 32 {
      SealedSegments(c, keyring, binding, plaintext, iv);
    }
    hide Split; hide Encode; hide Join;
  }

  // ---------- Round trip, rotation, binding ----------

  /** What opening a sealed credential gives, for every ring that sealed it,
      every ring that opens it and every pair of bindings. */
  lemma OpenOfSealed(
    c: Crypto, sealing: Keyring, opening: Keyring, sealed: Binding, asked: Binding, plaintext: string, iv: Bytes)
    requires Ideal(c) && Derivable(sealing.currentSecret)
    ensures var derived := DeriveKey(c, sealing.currentSecret);
      Open(c, opening, asked, Seal(c, sealing, sealed, plaintext, iv).value) ==
        if !RingDerivable(opening) then Err(ShortSecret)
        else if KeyFor(c, opening, derived.keyId).None? then Err(UnknownKey)
        else if KeyFor(c, opening, derived.keyId).value == derived.key
                && AdditionalData(c, asked) == AdditionalData(c, sealed) then Ok(plaintext)
        else Err(FailedAuthentication)
  {
    hide Split; hide Encode; hide Decode; hide AdditionalData; hide Seal;
    var derived := DeriveKey(c, sealing.currentSecret);
    var (ciphertext, tag) := c.encrypt(derived.key, iv, AdditionalData(c, sealed), c.utf8(plaintext));
    SealedSegments(c, sealing, sealed, plaintext, iv);
    DecodeEncode(iv);
    DecodeEncode(tag);
    DecodeEncode(ciphertext);
    var key := KeyFor(c, opening, derived.keyId);
    if key.Some? {
      assert |key.value| == KEY_BYTES && |derived.key| == KEY_BYTES;
    }
  }

  /** The same ring and binding open what they sealed. */
  lemma RoundTrip(c: Crypto, keyring: Keyring, binding: Binding, plaintext: string, iv: Bytes)
    requires Ideal(c) && RingDerivable(keyring)
    ensures Open(c, keyring, binding, Seal(c, keyring, binding, plaintext, iv).value) == Ok(plaintext)
  {
    hide Seal; hide Open; hide AdditionalData;
    OpenOfSealed(c, keyring, keyring, binding, binding, plaintext, iv);
  }

  /** Once the sealing secret has moved to `previousSecret`, the credential still
      opens exactly when the new secret's key id is another one, or its key the same. */
  lemma RotationKeepsOpening(
    c: Crypto, sealing: Keyring, rotated: Keyring, binding: Binding, plaintext: string, iv: Bytes)
    requires Ideal(c) && RingDerivable(sealing) && Derivable(rotated.currentSecret)
    requires rotated.previousSecret == Some(sealing.currentSecret)
    ensures var was, now := DeriveKey(c, sealing.currentSecret), DeriveKey(c, rotated.currentSecret);
      (Open(c, rotated, binding, Seal(c, sealing, binding, plaintext, iv).value) == Ok(plaintext))
      <==> (now.keyId != was.keyId || now.key == was.key)
  {
    hide Seal; hide Open; hide AdditionalData; hide DeriveKey;
    OpenOfSealed(c, sealing, rotated, binding, binding, plaintext, iv);
  }

  /** Platform names hold no colon, so a credential opens for no binding but its own. */
  lemma OnlyItsOwnBinding(c: Crypto, keyring: Keyring, sealed: Binding, asked: Binding, plaintext: string, iv: Bytes)
    requires Ideal(c) && RingDerivable(keyring) && NoColon(sealed.platform) && NoColon(asked.platform)
    ensures Open(c, keyring, asked, Seal(c, keyring, sealed, plaintext, iv).value)
      == if asked == sealed then Ok(plaintext) else Err(FailedAuthentication)
  {
    hide Seal; hide Open;
    OpenOfSealed(c, keyring, keyring, sealed, asked, plaintext, iv);
    if AdditionalData(c, asked) == AdditionalData(c, sealed) {
      var a, b := asked.platform + ":" + asked.externalId, sealed.platform + ":" + sealed.externalId;
      assert a == c.fromUtf8(c.utf8(a)) == c.fromUtf8(c.utf8(b)) == b;
      SamePrefix(asked.platform, asked.externalId, sealed.platform, sealed.externalId);
    }
  }

  lemma SamePrefix(p: string, x: string, q: string, y: string)
    requires NoColon(p) && NoColon(q) && p + ":" + x == q + ":" + y
    ensures p == q && x == y
  {
    var s := p + ":" + x;
    assert s[|p|] == ':' && s[|q|] == ':';
    assert forall i | 0 <= i < |p| :: s[i] == p[i] && p[i] in p;
    assert forall i | 0 <= i < |q| :: s[i] == q[i] && q[i] in q;
    assert |p| == |q|;
    assert p == s[..|p|] && x == s[|p| + 1..];
  }

  /** A colon inside the platform would let a credential open for a binding that is not its own. */
  lemma ColonsBlurBindings(c: Crypto, keyring: Keyring, plaintext: string, iv: Bytes) returns (sealed: Binding, asked: Binding)
    requires Ideal(c) && RingDerivable(keyring)
    ensures asked != sealed
    ensures Open(c, keyring, asked, Seal(c, keyring, sealed, plaintext, iv).value) == Ok(plaintext)
  {
    hide Seal; hide Open;
    sealed, asked := Binding("chat", "a:b"), Binding("chat:a", "b");
    assert "chat" + ":" + "a:b" == "chat:a" + ":" + "b";
    OpenOfSealed(c, keyring, keyring, sealed, asked, plaintext, iv);
  }
}
