/**
 Sealed credentials: the `iv.tag.ciphertext` text of a sealed message, and the two-layer envelope in which a
 data key seals the credentials and a master key, behind a provider, seals the data key.
 AES-GCM is a pair of functions; what is assumed of it is written where it is used.
 */
module Envelope {
  import opened Prelude
  import opened Base64

  type Bytes = seq<byte>

  const IV_LENGTH := 12
  const TAG_LENGTH := 16
  const DEK_LENGTH := 32

  datatype Error =
    | KeyLength | SealedTooShort | Malformed | NotBase64 | IvLength | TagLength | OpenFailed
    | NotConfigured | DekNotBase64 | DekLength

  datatype Result<+T> = Ok(value: T) | Err(error: Error)

  /** `seal` gives ciphertext followed by tag; `open'` takes them in that order. */
  datatype Aead = Aead(seal: (Bytes, Bytes, Bytes) -> Bytes, open': (Bytes, Bytes, Bytes) -> Option<Bytes>)

  /** What an AES key may be. */
  predicate IsKey(key: Bytes) {
    |key| in {16, 24, 32}
  }

  /** Sealing adds a tag of sixteen bytes, and what opens is what was sealed. */
  ghost predicate Sound(a: Aead) {
    && (forall key, iv, p | IsKey(key) && |iv| == 12 ::
          |a.seal(key, iv, p)| == |p| + 16 && a.open'(key, iv, a.seal(key, iv, p)) == Some(p))
    && (forall key, iv, c | IsKey(key) && |iv| == 12 && a.open'(key, iv, c).Some? ::
          c == a.seal(key, iv, a.open'(key, iv, c).value))
  }

  /** The assumption can be met: here by a pair that hides nothing. */
  lemma SoundIsPossible() returns (a: Aead)
    ensures Sound(a)
  {
    var tag: Bytes := seq(TAG_LENGTH, _ => 0);
    a := Aead((key, iv, p) => p + tag,
              (key, iv, c) =>
                if |c| >= TAG_LENGTH && c[|c| - TAG_LENGTH..] == tag then Some(c[..|c| - TAG_LENGTH]) else None);
    forall key, iv, p | IsKey(key) && |iv| == IV_LENGTH ensures a.open'(key, iv, a.seal(key, iv, p)) == Some(p) {
      assert (p + tag)[..|p|] == p;
    }
  }

  // ---- The text of a sealed message -------------------------------------------------------------------

  function Split(s: string): (parts: seq<string>)
    ensures |parts| >= 1
  {
    if s == "" then [""]
    else
      var rest := Split(s[1..]);
      if s[0] == '.' then [""] + rest else [[s[0]] + rest[0]] + rest[1..]
  }

  function Join(parts: seq<string>): string
    requires |parts| >= 1
  {
    if |parts| == 1 then parts[0] else parts[0] + "." + Join(parts[1..])
  }

  datatype Triplet = Triplet(iv: Bytes, tag: Bytes, ct: Bytes)

  function Print(t: Triplet): string {
    Encode(t.iv) + "." + Encode(t.tag) + "." + Encode(t.ct)
  }

  function Parse(payload: string): Result<Triplet> {
    var parts := Split(payload);
    if |parts| != 3 then Err(Malformed)
    else
      var iv, tag, ct := Decode(parts[0]), Decode(parts[1]), Decode(parts[2]);
      if iv.None? || tag.None? || ct.None? then Err(NotBase64)
      else if |iv.value| != IV_LENGTH then Err(IvLength)
      else if |tag.value| != TAG_LENGTH then Err(TagLength)
      else Ok(Triplet(iv.value, tag.value, ct.value))
  }

  function Seal(a: Aead, key: Bytes, iv: Bytes, plain: Bytes): Result<string> {
    if |iv| != IV_LENGTH then Err(IvLength)
    else if !IsKey(key) then Err(KeyLength)
    else
      var sealed := a.seal(key, iv, plain);
      if |sealed| < TAG_LENGTH then Err(SealedTooShort)
      else
        var n := |sealed| - TAG_LENGTH;
        Ok(Print(Triplet(iv, sealed[n..], sealed[..n])))
  }

  function Unseal(a: Aead, key: Bytes, payload: string): Result<Bytes> {
    var t := Parse(payload);
    if t.Err? then Err(t.error)
    else if !IsKey(key) then Err(KeyLength)
    else
      var p := a.open'(key, t.value.iv, t.value.ct + t.value.tag);
      if p.None? then Err(OpenFailed) else Ok(p.value)
  }

  // ---- Key-encryption keys ------------------------------------------------------------------------------

  /** A provider of a master key; the initialisation vector it draws is an argument. */
  datatype Provider = Provider(encrypt: (Bytes, Bytes) -> Result<string>, decrypt: string -> Result<Bytes>)

  /** What every provider owes its callers. */
  ghost predicate Faithful(k: Provider) {
    forall p, iv | k.encrypt(p, iv).Ok? :: k.decrypt(k.encrypt(p, iv).value) == Ok(p)
  }

  function EnvProvider(a: Aead, key: Bytes): Provider {
    Provider((p, iv) => Seal(a, key, iv, p), payload => Unseal(a, key, payload))
  }

  /** The cloud providers, which are not built yet. */
  const STUB_PROVIDER := Provider((p: Bytes, iv: Bytes) => Err(NotConfigured), (payload: string) => Err(NotConfigured))

  // ---- Envelopes ------------------------------------------------------------------------------------------

  function ByteOf(c: char): byte {
    c as int % 256
  }

  function BytesOf(s: string): Bytes
  {
    seq(|s|, i requires 0 <= i < |s| => ByteOf(s[i]))
  }

  function TextOf(b: Bytes): string {
    seq(|b|, i requires 0 <= i < |b| => b[i] as char)
  }

  function WrapDek(k: Provider, dek: Bytes, iv: Bytes): Result<string> {
    k.encrypt(BytesOf(Encode(dek)), iv)
  }

  function UnwrapDek(k: Provider, dekCT: string): Result<Bytes> {
    var text := k.decrypt(dekCT);
    if text.Err? then text
    else
      var dek := Decode(TextOf(text.value));
      if dek.None? then Err(DekNotBase64)
      else if |dek.value| != DEK_LENGTH then Err(DekLength)
      else Ok(dek.value)
  }

  datatype Sealed = Sealed(dekCT: string, payloadCT: string)

  /** The fresh data key and both initialisation vectors are arguments. */
  function EncryptForAccount(a: Aead, k: Provider, dek: Bytes, iv: Bytes, wrapIv: Bytes, plain: Bytes): Result<Sealed> {
    var payload := Seal(a, dek, iv, plain);
    if payload.Err? then Err(payload.error)
    else
      var wrapped := WrapDek(k, dek, wrapIv);
      if wrapped.Err? then Err(wrapped.error) else Ok(Sealed(wrapped.value, payload.value))
  }

  function EncryptWithDek(a: Aead, k: Provider, dekCT: string, iv: Bytes, plain: Bytes): Result<string> {
    var dek := UnwrapDek(k, dekCT);
    if dek.Err? then Err(dek.error) else Seal(a, dek.value, iv, plain)
  }

  function DecryptForAccount(a: Aead, k: Provider, dekCT: string, payloadCT: string): Result<Bytes> {
    var dek := UnwrapDek(k, dekCT);
    if dek.Err? then Err(dek.error) else Unseal(a, dek.value, payloadCT)
  }

  method Zeroize(b: array<byte>)
    modifies b
    ensures forall i | 0 <= i < b.Length :: b[i] == 0
  {
    for i := 0 to b.Length
      invariant forall k | 0 <= k < i :: b[k] == 0
    {
      b[i] := 0;
    }
  }

  // ---- Print and parse --------------------------------------------------------------------------------------

  predicate NoDot(s: string) {
    '.' !in s
  }

  /** Splitting loses nothing: joined again, the parts give the text, and no part holds a separator. */
  lemma {:induction false} JoinOfSplit(s: string)
    ensures Join(Split(s)) == s && forall part <- Split(s) :: NoDot(part)
  {
    if s != "" {
      var rest := Split(s[1..]);
      JoinOfSplit(s[1..]);
      assert rest == [rest[0]] + rest[1..];
      assert s == [s[0]] + s[1..];
      if s[0] == '.' {
        assert Split(s)[1..] == rest;
      } else {
        assert Split(s)[1..] == rest[1..];
        assert NoDot(rest[0]);
      }
    }
  }

  lemma {:induction false} SplitOfNoDot(s: string)
    requires NoDot(s)
    ensures Split(s) == [s]
  {
    if s != "" {
      SplitOfNoDot(s[1..]);
      assert s == [s[0]] + s[1..];
    }
  }

  lemma {:induction false} SplitAtDot(a: string, b: string)
    requires NoDot(a)
    ensures Split(a + "." + b) == [a] + Split(b)
  {
    var s := a + "." + b;
    if a == "" {
      assert s[1..] == b;
    } else {
      assert s[1..] == a[1..] + "." + b;
      assert a == [a[0]] + a[1..];
      SplitAtDot(a[1..], b);
    }
  }

  lemma EncodedHasNoDot(b: Bytes)
    ensures NoDot(Encode(b))
  {
    EncodedIsPlain(b);
  }

  lemma SplitOfPrint(t: Triplet)
    ensures Split(Print(t)) == [Encode(t.iv), Encode(t.tag), Encode(t.ct)]
  {
    EncodedHasNoDot(t.iv);
    EncodedHasNoDot(t.tag);
    EncodedHasNoDot(t.ct);
    var tail := Encode(t.tag) + "." + Encode(t.ct);
    assert Print(t) == Encode(t.iv) + "." + tail;
    SplitAtDot(Encode(t.iv), tail);
    SplitAtDot(Encode(t.tag), Encode(t.ct));
    SplitOfNoDot(Encode(t.ct));
  }

  /** A printed triplet always splits into exactly three parts, which read as what was printed. */
  lemma ParseOfPrint(t: Triplet)
    requires |t.iv| == 12 && |t.tag| == 16
    ensures Parse(Print(t)) == Ok(t)
  {
    SplitOfPrint(t);
    DecodeOfEncode(t.iv);
    DecodeOfEncode(t.tag);
    DecodeOfEncode(t.ct);
  }

  function Dots(s: string): nat {
    if s == "" then 0 else (if s[0] == '.' then 1 else 0) + Dots(s[1..])
  }

  lemma {:induction false} PartsAreDotsPlusOne(s: string)
    ensures |Split(s)| == Dots(s) + 1
  {
    if s != "" {
      PartsAreDotsPlusOne(s[1..]);
    }
  }

  /** The three dot-free parts of a message, and what they read as. */
  predicate ReadsAs(iv: string, tag: string, ct: string, t: Triplet) {
    && NoDot(iv) && NoDot(tag) && NoDot(ct)
    && Decode(iv) == Some(t.iv) && Decode(tag) == Some(t.tag) && Decode(ct) == Some(t.ct)
    && |t.iv| == 12 && |t.tag| == 16
  }

  lemma PartsOf(payload: string)
    requires |Split(payload)| == 3
    ensures var parts := Split(payload);
      payload == parts[0] + "." + parts[1] + "." + parts[2] && NoDot(parts[0]) && NoDot(parts[1]) && NoDot(parts[2])
  {
    var parts := Split(payload);
    JoinOfSplit(payload);
    assert parts == [parts[0], parts[1], parts[2]];
    JoinThree(parts[0], parts[1], parts[2]);
    assert parts[0] in parts && parts[1] in parts && parts[2] in parts;
  }

  lemma ParseOfParts(payload: string, t: Triplet)
    ensures Parse(payload) == Ok(t) <==>
      |Split(payload)| == 3
      && Decode(Split(payload)[0]) == Some(t.iv) && Decode(Split(payload)[1]) == Some(t.tag)
      && Decode(Split(payload)[2]) == Some(t.ct) && |t.iv| == 12 && |t.tag| == 16
  {
  }

  /**
   A message is a triplet exactly if it is three dot-free parts that read as a vector of twelve bytes, a tag of
   sixteen and a ciphertext; and it is malformed exactly if it does not hold two dots.
   */
  lemma ParsesIff(payload: string, t: Triplet)
    ensures Parse(payload) == Ok(t) <==>
      exists iv, tag, ct :: payload == iv + "." + tag + "." + ct && ReadsAs(iv, tag, ct, t)
    ensures Parse(payload) == Err(Malformed) <==> Dots(payload) != 2
  {
    PartsAreDotsPlusOne(payload);
    ParseOfParts(payload, t);
    if Parse(payload) == Ok(t) {
      var parts := Split(payload);
      PartsOf(payload);
      assert ReadsAs(parts[0], parts[1], parts[2], t);
    }
    if iv, tag, ct :| payload == iv + "." + tag + "." + ct && ReadsAs(iv, tag, ct, t) {
      SplitThree(iv, tag, ct);
    }
  }

  lemma JoinThree(a: string, b: string, c: string)
    ensures Join([a, b, c]) == a + "." + b + "." + c
  {
    assert [a, b, c][1..] == [b, c] && [b, c][1..] == [c];
    assert Join([b, c]) == b + "." + Join([c]);
  }

  lemma SplitThree(a: string, b: string, c: string)
    requires NoDot(a) && NoDot(b) && NoDot(c)
    ensures Split(a + "." + b + "." + c) == [a, b, c]
  {
    var tail := b + "." + c;
    assert a + "." + b + "." + c == a + "." + tail;
    SplitAtDot(a, tail);
    SplitAtDot(b, c);
    SplitOfNoDot(c);
  }

  lemma Reassemble(b: Bytes, n: nat)
    requires n <= |b|
    ensures b[..n] + b[n..] == b
  {
  }

  /** Sealing succeeds, and the message parses into its vector and the sealed bytes. */
  lemma SealParses(a: Aead, key: Bytes, iv: Bytes, plain: Bytes)
    requires Sound(a) && IsKey(key) && |iv| == IV_LENGTH
    ensures var r := Seal(a, key, iv, plain);
      r.Ok? && Parse(r.value).Ok? && (var t := Parse(r.value).value;
      t.iv == iv && t.ct + t.tag == a.seal(key, iv, plain) && |t.ct| == |plain|)
  {
    var sealed := a.seal(key, iv, plain);
    var n := |sealed| - TAG_LENGTH;
    ParseOfPrint(Triplet(iv, sealed[n..], sealed[..n]));
    Reassemble(sealed, n);
  }

  /** Sealing fails exactly for a vector that is not twelve bytes long, or a key that is none of AES. */
  lemma SealsIff(a: Aead, key: Bytes, iv: Bytes, plain: Bytes)
    requires Sound(a)
    ensures Seal(a, key, iv, plain).Ok? <==> |iv| == 12 && |key| in {16, 24, 32}
  {
    if |iv| == 12 && |key| in {16, 24, 32} {
      SealParses(a, key, iv, plain);
    }
  }

  lemma UnsealOfParsed(a: Aead, key: Bytes, payload: string, plain: Bytes)
    requires Sound(a) && IsKey(key) && Parse(payload).Ok?
    ensures var t := Parse(payload).value;
      |t.iv| == 12 && |t.tag| == 16
      && (Unseal(a, key, payload) == Ok(plain) <==> t.ct + t.tag == a.seal(key, t.iv, plain))
  {
    var t := Parse(payload).value;
    assert |t.iv| == IV_LENGTH;
    var c := t.ct + t.tag;
    var p := a.open'(key, t.iv, c);
    assert p.Some? ==> c == a.seal(key, t.iv, p.value);
    assert a.open'(key, t.iv, a.seal(key, t.iv, plain)) == Some(plain);
  }

  lemma UnsealOfSeal(a: Aead, key: Bytes, iv: Bytes, plain: Bytes)
    requires Sound(a) && IsKey(key) && |iv| == IV_LENGTH
    ensures Seal(a, key, iv, plain).Ok? && Unseal(a, key, Seal(a, key, iv, plain).value) == Ok(plain)
  {
    SealParses(a, key, iv, plain);
    UnsealOfParsed(a, key, Seal(a, key, iv, plain).value, plain);
  }

  /** Two messages carry the same bytes under the same vector. */
  predicate SameMessage(payload: string, payload': string) {
    Parse(payload).Ok? && Parse(payload') == Parse(payload)
  }

  /** A message opens to `plain` exactly if its bytes are those that sealing `plain` under its own vector gives. */
  lemma OpensIff(a: Aead, key: Bytes, payload: string, plain: Bytes)
    requires Sound(a) && IsKey(key) && Parse(payload).Ok?
    ensures var sealed := Seal(a, key, Parse(payload).value.iv, plain);
      sealed.Ok? && (Unseal(a, key, payload) == Ok(plain) <==> SameMessage(payload, sealed.value))
  {
    var t := Parse(payload).value;
    UnsealOfParsed(a, key, payload, plain);
    SealParses(a, key, t.iv, plain);
    var payload' := Seal(a, key, t.iv, plain).value;
    UnsealOfParsed(a, key, payload', plain);
    TagsAlign(t, Parse(payload').value);
  }

  lemma TagsAlign(t: Triplet, u: Triplet)
    requires |t.tag| == |u.tag| && t.iv == u.iv
    ensures t.ct + t.tag == u.ct + u.tag <==> t == u
  {
    if t.ct + t.tag == u.ct + u.tag {
      var all := t.ct + t.tag;
      assert |t.ct| == |u.ct|;
      assert t.ct == all[..|t.ct|] == u.ct;
      assert t.tag == all[|t.ct|..] == u.tag;
    }
  }

  // ---- Envelopes ----------------------------------------------------------------------------------------------

  lemma TextOfBytes(s: string)
    requires Plain(s)
    ensures TextOf(BytesOf(s)) == s
  {
    forall i | 0 <= i < |s| ensures TextOf(BytesOf(s))[i] == s[i] {
      assert s[i] in s;
    }
  }

  lemma UnwrapOfWrap(k: Provider, dek: Bytes, iv: Bytes)
    requires Faithful(k) && |dek| == DEK_LENGTH && WrapDek(k, dek, iv).Ok?
    ensures UnwrapDek(k, WrapDek(k, dek, iv).value) == Ok(dek)
  {
    EncodedIsPlain(dek);
    TextOfBytes(Encode(dek));
    DecodeOfEncode(dek);
  }

  /** The provider used in production keeps the providers' promise, and so does one that always fails. */
  lemma EnvIsFaithful(a: Aead, key: Bytes)
    requires Sound(a)
    ensures Faithful(EnvProvider(a, key)) && Faithful(STUB_PROVIDER)
    ensures forall p, iv :: STUB_PROVIDER.encrypt(p, iv) == Err(NotConfigured)
    ensures forall payload :: STUB_PROVIDER.decrypt(payload) == Err(NotConfigured)
  {
    var k := EnvProvider(a, key);
    forall p, iv | k.encrypt(p, iv).Ok? ensures k.decrypt(k.encrypt(p, iv).value) == Ok(p) {
      UnsealOfSeal(a, key, iv, p);
    }
  }

  /** A data key unwraps exactly if the provider opens it, to base64 text of thirty-two bytes. */
  lemma UnwrapsIff(k: Provider, dekCT: string, dek: Bytes)
    ensures UnwrapDek(k, dekCT) == Ok(dek) <==>
      k.decrypt(dekCT).Ok? && Decode(TextOf(k.decrypt(dekCT).value)) == Some(dek) && |dek| == 32
  {
  }

  /** Every credential sealed under one data key, first or later and empty or not, comes back as it was. */
  lemma CredentialsRoundTrip(a: Aead, k: Provider, dek: Bytes, iv: Bytes, wrapIv: Bytes, first: Bytes,
                             ivs: seq<Bytes>, rest: seq<Bytes>)
    requires Sound(a) && Faithful(k) && |dek| == 32 && |iv| == 12
    requires |ivs| == |rest| && forall v <- ivs :: |v| == 12
    ensures var e := EncryptForAccount(a, k, dek, iv, wrapIv, first);
      e.Ok? ==>
        && DecryptForAccount(a, k, e.value.dekCT, e.value.payloadCT) == Ok(first)
        && forall i | 0 <= i < |rest| ::
             var r := EncryptWithDek(a, k, e.value.dekCT, ivs[i], rest[i]);
             r.Ok? && DecryptForAccount(a, k, e.value.dekCT, r.value) == Ok(rest[i])
  {
    var e := EncryptForAccount(a, k, dek, iv, wrapIv, first);
    UnsealOfSeal(a, dek, iv, first);
    if e.Ok? {
      UnwrapOfWrap(k, dek, wrapIv);
      forall i | 0 <= i < |rest|
        ensures var r := EncryptWithDek(a, k, e.value.dekCT, ivs[i], rest[i]);
          r.Ok? && DecryptForAccount(a, k, e.value.dekCT, r.value) == Ok(rest[i])
      {
        assert ivs[i] in ivs;
        UnsealOfSeal(a, dek, ivs[i], rest[i]);
      }
    }
  }

  /** With the production provider sealing never fails. */
  lemma EnvSealsEverything(a: Aead, key: Bytes, dek: Bytes, iv: Bytes, wrapIv: Bytes, plain: Bytes)
    requires Sound(a) && |key| in {16, 24, 32} && |dek| == 32 && |iv| == |wrapIv| == 12
    ensures EncryptForAccount(a, EnvProvider(a, key), dek, iv, wrapIv, plain).Ok?
  {
    UnsealOfSeal(a, dek, iv, plain);
    EncodedIsPlain(dek);
    UnsealOfSeal(a, key, wrapIv, BytesOf(Encode(dek)));
  }

  /** Re-wrapping the data key under another provider preserves what every payload opens to, errors included. */
  lemma RewrappingPreservesPayloads(a: Aead, k: Provider, k': Provider, dekCT: string, wrapIv: Bytes, payloadCT: string)
    requires Faithful(k') && UnwrapDek(k, dekCT).Ok? && WrapDek(k', UnwrapDek(k, dekCT).value, wrapIv).Ok?
    ensures var dekCT' := WrapDek(k', UnwrapDek(k, dekCT).value, wrapIv).value;
      DecryptForAccount(a, k', dekCT', payloadCT) == DecryptForAccount(a, k, dekCT, payloadCT)
  {
    UnwrapOfWrap(k', UnwrapDek(k, dekCT).value, wrapIv);
  }
}
