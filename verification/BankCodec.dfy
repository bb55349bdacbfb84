/** The stored form of bank details: `enc:<version>:<iv>:<tag>:<ciphertext>` in lower-case hex.
    AES-256-GCM (sections 7.1 and 7.2 of NIST SP 800-38D) is a pair of function values. */
module BankCodec {
  import opened Options

  type Byte = x: int | 0 <= x < 256

  type Bytes = seq<Byte>

  datatype Sealed = Sealed(body: Bytes, tag: Bytes)

  /** `seal` takes key, IV and plaintext; `unseal` takes key, IV, body and tag. */
  datatype Cipher = Cipher(seal: (Bytes, Bytes, string) -> Sealed, unseal: (Bytes, Bytes, Bytes, Bytes) -> Option<string>)

  /** What authenticated encryption promises: opening undoes sealing, and no plaintext has more
      characters than its ciphertext has bytes. */
  ghost predicate Sound(c: Cipher) {
    && (forall k, iv, p :: c.unseal(k, iv, c.seal(k, iv, p).body, c.seal(k, iv, p).tag) == Some(p))
    && (forall k, iv, b, t :: c.unseal(k, iv, b, t).Some? ==> |c.unseal(k, iv, b, t).value| <= |b|)
  }

  /** Three bytes a character: not a cipher anybody should use, but a sound one. */
  function Spell(p: string): Bytes {
    if p == "" then []
    else var n := p[0] as int; [n / 65536, n / 256 % 256, n % 256] + Spell(p[1..])
  }

  function Read(b: Bytes): (p: Option<string>)
    ensures p.Some? ==> |p.value| <= |b|
  {
    if b == [] then Some("")
    else if |b| < 3 then None
    else
      var x: int, y: int := b[0], b[1];
      var n := 65536 * x + 256 * y + b[2];
      if (n < 0xD800 || 0xE000 <= n < 0x11_0000) && Read(b[3..]).Some?
      then Some([n as char] + Read(b[3..]).value)
      else None
  }

  lemma {:induction false} ReadUndoesSpell(p: string)
    ensures Read(Spell(p)) == Some(p)
  {
    if p != "" {
      var n := p[0] as int;
      assert Spell(p)[3..] == Spell(p[1..]);
      assert 65536 * (n / 65536) + 256 * (n / 256 % 256) + n % 256 == n;
      ReadUndoesSpell(p[1..]);
      assert p == [p[0]] + p[1..];
    }
  }

  /** The promise can be kept. */
  lemma SoundCiphersExist()
    ensures exists c :: Sound(c)
  {
    var c := Cipher((k, iv, p) => Sealed(Spell(p), []), (k, iv, b, t) => Read(b));
    forall k: Bytes, iv: Bytes, p: string
      ensures c.unseal(k, iv, c.seal(k, iv, p).body, c.seal(k, iv, p).tag) == Some(p)
    {
      ReadUndoesSpell(p);
    }
    assert Sound(c);
  }

  datatype Outcome<+T> = Value(value: T) | Failed

  /** The key registry with the version that new values are written under. */
  datatype Keys = Keys(cipher: Cipher, registry: map<string, Bytes>, active: string)

  // ---------------------------------------------- hex

  const DIGITS := "0123456789abcdef"

  function HexValue(c: char): Option<int> {
    if '0' <= c <= '9' then Some(c as int - '0' as int)
    else if 'a' <= c <= 'f' then Some(c as int - 'a' as int + 10)
    else if 'A' <= c <= 'F' then Some(c as int - 'A' as int + 10)
    else None
  }

  function ToHex(bytes: Bytes): string {
    if bytes == [] then "" else [DIGITS[bytes[0] / 16], DIGITS[bytes[0] % 16]] + ToHex(bytes[1..])
  }

  /** Decodes pairs of digits and stops at the first thing that is not one. */
  function FromHex(s: string): (bytes: Bytes)
    ensures 2 * |bytes| <= |s|
  {
    if |s| < 2 then []
    else
      match (HexValue(s[0]), HexValue(s[1]))
      case (Some(hi), Some(lo)) => if 0 <= hi < 16 && 0 <= lo < 16 then [16 * hi + lo] + FromHex(s[2..]) else []
      case _ => []
  }

  lemma {:induction false} HexRoundTrip(bytes: Bytes)
    ensures FromHex(ToHex(bytes)) == bytes
    ensures Colons(ToHex(bytes)) == 0
  {
    if bytes != [] {
      var b := bytes[0];
      var hi, lo := DIGITS[b / 16], DIGITS[b % 16];
      DigitValue(b / 16);
      DigitValue(b % 16);
      HexRoundTrip(bytes[1..]);
      assert ToHex(bytes) == [hi, lo] + ToHex(bytes[1..]);
      assert ToHex(bytes)[2..] == ToHex(bytes[1..]);
      ColonsConcat([hi, lo], ToHex(bytes[1..]));
      assert [hi, lo][1..] == [lo];
    }
  }

  lemma DigitValue(d: int)
    requires 0 <= d < 16
    ensures HexValue(DIGITS[d]) == Some(d) && DIGITS[d] != ':'
  {}

  // ---------------------------------------------- splitting at colons

  function Split(s: string): (parts: seq<string>)
    ensures |parts| >= 1
  {
    if s == "" then [""]
    else
      var rest := Split(s[1..]);
      if s[0] == ':' then [""] + rest else [[s[0]] + rest[0]] + rest[1..]
  }

  function Join(parts: seq<string>): string {
    if parts == [] then "" else if |parts| == 1 then parts[0] else parts[0] + ":" + Join(parts[1..])
  }

  function Colons(s: string): nat {
    if s == "" then 0 else (if s[0] == ':' then 1 else 0) + Colons(s[1..])
  }

  lemma {:induction false} ColonsConcat(a: string, b: string)
    ensures Colons(a + b) == Colons(a) + Colons(b)
  {
    if a == "" {
      assert a + b == b;
    } else {
      assert (a + b)[1..] == a[1..] + b;
      ColonsConcat(a[1..], b);
    }
  }

  /** Splitting loses nothing, and every colon separates two parts. */
  lemma {:induction false} SplitJoin(s: string)
    ensures Join(Split(s)) == s && |Split(s)| == Colons(s) + 1
    ensures forall k :: 0 <= k < |Split(s)| ==> Colons(Split(s)[k]) == 0
  {
    if s != "" {
      var rest := Split(s[1..]);
      SplitJoin(s[1..]);
      if s[0] == ':' {
        assert Split(s)[1..] == rest;
        assert s == "" + ":" + s[1..];
      } else {
        var head := [s[0]] + rest[0];
        assert Split(s)[1..] == rest[1..] && Split(s)[0] == head;
        assert head[1..] == rest[0];
        assert s == [s[0]] + s[1..];
      }
    }
  }

  lemma {:induction false} SplitWhole(a: string)
    requires Colons(a) == 0
    ensures Split(a) == [a]
  {
    if a != "" {
      SplitWhole(a[1..]);
      assert [a[0]] + a[1..] == a;
    }
  }

  lemma {:induction false} SplitLast(s: string, c: string)
    requires Colons(c) == 0
    ensures Split(s + ":" + c) == Split(s) + [c]
  {
    if s == "" {
      assert (s + ":" + c)[1..] == c;
      SplitWhole(c);
    } else {
      assert (s + ":" + c)[1..] == s[1..] + ":" + c;
      SplitLast(s[1..], c);
    }
  }

  // ---------------------------------------------- blank values and tags

  /** What `trim` removes. */
  predicate IsSpace(c: char) {
    || '\t' <= c <= '\r' || c == ' ' || c == '\U{00A0}' || c == '\U{1680}' || '\U{2000}' <= c <= '\U{200A}'
    || c == '\U{2028}' || c == '\U{2029}' || c == '\U{202F}' || c == '\U{205F}' || c == '\U{3000}' || c == '\U{FEFF}'
  }

  predicate IsBlank(s: string) {
    forall i :: 0 <= i < |s| ==> IsSpace(s[i])
  }

  predicate Empty(v: Option<string>) {
    v.None? || IsBlank(v.value)
  }

  const PREFIX := "enc:"

  predicate Prefixed(s: string) {
    PREFIX <= s
  }

  function Tag(version: string): string {
    PREFIX + version + ":"
  }

  predicate Tagged(s: string, version: string) {
    Tag(version) <= s
  }

  lemma PrefixedIsNotBlank(s: string)
    requires Prefixed(s)
    ensures !IsBlank(s)
  {
    assert s[0] == PREFIX[0] && !IsSpace(s[0]);
  }

  lemma TaggedIsPrefixed(s: string, version: string)
    requires Tagged(s, version)
    ensures Prefixed(s)
  {
    assert PREFIX <= Tag(version);
  }

  // ---------------------------------------------- encrypt and decrypt

  function Format(version: string, iv: Bytes, sealed: Sealed): string {
    PREFIX + version + ":" + ToHex(iv) + ":" + ToHex(sealed.tag) + ":" + ToHex(sealed.body)
  }

  /** `targetVersion || activeVersion` */
  function Chosen(keys: Keys, target: Option<string>): string {
    if target.Some? && target.value != "" then target.value else keys.active
  }

  function Encrypt(keys: Keys, plaintext: Option<string>, target: Option<string>, iv: Bytes): Outcome<Option<string>> {
    if Empty(plaintext) then Value(None)
    else if Chosen(keys, target) !in keys.registry then Failed
    else if Tagged(plaintext.value, Chosen(keys, target)) then Value(plaintext)
    else
      var version := Chosen(keys, target);
      Value(Some(Format(version, iv, keys.cipher.seal(keys.registry[version], iv, plaintext.value))))
  }

  function Open(keys: Keys, parts: seq<string>): Outcome<Option<string>>
    requires |parts| == 5
  {
    if parts[1] !in keys.registry then Failed
    else
      match keys.cipher.unseal(keys.registry[parts[1]], FromHex(parts[2]), FromHex(parts[4]), FromHex(parts[3]))
      case None => Failed
      case Some(p) => Value(Some(p))
  }

  function Decrypt(keys: Keys, stored: Option<string>): Outcome<Option<string>> {
    if Empty(stored) then Value(None)
    else if !Prefixed(stored.value) then Value(stored)
    else if |Split(stored.value)| != 5 then Failed
    else Open(keys, Split(stored.value))
  }

  function Reencrypt(keys: Keys, stored: Option<string>, target: string, iv: Bytes): Outcome<Option<string>> {
    if Empty(stored) then Value(None)
    else if Decrypt(keys, stored).Failed? then Failed
    else Encrypt(keys, Decrypt(keys, stored).value, Some(target), iv)
  }

  // ---------------------------------------------- what is refused and what is kept

  /** `s` starts with `start`. */
  predicate Starts(s: string, start: string) {
    |start| <= |s| && s[..|start|] == start
  }

  lemma StartsIsTagged(s: string, version: string)
    ensures Starts(s, "enc:" + version + ":") <==> Tagged(s, version)
    ensures Starts(s, "enc:") <==> Prefixed(s)
  {}

  /** Which version a value is written under, and when that fails: the version asked for, unless it is
      absent or empty, and nothing is written for a blank value. */
  lemma WrittenUnder(keys: Keys, p: string, target: Option<string>, iv: Bytes)
    requires !IsBlank(p)
    ensures var version := if target.Some? && |target.value| > 0 then target.value else keys.active;
            && (version !in keys.registry <==> Encrypt(keys, Some(p), target, iv).Failed?)
            && (version in keys.registry ==>
                  && Encrypt(keys, Some(p), target, iv).value.Some?
                  && Starts(Encrypt(keys, Some(p), target, iv).value.value, "enc:" + version + ":")
                  && (Starts(p, "enc:" + version + ":") ==> Encrypt(keys, Some(p), target, iv).value.value == p))
  {
    var version := Chosen(keys, target);
    if version in keys.registry && !Tagged(p, version) {
      FormatColons(version, iv, keys.cipher.seal(keys.registry[version], iv, p));
    }
  }

  /** White space and line terminators (sections 12.2 and 12.3 of ECMA-262) by their numbers. */
  const SPACE_CODES := {9, 10, 11, 12, 13, 32, 160, 5760, 8192, 8193, 8194, 8195, 8196, 8197, 8198, 8199, 8200, 8201, 8202,
                        8232, 8233, 8239, 8287, 12288, 65279}

  /** A value of nothing else stands for no value at all, and no other non-empty value does. */
  lemma BlankIsNothing(keys: Keys, s: string, target: Option<string>, iv: Bytes)
    ensures (forall i :: 0 <= i < |s| ==> s[i] as int in SPACE_CODES)
            <==> Encrypt(keys, Some(s), target, iv) == Value(None)
    ensures Encrypt(keys, None, target, iv) == Decrypt(keys, None) == Value(None)
    ensures (forall i :: 0 <= i < |s| ==> s[i] as int in SPACE_CODES) ==> Decrypt(keys, Some(s)) == Value(None)
  {
    forall i | 0 <= i < |s| ensures IsSpace(s[i]) <==> s[i] as int in SPACE_CODES {
      SpaceCode(s[i]);
    }
  }

  lemma SpaceCode(c: char)
    ensures IsSpace(c) <==> c as int in SPACE_CODES
  {}

  /** Reading a stored value: legacy values come back as they are, and of the others exactly those fail
      that do not have five parts, name an unknown version, or do not open. */
  lemma ReadExactly(keys: Keys, s: string)
    requires !IsBlank(s)
    ensures !Starts(s, "enc:") ==> Decrypt(keys, Some(s)) == Value(Some(s))
    ensures Starts(s, "enc:") ==>
      (Decrypt(keys, Some(s)).Failed?
       <==> || |Split(s)| != 5
            || Split(s)[1] !in keys.registry
            || keys.cipher.unseal(keys.registry[Split(s)[1]], FromHex(Split(s)[2]), FromHex(Split(s)[4]), FromHex(Split(s)[3])).None?)
  {}

  /** Digits above nine are read in either case. */
  lemma EitherCase(hi: char, lo: char)
    requires 'a' <= hi <= 'f' && 'a' <= lo <= 'f'
    ensures FromHex([hi, lo]) == FromHex([hi - 'a' + 'A', lo - 'a' + 'A'])
    ensures FromHex([hi, lo]) == [16 * (hi as int - 'a' as int + 10) + (lo as int - 'a' as int + 10)]
  {
    assert [hi, lo][2..] == "" && [hi - 'a' + 'A', lo - 'a' + 'A'][2..] == "";
  }

  // ---------------------------------------------- round trips

  lemma FormatColons(version: string, iv: Bytes, sealed: Sealed)
    ensures Colons(Format(version, iv, sealed)) == 4 + Colons(version)
    ensures Tagged(Format(version, iv, sealed), version)
  {
    var a, b, c := ToHex(iv), ToHex(sealed.tag), ToHex(sealed.body);
    HexRoundTrip(iv);
    HexRoundTrip(sealed.tag);
    HexRoundTrip(sealed.body);
    assert Colons(":") == 1;
    assert Colons(PREFIX) == 1 by { assert PREFIX == "enc" + ":"; ColonsConcat("enc", ":"); assert Colons("enc") == 0 by { SplitEnc(); } }
    ColonsConcat(PREFIX, version);
    ColonsConcat(PREFIX + version, ":");
    ColonsConcat(PREFIX + version + ":", a);
    ColonsConcat(PREFIX + version + ":" + a, ":");
    ColonsConcat(PREFIX + version + ":" + a + ":", b);
    ColonsConcat(PREFIX + version + ":" + a + ":" + b, ":");
    ColonsConcat(PREFIX + version + ":" + a + ":" + b + ":", c);
  }

  lemma SplitEnc()
    ensures Colons("enc") == 0
  {
    assert "enc"[1..] == "nc" && "nc"[1..] == "c" && "c"[1..] == "";
    assert Colons("c") == 0;
    assert Colons("nc") == 0;
  }

  /** The five fields come back as they were printed. */
  lemma FormatSplits(version: string, iv: Bytes, sealed: Sealed)
    requires Colons(version) == 0
    ensures Split(Format(version, iv, sealed)) == ["enc", version, ToHex(iv), ToHex(sealed.tag), ToHex(sealed.body)]
  {
    var a, b, c := ToHex(iv), ToHex(sealed.tag), ToHex(sealed.body);
    HexRoundTrip(iv);
    HexRoundTrip(sealed.tag);
    HexRoundTrip(sealed.body);
    SplitEnc();
    SplitWhole("enc");
    assert PREFIX + version == "enc" + ":" + version;
    SplitLast("enc", version);
    SplitLast(PREFIX + version, a);
    SplitLast(PREFIX + version + ":" + a, b);
    SplitLast(PREFIX + version + ":" + a + ":" + b, c);
  }

  lemma OpenUndoesFormat(keys: Keys, version: string, iv: Bytes, p: string)
    requires Sound(keys.cipher) && version in keys.registry
    ensures var stored := Format(version, iv, keys.cipher.seal(keys.registry[version], iv, p));
            Decrypt(keys, Some(stored)) == if Colons(version) == 0 then Value(Some(p)) else Failed
  {
    var sealed := keys.cipher.seal(keys.registry[version], iv, p);
    var stored := Format(version, iv, sealed);
    FormatColons(version, iv, sealed);
    TaggedIsPrefixed(stored, version);
    PrefixedIsNotBlank(stored);
    SplitJoin(stored);
    if Colons(version) == 0 {
      FormatSplits(version, iv, sealed);
      HexRoundTrip(iv);
      HexRoundTrip(sealed.tag);
      HexRoundTrip(sealed.body);
    }
  }

  /** Decrypting what was just encrypted gives the plaintext back exactly when the version name
      contains no colon: for every registered version, every IV and every plaintext that is not
      blank and not already tagged with that version. */
  lemma RoundTripIff(keys: Keys, p: string, target: Option<string>, iv: Bytes)
    requires Sound(keys.cipher) && Chosen(keys, target) in keys.registry
    requires !IsBlank(p) && !Tagged(p, Chosen(keys, target))
    ensures Encrypt(keys, Some(p), target, iv).Value?
    ensures Decrypt(keys, Encrypt(keys, Some(p), target, iv).value) == Value(Some(p)) <==> Colons(Chosen(keys, target)) == 0
  {
    OpenUndoesFormat(keys, Chosen(keys, target), iv, p);
  }

  /** Nothing decrypts to itself: a plaintext is shorter than its stored form. */
  lemma DecryptShrinks(keys: Keys, stored: string)
    requires Sound(keys.cipher) && Prefixed(stored)
    ensures Decrypt(keys, Some(stored)) != Value(Some(stored))
  {
    PrefixedIsNotBlank(stored);
    SplitJoin(stored);
    var parts := Split(stored);
    if |parts| == 5 {
      LastPartShorter(parts);
    }
  }

  lemma LastPartShorter(parts: seq<string>)
    requires |parts| == 5
    ensures |parts[4]| < |Join(parts)|
  {
    assert parts[1..][1..][1..][1..] == [parts[4]];
    assert Join(parts[1..][1..][1..]) == parts[3] + ":" + parts[4];
    assert |Join(parts[1..][1..])| > |parts[4]|;
    assert |Join(parts[1..])| > |parts[4]|;
  }

  /** Encrypting a stored, non-blank value keeps its meaning exactly when the value is not in
      encrypted form yet, or already carries the tag of the version it would get. */
  lemma EncryptStoredIff(keys: Keys, x: string, target: Option<string>, iv: Bytes)
    requires Sound(keys.cipher) && Chosen(keys, target) in keys.registry && Colons(Chosen(keys, target)) == 0
    requires !IsBlank(x)
    ensures Encrypt(keys, Some(x), target, iv).Value?
    ensures Decrypt(keys, Encrypt(keys, Some(x), target, iv).value) == Decrypt(keys, Some(x))
            <==> !Prefixed(x) || Tagged(x, Chosen(keys, target))
  {
    if !Tagged(x, Chosen(keys, target)) {
      RoundTripIff(keys, x, target, iv);
      if Prefixed(x) {
        DecryptShrinks(keys, x);
      }
    }
  }

  /** Re-encryption keeps the decrypted value exactly when that value is neither blank nor itself
      tagged with the target version. */
  lemma ReencryptIff(keys: Keys, stored: string, target: string, iv: Bytes, d: string)
    requires Sound(keys.cipher) && target in keys.registry && target != "" && Colons(target) == 0
    requires Decrypt(keys, Some(stored)) == Value(Some(d))
    ensures Reencrypt(keys, Some(stored), target, iv).Value?
    ensures Decrypt(keys, Reencrypt(keys, Some(stored), target, iv).value) == Value(Some(d))
            <==> !IsBlank(d) && !Tagged(d, target)
  {
    if !IsBlank(d) {
      if Tagged(d, target) {
        TaggedIsPrefixed(d, target);
        DecryptShrinks(keys, d);
      } else {
        RoundTripIff(keys, d, Some(target), iv);
      }
    }
  }

  /** What re-encryption produces carries the target tag. */
  lemma ReencryptTags(keys: Keys, stored: Option<string>, target: string, iv: Bytes)
    requires target != ""
    requires Reencrypt(keys, stored, target, iv).Value? && Reencrypt(keys, stored, target, iv).value.Some?
    ensures Tagged(Reencrypt(keys, stored, target, iv).value.value, target)
  {
    var d := Decrypt(keys, stored).value;
    if !Tagged(d.value, target) {
      FormatColons(target, iv, keys.cipher.seal(keys.registry[target], iv, d.value));
    }
  }

  // ---------------------------------------------- the key registry

  datatype Config = Config(key: Option<string>, keyV2: Option<string>, active: Option<string>, production: bool)

  const DEV_KEY := "dev_bank_encryption_key_32_bytes_hex_1234567890abcdef1234567890abcdef"

  function Given(s: Option<string>): (r: Option<string>)
    ensures r.Some? ==> r.value != ""
  {
    if s.Some? && s.value != "" then s else None
  }

  class BankEncryption {
    const cipher: Cipher
    const derive: string -> Bytes
    const active: string
    const configured: bool
    var registry: map<string, Bytes>

    function KeyRing(): (keys: Keys)
      reads this
    {
      Keys.Keys(cipher, registry, active)
    }

    /** `configured` is false when the service refuses to start. */
    constructor (cipher: Cipher, derive: string -> Bytes, config: Config)
      ensures this.cipher == cipher && this.derive == derive
      ensures configured <==> !config.production || (Given(config.key).Some? && !("dev_" <= config.key.value))
      ensures registry.Keys == if Given(config.keyV2).Some? then {"v1", "v2"} else {"v1"}
      ensures registry["v1"] == derive(if Given(config.key).Some? then config.key.value else DEV_KEY)
      ensures "v2" in registry ==> registry["v2"] == derive(config.keyV2.value)
      ensures Given(config.active).Some? ==> active == config.active.value
      ensures Given(config.active).None? ==>
                active == (if "v2" in registry then "v2" else "v1") && active in registry && Colons(active) == 0
    {
      var rawKey := if Given(config.key).Some? then config.key.value else DEV_KEY;
      configured := !(config.production && (Given(config.key).None? || "dev_" <= rawKey));
      var keys := map["v1" := derive(rawKey)];
      if Given(config.keyV2).Some? {
        keys := keys["v2" := derive(config.keyV2.value)];
      }
      var chosen := if Given(config.active).Some? then config.active.value
                    else if Given(config.keyV2).Some? then "v2" else "v1";
      this.cipher, this.derive, active, registry := cipher, derive, chosen, keys;
      new;
      assert "v1"[1..] == "1" && "1"[1..] == "" && "v2"[1..] == "2" && "2"[1..] == "";
      assert Colons("1") == 0 && Colons("2") == 0;
    }

    method RegisterKeyVersion(version: string, key: string)
      modifies this
      ensures registry == old(registry)[version := derive(key)]
      ensures forall stored: string {:trigger Decrypt(KeyRing(), Some(stored))} ::
                |Split(stored)| != 5 || Split(stored)[1] != version
                ==> Decrypt(KeyRing(), Some(stored)) == old(Decrypt(KeyRing(), Some(stored)))
    {
      registry := registry[version := derive(key)];
    }
  }
}
