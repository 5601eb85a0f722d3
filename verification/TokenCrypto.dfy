/**
 Token formats v1 and v2 of apps/api/src/crypto.ts and their reading under key
 rotation. The cipher is ideal: what one key sealed opens under that key only.
 */
module TokenCrypto {
  import opened Wrappers
  import opened Base64Url
  import opened DotSplit

  type Key = nat
  type Bytes = seq<byte>

  datatype Sealed = Sealed(ct: Bytes, tag: Bytes)

  /** AES-256-GCM, HMAC-SHA256 and the key id hash, as far as the token code uses them. */
  datatype Primitives = Primitives(
    seal: (Key, Bytes, string) -> Sealed,
    open: (Key, Bytes, Sealed) -> Option<string>,
    derive: (string, string) -> Key,
    keyIdFor: string -> string)

  ghost predicate Ideal(c: Primitives) {
    && (forall k: Key, k': Key, iv: Bytes, p: string ::
          c.open(k', iv, c.seal(k, iv, p)) == if k' == k then Some(p) else None)
    && (forall secret: string :: c.keyIdFor(secret) != "" && '.' !in c.keyIdFor(secret))
  }

  /** The environment; an unset variable is the empty string. */
  datatype Env = Env(current: string, previous: string, writeV2: bool)

  datatype KeyringEntry = KeyringEntry(keyId: string, secret: string)

  function Keyring(c: Primitives, env: Env): seq<KeyringEntry> {
    (if env.current != "" then [KeyringEntry(c.keyIdFor(env.current), env.current)] else [])
    + (if env.previous != "" && env.previous != env.current then [KeyringEntry(c.keyIdFor(env.previous), env.previous)] else [])
  }

  function Encrypted(c: Primitives, env: Env, plaintext: string, ws: string, iv: Bytes): Result<string> {
    if env.current == "" then Err("ENCRYPTION_SECRET not set")
    else
      var sealed := c.seal(c.derive(env.current, ws), iv, plaintext);
      if env.writeV2 then Ok(V2Token(c.keyIdFor(env.current), Payload(iv, sealed)))
      else Ok(V1Token(Payload(iv, sealed)))
  }

  function V1Token(payload: string): string {
    ['e', 'n', 'c', ':'] + payload
  }

  function V2Token(keyId: string, payload: string): string {
    V1Token(['v', '2', ':'] + (keyId + ['.'] + payload))
  }

  function Payload(iv: Bytes, sealed: Sealed): string {
    B64Url(iv) + ['.'] + (B64Url(sealed.ct) + ['.'] + B64Url(sealed.tag))
  }

  // ── Parsing ───────────────────────────────────────────────────────────────

  predicate HasEncPrefix(s: string) {
    |s| >= 4 && s[0] == 'e' && s[1] == 'n' && s[2] == 'c' && s[3] == ':'
  }

  predicate HasV2Prefix(s: string) {
    |s| >= 3 && s[0] == 'v' && s[1] == '2' && s[2] == ':'
  }

  datatype Parsed =
    | V1(iv: string, ct: string, tag: string)
    | V2(keyId: string, iv: string, ct: string, tag: string)
    | Malformed(reason: string)

  function ParseV1(raw: string): Parsed {
    var parts := SplitDots(raw);
    if |parts| != 3 then Malformed("Invalid encrypted token format") else V1(parts[0], parts[1], parts[2])
  }

  function ParseV2(rest: string): Parsed {
    var firstDot := IndexOfDot(rest);
    if firstDot < 1 then Malformed("Invalid encrypted token format (v2 keyId)")
    else
      var parts := SplitDots(rest[firstDot + 1..]);
      if |parts| != 3 then Malformed("Invalid encrypted token format (v2 payload)")
      else V2(rest[..firstDot], parts[0], parts[1], parts[2])
  }

  function Parse(token: string): Parsed {
    var raw := if HasEncPrefix(token) then token[4..] else token;
    if HasV2Prefix(raw) then ParseV2(raw[3..]) else ParseV1(raw)
  }

  function OpenWith(c: Primitives, secret: string, ws: string, iv: string, ct: string, tag: string): Result<string> {
    match c.open(c.derive(secret, ws), FromB64Url(iv), Sealed(FromB64Url(ct), FromB64Url(tag)))
    case Some(p) => Ok(p)
    case None => Err("unable to authenticate data")
  }

  /** The first entry of the ring with the key id. */
  function FindKey(ring: seq<KeyringEntry>, keyId: string): Option<KeyringEntry> {
    if ring == [] then None else if ring[0].keyId == keyId then Some(ring[0]) else FindKey(ring[1..], keyId)
  }

  function OpenParsed(c: Primitives, secret: string, ws: string, t: Parsed): Result<string>
    requires !t.Malformed?
  {
    OpenWith(c, secret, ws, t.iv, t.ct, t.tag)
  }

  /** A v2 token is read with the one secret it names. */
  predicate ReadsV2(c: Primitives, ring: seq<KeyringEntry>, ws: string, t: Parsed, r: Result<string>)
    requires t.V2?
  {
    var entry := FindKey(ring, t.keyId);
    if entry.None? then r.Err? else r == OpenParsed(c, entry.value.secret, ws, t)
  }

  predicate FailsBefore(c: Primitives, ring: seq<KeyringEntry>, ws: string, t: Parsed, k: nat)
    requires !t.Malformed? && k <= |ring|
  {
    forall j :: 0 <= j < k ==> OpenParsed(c, ring[j].secret, ws, t).Err?
  }

  /** A v1 token is read with the first secret of the ring that opens it. */
  predicate ReadsV1(c: Primitives, ring: seq<KeyringEntry>, ws: string, t: Parsed, r: Result<string>)
    requires t.V1?
  {
    && (r.Err? ==> FailsBefore(c, ring, ws, t, |ring|))
    && (r.Ok? ==> exists k: nat | k < |ring| :: OpenParsed(c, ring[k].secret, ws, t) == r && FailsBefore(c, ring, ws, t, k))
  }

  /** The loop of `decrypt` over the whole ring. */
  method DecryptV1(c: Primitives, ring: seq<KeyringEntry>, t: Parsed, ws: string) returns (r: Result<string>)
    requires t.V1?
    ensures ReadsV1(c, ring, ws, t, r)
  {
    if |ring| == 0 {
      return Err("ENCRYPTION_SECRET not set");
    }
    var lastErr := "";
    for k := 0 to |ring|
      invariant FailsBefore(c, ring, ws, t, k)
    {
      r := OpenParsed(c, ring[k].secret, ws, t);
      if r.Ok? {
        return;
      }
      lastErr := r.error;
    }
    r := Err(lastErr);
  }

  /** `decrypt`: a v2 token names its key, a v1 token is tried against the whole ring. */
  method Decrypt(c: Primitives, env: Env, token: string, ws: string) returns (r: Result<string>)
    ensures Parse(token).Malformed? ==> r == Err(Parse(token).reason)
    ensures Parse(token).V2? ==> ReadsV2(c, Keyring(c, env), ws, Parse(token), r)
    ensures Parse(token).V1? ==> ReadsV1(c, Keyring(c, env), ws, Parse(token), r)
  {
    var t := Parse(token);
    match t {
      case Malformed(reason) => r := Err(reason);
      case V2(keyId, _, _, _) =>
        var entry := FindKey(Keyring(c, env), keyId);
        if entry.None? {
          r := Err("No encryption key in keyring for keyId " + keyId);
        } else {
          r := OpenParsed(c, entry.value.secret, ws, t);
        }
      case V1(_, _, _) => r := DecryptV1(c, Keyring(c, env), t, ws);
    }
  }

  // ── The two grammars ──────────────────────────────────────────────────────

  lemma NoDot(b: Bytes)
    ensures '.' !in B64Url(b) && ':' !in B64Url(b)
  {
    B64UrlAlphabet(b);
  }

  lemma ThreeParts(x: string, y: string, z: string)
    requires '.' !in x && '.' !in y && '.' !in z
    ensures SplitDots(x + ['.'] + (y + ['.'] + z)) == [x, y, z]
  {
    SplitFirst(x, y + ['.'] + z);
    SplitFirst(y, z);
    assert SplitDots(z) == [z];
  }

  lemma PayloadSplits(iv: Bytes, sealed: Sealed)
    ensures SplitDots(Payload(iv, sealed)) == [B64Url(iv), B64Url(sealed.ct), B64Url(sealed.tag)]
    ensures ':' !in Payload(iv, sealed)
  {
    NoDot(iv);
    NoDot(sealed.ct);
    NoDot(sealed.tag);
    ThreeParts(B64Url(iv), B64Url(sealed.ct), B64Url(sealed.tag));
  }

  lemma ParseOfV1(payload: string)
    requires ':' !in payload
    ensures Parse(V1Token(payload)) == ParseV1(payload)
  {
    assert V1Token(payload)[4..] == payload;
  }

  lemma ParseOfV2Rest(keyId: string, payload: string)
    requires '.' !in keyId && keyId != "" && |SplitDots(payload)| == 3
    ensures var parts := SplitDots(payload); ParseV2(keyId + ['.'] + payload) == V2(keyId, parts[0], parts[1], parts[2])
  {
    var rest := keyId + ['.'] + payload;
    FirstDotAt(keyId, payload);
    assert rest[|keyId| + 1..] == payload && rest[..|keyId|] == keyId;
  }

  lemma ParseOfV2(rest: string)
    ensures Parse(V1Token(['v', '2', ':'] + rest)) == ParseV2(rest)
  {
    var raw := ['v', '2', ':'] + rest;
    assert V1Token(raw)[4..] == raw && raw[3..] == rest;
  }

  /** What `encrypt` puts in a token, in the version it writes. */
  function Written(c: Primitives, env: Env, plaintext: string, ws: string, iv: Bytes): Parsed {
    var sealed := c.seal(c.derive(env.current, ws), iv, plaintext);
    if env.writeV2 then V2(c.keyIdFor(env.current), B64Url(iv), B64Url(sealed.ct), B64Url(sealed.tag))
    else V1(B64Url(iv), B64Url(sealed.ct), B64Url(sealed.tag))
  }

  /** What a token is read as is what was written: version, key id and every part. */
  lemma ParseOfEncrypted(c: Primitives, env: Env, plaintext: string, ws: string, iv: Bytes)
    requires Ideal(c) && env.current != ""
    ensures Encrypted(c, env, plaintext, ws, iv).Ok?
    ensures Parse(Encrypted(c, env, plaintext, ws, iv).value) == Written(c, env, plaintext, ws, iv)
  {
    var sealed := c.seal(c.derive(env.current, ws), iv, plaintext);
    var payload := Payload(iv, sealed);
    PayloadSplits(iv, sealed);
    if env.writeV2 {
      ParseOfV2(c.keyIdFor(env.current) + ['.'] + payload);
      ParseOfV2Rest(c.keyIdFor(env.current), payload);
    } else {
      ParseOfV1(payload);
    }
  }

  predicate SameKey(c: Primitives, reader: string, writer: string, ws: string) {
    c.derive(reader, ws) == c.derive(writer, ws)
  }

  /** The text of a token: both formats, written out. */
  lemma TokenText(c: Primitives, env: Env, plaintext: string, ws: string, iv: Bytes)
    requires env.current != ""
    ensures var sealed := c.seal(c.derive(env.current, ws), iv, plaintext);
            var body := B64Url(iv) + "." + (B64Url(sealed.ct) + "." + B64Url(sealed.tag));
            && (env.writeV2 ==> Encrypted(c, env, plaintext, ws, iv) == Ok("enc:" + ("v2:" + (c.keyIdFor(env.current) + "." + body))))
            && (!env.writeV2 ==> Encrypted(c, env, plaintext, ws, iv) == Ok("enc:" + body))
  {
  }

  lemma CutAtDot(s: string, i: nat)
    requires i < |s| && s[i] == '.'
    ensures s == s[..i] + (['.'] + s[i + 1..])
  {
  }

  lemma SplitHead(s: string, x: string, rest: seq<string>) returns (t: string)
    requires SplitDots(s) == [x] + rest && rest != []
    ensures '.' !in x && s == x + (['.'] + t) && SplitDots(t) == rest
  {
    var i := IndexOfDot(s);
    t := s[i + 1..];
    CutAtDot(s, i);
    assert ([x] + rest)[1..] == rest && ([x] + rest)[0] == x;
    assert ([s[..i]] + SplitDots(t))[1..] == SplitDots(t);
  }

  lemma OnePart(s: string, z: string)
    requires SplitDots(s) == [z]
    ensures s == z && '.' !in z
  {
    assert [z][0] == z;
  }

  lemma PartsBack(s: string, x: string, y: string, z: string)
    requires SplitDots(s) == [x, y, z]
    ensures s == x + (['.'] + (y + (['.'] + z))) && '.' !in x && '.' !in y && '.' !in z
  {
    assert [x, y, z] == [x] + [y, z] && [y, z] == [y] + [z];
    var t := SplitHead(s, x, [y, z]);
    var u := SplitHead(t, y, [z]);
    OnePart(u, z);
  }

  /** Three parts are what two dots leave. */
  lemma ThreePartsIff(s: string, x: string, y: string, z: string)
    ensures SplitDots(s) == [x, y, z] <==> s == x + "." + (y + "." + z) && '.' !in x && '.' !in y && '.' !in z
  {
    if SplitDots(s) == [x, y, z] {
      PartsBack(s, x, y, z);
      assert x + (['.'] + (y + (['.'] + z))) == x + ['.'] + (y + ['.'] + z);
    }
    if s == x + "." + (y + "." + z) && '.' !in x && '.' !in y && '.' !in z {
      ThreeParts(x, y, z);
    }
  }

  predicate Starts(s: string, prefix: string) {
    |prefix| <= |s| && s[..|prefix|] == prefix
  }

  /** With or without its "enc:", a text that does not go on with "v2:" is a v1 token exactly when two dots cut it in three. */
  lemma ReadsV1Text(text: string, x: string, y: string, z: string)
    requires !Starts(text, "enc:") && !Starts(text, "v2:")
    ensures Parse("enc:" + text) == Parse(text) && !Parse(text).V2?
    ensures Parse(text) == V1(x, y, z) <==> text == x + "." + (y + "." + z) && '.' !in x && '.' !in y && '.' !in z
  {
    NotPrefixed(text);
    ThreePartsIff(text, x, y, z);
  }

  lemma NotPrefixed(text: string)
    ensures HasEncPrefix(text) <==> Starts(text, "enc:")
    ensures HasV2Prefix(text) <==> Starts(text, "v2:")
    ensures HasEncPrefix("enc:" + text) && ("enc:" + text)[4..] == text
  {
    if |text| >= 4 {
      assert text[..4] == [text[0], text[1], text[2], text[3]];
    }
    if |text| >= 3 {
      assert text[..3] == [text[0], text[1], text[2]];
    }
  }

  /** One that does is a v2 token exactly when a non-empty key id and three parts follow. */
  lemma ReadsV2Text(rest: string, keyId: string, x: string, y: string, z: string)
    ensures Parse("enc:" + ("v2:" + rest)) == Parse("v2:" + rest) && !Parse("v2:" + rest).V1?
    ensures Parse("v2:" + rest) == V2(keyId, x, y, z) <==>
              && rest == keyId + "." + (x + "." + (y + "." + z))
              && keyId != "" && '.' !in keyId && '.' !in x && '.' !in y && '.' !in z
  {
    var text := "v2:" + rest;
    NotPrefixed(text);
    assert Starts(text, "v2:") && !Starts(text, "enc:") && text[3..] == rest;
    V2Parts(rest, keyId, x, y, z);
  }

  lemma V2Parts(rest: string, keyId: string, x: string, y: string, z: string)
    ensures ParseV2(rest) == V2(keyId, x, y, z) <==>
              && rest == keyId + "." + (x + "." + (y + "." + z))
              && keyId != "" && '.' !in keyId && '.' !in x && '.' !in y && '.' !in z
  {
    var i := IndexOfDot(rest);
    if i >= 1 {
      assert rest == rest[..i] + "." + rest[i + 1..];
      ThreePartsIff(rest[i + 1..], x, y, z);
    }
    if rest == keyId + "." + (x + "." + (y + "." + z)) && '.' !in keyId {
      FirstDotAt(keyId, x + "." + (y + "." + z));
      assert rest[..i] == keyId && rest[i + 1..] == x + "." + (y + "." + z);
    }
  }

  lemma OpensWritten(c: Primitives, env: Env, reader: string, ws: string, iv: Bytes, plaintext: string)
    requires Ideal(c)
    ensures OpenParsed(c, reader, ws, Written(c, env, plaintext, ws, iv))
            == if c.derive(reader, ws) == c.derive(env.current, ws) then Ok(plaintext) else Err("unable to authenticate data")
  {
    var sealed := c.seal(c.derive(env.current, ws), iv, plaintext);
    RoundTrip(iv);
    RoundTrip(sealed.ct);
    RoundTrip(sealed.tag);
    assert Sealed(sealed.ct, sealed.tag) == sealed;
  }

  // ── Rotation ──────────────────────────────────────────────────────────────

  /** The exact condition for reading a token: some secret of the ring has the key, or the one with the key id does. */
  predicate CanRead(c: Primitives, read: Env, write: Env, ws: string) {
    var ring := Keyring(c, read);
    if write.writeV2 then
      var entry := FindKey(ring, c.keyIdFor(write.current));
      entry.Some? && SameKey(c, entry.value.secret, write.current, ws)
    else exists k: nat | k < |ring| :: SameKey(c, ring[k].secret, write.current, ws)
  }

  /**
   The same on the environments: the current secret, if it has the token's key id
   (any id will do for v1), decides a v2 token; else the previous one does.
   */
  lemma CanReadIff(c: Primitives, read: Env, write: Env, ws: string)
    ensures CanRead(c, read, write, ws) <==>
      var key, id := c.derive(write.current, ws), c.keyIdFor(write.current);
      if write.writeV2 then
        if read.current != "" && c.keyIdFor(read.current) == id then c.derive(read.current, ws) == key
        else read.previous != "" && c.keyIdFor(read.previous) == id && c.derive(read.previous, ws) == key
      else (read.current != "" && c.derive(read.current, ws) == key) || (read.previous != "" && c.derive(read.previous, ws) == key)
  {
    var ring, id := Keyring(c, read), c.keyIdFor(write.current);
    var a, b := KeyringEntry(c.keyIdFor(read.current), read.current), KeyringEntry(c.keyIdFor(read.previous), read.previous);
    if read.current == "" {
      assert ring == if read.previous == "" then [] else [b];
      FindOne(b, id);
    } else if read.previous == "" || read.previous == read.current {
      assert ring == [a];
      FindOne(a, id);
    } else {
      assert ring == [a, b];
      FindTwo(a, b, id);
    }
    assert (exists k: nat | k < |ring| :: SameKey(c, ring[k].secret, write.current, ws)) <==>
      (|ring| > 0 && SameKey(c, ring[0].secret, write.current, ws)) || (|ring| > 1 && SameKey(c, ring[1].secret, write.current, ws));
  }

  lemma FindOne(a: KeyringEntry, keyId: string)
    ensures FindKey([a], keyId) == if a.keyId == keyId then Some(a) else None
  {
    assert [a][1..] == [];
  }

  lemma FindTwo(a: KeyringEntry, b: KeyringEntry, keyId: string)
    ensures FindKey([a, b], keyId) == if a.keyId == keyId then Some(a) else if b.keyId == keyId then Some(b) else None
  {
    assert [a, b][1..] == [b];
    FindOne(b, keyId);
  }

  /** Encrypt under one environment, decrypt under another. */
  method RoundTripAcrossEnvs(c: Primitives, write: Env, read: Env, plaintext: string, ws: string, iv: Bytes)
    returns (r: Result<string>)
    requires Ideal(c) && write.current != ""
    ensures r.Ok? <==> CanRead(c, read, write, ws)
    ensures r.Ok? ==> r.value == plaintext
  {
    ParseOfEncrypted(c, write, plaintext, ws, iv);
    r := Decrypt(c, read, Encrypted(c, write, plaintext, ws, iv).value, ws);
    var t := Written(c, write, plaintext, ws, iv);
    forall reader: string
      ensures OpenParsed(c, reader, ws, t)
              == if SameKey(c, reader, write.current, ws) then Ok(plaintext) else Err("unable to authenticate data")
    {
      OpensWritten(c, write, reader, ws, iv, plaintext);
    }
  }

  /** The ring still holds the writing secret, and no newer secret shadows its key id. */
  predicate Holds(c: Primitives, read: Env, secret: string) {
    && secret != ""
    && (read.current == secret
        || (read.previous == secret && (read.current == "" || c.keyIdFor(read.current) != c.keyIdFor(secret))))
  }

  lemma HolderReads(c: Primitives, read: Env, write: Env, ws: string)
    requires Holds(c, read, write.current)
    ensures CanRead(c, read, write, ws)
  {
    var ring := Keyring(c, read);
    var k: nat := if read.current == write.current then 0 else |ring| - 1;
    assert ring[k] == KeyringEntry(c.keyIdFor(write.current), write.current);
    assert SameKey(c, ring[k].secret, write.current, ws);
    if k == 1 {
      assert ring[1..] == [ring[1]];
    }
  }

  /** `Rotate`: a new current secret, the old one kept as previous. */
  function Rotate(env: Env, secret: string): Env {
    Env(secret, env.current, env.writeV2)
  }

  /** Tokens survive one rotation in either mode, whatever mode is written afterwards. */
  lemma SurvivesOneRotation(c: Primitives, env: Env, secret: string, ws: string)
    requires env.current != "" && c.keyIdFor(secret) != c.keyIdFor(env.current)
    ensures CanRead(c, Rotate(env, secret), env, ws)
  {
    HolderReads(c, Rotate(env, secret), env, ws);
  }

  lemma {:induction false} FoundIsInRing(ring: seq<KeyringEntry>, keyId: string)
    ensures FindKey(ring, keyId).Some? ==> FindKey(ring, keyId).value in ring
  {
    if ring != [] && ring[0].keyId != keyId {
      FoundIsInRing(ring[1..], keyId);
    }
  }

  /** The second rotation loses them, unless a newer secret happens to derive the same key. */
  lemma LostByTwoRotations(c: Primitives, env: Env, first: string, second: string, ws: string)
    requires !SameKey(c, first, env.current, ws) && !SameKey(c, second, env.current, ws)
    ensures !CanRead(c, Rotate(Rotate(env, first), second), env, ws)
  {
    var ring := Keyring(c, Rotate(Rotate(env, first), second));
    assert forall e :: e in ring ==> e.secret == first || e.secret == second;
    FoundIsInRing(ring, c.keyIdFor(env.current));
  }

  /** A newer secret with the old one's key id hides it from v2 tokens, though v1 tokens are still read. */
  lemma KeyIdCollisionHidesV2(c: Primitives, env: Env, secret: string, ws: string)
    requires env.current != "" && secret != "" && secret != env.current
    requires c.keyIdFor(secret) == c.keyIdFor(env.current) && !SameKey(c, secret, env.current, ws)
    ensures CanRead(c, Rotate(env, secret), env, ws) <==> !env.writeV2
  {
    var ring := Keyring(c, Rotate(env, secret));
    assert ring[0].secret == secret && ring[1].secret == env.current;
    assert SameKey(c, ring[1].secret, env.current, ws);
  }
}
