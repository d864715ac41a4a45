/** The KMS ciphertext envelope and the encryption context bound into it. */
module Envelope {
  import opened Values
  import opened TextKeys

  newtype Byte = x: int | 0 <= x < 256

  type Bytes = seq<Byte>

  type Context = map<string, string>

  /** Authenticated encryption over key, nonce, additional data and text. */
  datatype Aead = Aead(
    seal: (Bytes, Bytes, Bytes, Bytes) -> Bytes,
    open: (Bytes, Bytes, Bytes, Bytes) -> Option<Bytes>)

  /** What was sealed opens to the same text, under the same key, nonce and data only, and
      nothing else opens. */
  ghost predicate Ideal(c: Aead) {
    && (forall k, n, a, p :: |c.seal(k, n, a, p)| >= 1 && c.open(k, n, a, c.seal(k, n, a, p)) == Some(p))
    && (forall k, n, a, p, k', n', a' ::
          c.open(k', n', a', c.seal(k, n, a, p)).Some? ==> k' == k && n' == n && a' == a)
    && (forall k, n, a, s :: c.open(k, n, a, s).Some? ==> s == c.seal(k, n, a, c.open(k, n, a, s).value))
  }

  datatype Material = Material(id: string, bytes: Bytes)

  const VERSION: Byte := 1
  const ALGO: Byte := 1
  const KEY_ID_OFFSET := 1
  const KEY_ID_LEN := 36
  const ALGO_OFFSET := 37
  const NONCE_OFFSET := 38
  const NONCE_LEN := 12
  const SEALED_OFFSET := 50

  /** The layout: version, key ID, algorithm, nonce, sealed text. */
  function Laid(keyId: Bytes, nonce: Bytes, sealed: Bytes): Bytes {
    [VERSION] + keyId + [ALGO] + nonce + sealed
  }

  /** `copy(out[at:], src)` where there is room. */
  method CopyTo(out: array<Byte>, at: nat, src: Bytes)
    requires at + |src| <= out.Length
    modifies out
    ensures out[..] == old(out[..at]) + src + old(out[at + |src|..])
  {
    for i := 0 to |src|
      invariant forall j :: 0 <= j < out.Length ==>
                  out[j] == if at <= j < at + i then src[j - at] else old(out[j])
    {
      out[at + i] := src[i];
    }
  }

  /** `sealEnvelope`. */
  method SealEnvelope(c: Aead, keyId: Bytes, m: Material, text: Bytes, aad: Bytes, nonce: Bytes) returns (out: array<Byte>)
    requires |keyId| == KEY_ID_LEN && |nonce| == NONCE_LEN
    ensures fresh(out) && out[..] == Laid(keyId, nonce, c.seal(m.bytes, nonce, aad, text))
  {
    var sealed := c.seal(m.bytes, nonce, aad, text);
    out := new Byte[SEALED_OFFSET + |sealed|];
    out[0] := VERSION;
    CopyTo(out, KEY_ID_OFFSET, keyId);
    ghost var step := out[..];
    assert step[0] == VERSION && step[KEY_ID_OFFSET..ALGO_OFFSET] == keyId;
    out[ALGO_OFFSET] := ALGO;
    CopyTo(out, NONCE_OFFSET, nonce);
    ghost var step2 := out[..];
    assert step2[0] == VERSION && step2[KEY_ID_OFFSET..ALGO_OFFSET] == keyId && step2[ALGO_OFFSET] == ALGO;
    assert step2[NONCE_OFFSET..SEALED_OFFSET] == nonce;
    CopyTo(out, SEALED_OFFSET, sealed);
    assert out[..] == step2[..SEALED_OFFSET] + sealed;
    LaidFrom(step2[..SEALED_OFFSET], keyId, nonce, sealed);
  }

  lemma LaidFrom(head: Bytes, keyId: Bytes, nonce: Bytes, sealed: Bytes)
    requires |head| == SEALED_OFFSET && head[0] == VERSION && head[ALGO_OFFSET] == ALGO
    requires head[KEY_ID_OFFSET..ALGO_OFFSET] == keyId && head[NONCE_OFFSET..] == nonce
    ensures head + sealed == Laid(keyId, nonce, sealed)
  {
    assert head == [VERSION] + head[KEY_ID_OFFSET..ALGO_OFFSET] + [ALGO] + head[NONCE_OFFSET..];
  }

  function KeyIdOf(blob: Bytes): Bytes
    requires |blob| > SEALED_OFFSET
  {
    blob[KEY_ID_OFFSET..KEY_ID_OFFSET + KEY_ID_LEN]
  }

  /** `openEnvelope`: the text, or None. */
  function OpenEnvelope(c: Aead, blob: Bytes, m: Material, aad: Bytes): Option<Bytes> {
    if |blob| < SEALED_OFFSET + 1 || blob[0] != VERSION || blob[ALGO_OFFSET] != ALGO then None
    else c.open(m.bytes, blob[NONCE_OFFSET..SEALED_OFFSET], aad, blob[SEALED_OFFSET..])
  }

  lemma LaidParts(keyId: Bytes, nonce: Bytes, sealed: Bytes)
    requires |keyId| == KEY_ID_LEN && |nonce| == NONCE_LEN && |sealed| >= 1
    ensures var blob := Laid(keyId, nonce, sealed);
            && |blob| > SEALED_OFFSET && blob[0] == VERSION && KeyIdOf(blob) == keyId && blob[ALGO_OFFSET] == ALGO
            && blob[NONCE_OFFSET..SEALED_OFFSET] == nonce && blob[SEALED_OFFSET..] == sealed
  {
  }

  /** Opening undoes sealing under the same material and data, and fails under any
      other; two envelopes with the same bytes are for the same key. */
  lemma OpenSealed(c: Aead, keyId: Bytes, m: Material, text: Bytes, aad: Bytes, nonce: Bytes, m': Material, aad': Bytes)
    requires Ideal(c) && |keyId| == KEY_ID_LEN && |nonce| == NONCE_LEN
    ensures var blob := Laid(keyId, nonce, c.seal(m.bytes, nonce, aad, text));
            && |blob| > SEALED_OFFSET && blob[0] == VERSION && KeyIdOf(blob) == keyId
            && OpenEnvelope(c, blob, m', aad') == (if m'.bytes == m.bytes && aad' == aad then Some(text) else None)
  {
    hide Laid;
    var sealed := c.seal(m.bytes, nonce, aad, text);
    LaidParts(keyId, nonce, sealed);
    assert c.open(m.bytes, nonce, aad, sealed) == Some(text);
  }

  /** What opens is an envelope that the material sealed for the key it names. */
  lemma OpenedWasSealed(c: Aead, blob: Bytes, m: Material, aad: Bytes)
    requires Ideal(c) && OpenEnvelope(c, blob, m, aad).Some?
    ensures |blob| > SEALED_OFFSET
    ensures var text := OpenEnvelope(c, blob, m, aad).value;
            blob == Laid(KeyIdOf(blob), blob[NONCE_OFFSET..SEALED_OFFSET],
                         c.seal(m.bytes, blob[NONCE_OFFSET..SEALED_OFFSET], aad, text))
  {
    LaidFrom(blob[..SEALED_OFFSET], KeyIdOf(blob), blob[NONCE_OFFSET..SEALED_OFFSET], blob[SEALED_OFFSET..]);
    assert blob == blob[..SEALED_OFFSET] + blob[SEALED_OFFSET..];
  }

  // ---- the encryption context

  type Pairs = seq<(string, string)>

  function PairsOf(ctx: Context, keys: seq<string>): Pairs
    requires forall k :: k in keys ==> k in ctx
  {
    seq(|keys|, i requires 0 <= i < |keys| => (keys[i], ctx[keys[i]]))
  }

  /** `marshalContext`: the keys come in whatever order the map yields them, and are
      sorted before the pairs are written as JSON. */
  method MarshalContext(json: Pairs -> Bytes, ctx: Context) returns (aad: Bytes)
    ensures Marshals(json, ctx, aad)
  {
    hide Listed;
    KeysOf(ctx);
    if ctx == map[] {
      return [];
    }
    var keys := SortKeys(ctx.Keys);
    var pairs: Pairs := [];
    for i := 0 to |keys|
      invariant pairs == PairsOf(ctx, keys[..i])
    {
      assert keys[..i + 1] == keys[..i] + [keys[i]] && keys[i] in keys;
      pairs := pairs + [(keys[i], ctx[keys[i]])];
    }
    assert keys[..|keys|] == keys;
    aad := json(pairs);
  }

  lemma KeysOf(ctx: Context)
    ensures forall k :: k in SortedKeys(ctx.Keys) <==> k in ctx
  {
  }

  /** The additional data of a context. */
  ghost predicate Marshals(json: Pairs -> Bytes, ctx: Context, aad: Bytes) {
    KeysOf(ctx);
    aad == if ctx == map[] then [] else json(PairsOf(ctx, SortedKeys(ctx.Keys)))
  }

  /** JSON text tells lists of pairs apart, and is never empty. */
  ghost predicate Faithful(json: Pairs -> Bytes) {
    (forall p, q :: json(p) == json(q) ==> p == q) && forall p :: json(p) != []
  }

  /** The data is the same each time, and different contexts never share it. */
  lemma ContextsApart(json: Pairs -> Bytes, one: Context, two: Context, a: Bytes, b: Bytes)
    requires Faithful(json) && Marshals(json, one, a) && Marshals(json, two, b)
    ensures a == b <==> one == two
  {
    hide Listed;
    KeysOf(one);
    KeysOf(two);
    if one != map[] && two != map[] && a == b {
      SamePairs(one, two, SortedKeys(one.Keys), SortedKeys(two.Keys));
    }
  }

  lemma SamePairs(one: Context, two: Context, ks: seq<string>, ls: seq<string>)
    requires (forall k :: k in ks <==> k in one) && (forall k :: k in ls <==> k in two)
    requires PairsOf(one, ks) == PairsOf(two, ls)
    ensures one == two
  {
    var ps := PairsOf(one, ks);
    assert |ks| == |ls|;
    forall i | 0 <= i < |ks|
      ensures ks[i] == ls[i] && one[ks[i]] == two[ks[i]]
    {
      assert ps[i] == (ks[i], one[ks[i]]);
      assert ps[i] == PairsOf(two, ls)[i];
    }
    assert ks == ls;
    forall k
      ensures k in one <==> k in two
      ensures k in one ==> one[k] == two[k]
    {
      if k in one {
        assert k in ks;
      }
    }
  }
}
