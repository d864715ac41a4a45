/** KMS keys: state changes, on-demand rotation that may fail part-way, and the data
    plane that reads what earlier materials sealed. */
module KeyRotation {
  import opened Values
  import opened Envelope

  datatype KeyState = Enabled | Disabled | PendingDeletion

  datatype Rotation = OnDemand | Automatic

  /** The files of one key: metadata, current material, the directory of earlier ones
      by material ID, and the rotation history. */
  datatype KeyFiles = KeyFiles(
    state: KeyState,
    symmetric: bool,
    encrypts: bool,
    material: Option<Material>,
    previous: map<string, Material>,
    history: seq<Rotation>)

  const MAX_ON_DEMAND := 25

  function OnDemandCount(history: seq<Rotation>): (n: nat)
    ensures n == multiset(history)[OnDemand]
  {
    assert history != [] ==> history == history[..|history| - 1] + [history[|history| - 1]];
    if history == [] then 0
    else OnDemandCount(history[..|history| - 1]) + if history[|history| - 1] == OnDemand then 1 else 0
  }

  /** `ever` lists every material that was current, in order: the last still is, and the
      others are all in the directory. */
  predicate KeyOk(k: KeyFiles, ever: seq<Material>) {
    && k.material == (if ever == [] then None else Some(ever[|ever| - 1]))
    && (forall i :: 0 <= i < |ever| - 1 ==> ever[i].id in k.previous && k.previous[ever[i].id] == ever[i])
    && (forall id :: id in k.previous ==> k.previous[id].id == id && k.previous[id] in ever)
    && (forall i, j :: 0 <= i < j < |ever| ==> ever[i].id != ever[j].id)
    && OnDemandCount(k.history) <= MAX_ON_DEMAND
    && (k.history != [] ==> |k.history| < |ever|)
  }

  /** How far a rotation got before it failed. */
  datatype Stage = Nothing | Saved | Replaced | Recorded

  function Rotated(k: KeyFiles, current: Material, new': Material, stage: Stage): KeyFiles {
    var saved := k.(previous := k.previous[current.id := current]);
    var replaced := saved.(material := Some(new'));
    match stage
    case Nothing => k
    case Saved => saved
    case Replaced => replaced
    case Recorded => replaced.(history := k.history + [OnDemand])
  }

  function EverAfter(ever: seq<Material>, new': Material, stage: Stage): seq<Material> {
    if stage.Replaced? || stage.Recorded? then ever + [new'] else ever
  }

  /** Wherever it stops, no material that was current is lost. */
  lemma RotatedKeeps(k: KeyFiles, ever: seq<Material>, new': Material, stage: Stage)
    requires KeyOk(k, ever) && k.material.Some? && OnDemandCount(k.history) < MAX_ON_DEMAND
    requires forall m :: m in ever ==> m.id != new'.id
    ensures KeyOk(Rotated(k, k.material.value, new', stage), EverAfter(ever, new', stage))
  {
    hide KeyOk;
    var current := k.material.value;
    SavedKeeps(k, ever);
    ReplacedKeeps(k, ever, new');
    RecordedKeeps(Rotated(k, current, new', Replaced), ever + [new']);
  }

  lemma SavedKeeps(k: KeyFiles, ever: seq<Material>)
    requires KeyOk(k, ever) && k.material.Some?
    ensures KeyOk(k.(previous := k.previous[k.material.value.id := k.material.value]), ever)
  {
    hide OnDemandCount;
    assert ever[|ever| - 1] == k.material.value;
  }

  lemma ReplacedKeeps(k: KeyFiles, ever: seq<Material>, new': Material)
    requires KeyOk(k, ever) && k.material.Some? && forall m :: m in ever ==> m.id != new'.id
    ensures KeyOk(Rotated(k, k.material.value, new', Replaced), ever + [new'])
    ensures |k.history| < |ever|
  {
    hide OnDemandCount;
    assert ever[|ever| - 1] == k.material.value && forall i :: 0 <= i < |ever| ==> ever[i] in ever;
  }

  lemma RecordedKeeps(k: KeyFiles, ever: seq<Material>)
    requires KeyOk(k, ever) && OnDemandCount(k.history) < MAX_ON_DEMAND && |k.history| + 1 < |ever|
    ensures KeyOk(k.(history := k.history + [OnDemand]), ever)
  {
    assert (k.history + [OnDemand])[..|k.history|] == k.history;
  }

  /** No file of the key has the material's ID. */
  predicate FreshFor(k: KeyFiles, m: Material) {
    m.id !in k.previous && (k.material.Some? ==> k.material.value.id != m.id)
  }

  lemma FreshIsNew(k: KeyFiles, ever: seq<Material>, new': Material)
    requires KeyOk(k, ever) && FreshFor(k, new')
    ensures forall m :: m in ever ==> m.id != new'.id
  {
  }

  lemma NewKeyOk(symmetric: bool, encrypts: bool, material: Option<Material>)
    ensures KeyOk(KeyFiles(Enabled, symmetric, encrypts, material, map[], []),
                  if material.Some? then [material.value] else [])
  {
  }

  lemma StateKeeps(k: KeyFiles, ever: seq<Material>, state: KeyState)
    requires KeyOk(k, ever)
    ensures KeyOk(k.(state := state), ever)
  {
  }

  /** A material that was ever current can still be found. */
  lemma StillThere(k: KeyFiles, ever: seq<Material>, m: Material)
    requires KeyOk(k, ever) && m in ever
    ensures k.material == Some(m) || (m.id in k.previous && k.previous[m.id] == m)
  {
  }

  lemma EverHolds(k: KeyFiles, ever: seq<Material>, m: Material)
    requires KeyOk(k, ever) && (k.material == Some(m) || m in k.previous.Values)
    ensures m in ever
  {
    if k.material == Some(m) {
      assert ever[|ever| - 1] == m;
    } else {
      var id :| id in k.previous && k.previous[id] == m;
    }
  }

  predicate Usable(k: KeyFiles) {
    k.state.Enabled? && k.encrypts && k.symmetric
  }

  /** Rotation on demand is for enabled symmetric keys, up to the limit. */
  predicate Rotatable(k: KeyFiles) {
    k.state.Enabled? && k.symmetric && OnDemandCount(k.history) < MAX_ON_DEMAND
  }

  /** The 8-4-4-4-12 lower-case hexadecimal shape of key IDs. */
  predicate LooksLikeUUID(id: Bytes) {
    && |id| == KEY_ID_LEN
    && forall i :: 0 <= i < |id| ==>
         if i == 8 || i == 13 || i == 18 || i == 23 then id[i] == 45
         else 48 <= id[i] <= 57 || 97 <= id[i] <= 102
  }

  predicate LowerHex(s: Bytes) {
    forall i :: 0 <= i < |s| ==> 48 <= s[i] <= 57 || 97 <= s[i] <= 102
  }

  /** Five groups of hexadecimal digits with hyphens between them. */
  function Hyphened(a: Bytes, b: Bytes, c: Bytes, d: Bytes, e: Bytes): Bytes {
    a + [45] + b + [45] + c + [45] + d + [45] + e
  }

  lemma GroupsLookLikeUUID(id: Bytes)
    ensures LooksLikeUUID(id) <==>
              exists a, b, c, d, e ::
                && |a| == 8 && |b| == 4 && |c| == 4 && |d| == 4 && |e| == 12
                && LowerHex(a) && LowerHex(b) && LowerHex(c) && LowerHex(d) && LowerHex(e)
                && id == Hyphened(a, b, c, d, e)
  {
    if LooksLikeUUID(id) {
      var a, b, c, d, e := id[..8], id[9..13], id[14..18], id[19..23], id[24..];
      assert id == Hyphened(a, b, c, d, e);
    }
  }

  /** One request that changes a key. */
  datatype Step =
    | Create(keyId: Bytes, symmetric: bool, encrypts: bool, material: Option<Material>)
    | Enable(keyId: Bytes)
    | Disable(keyId: Bytes)
    | Schedule(keyId: Bytes)
    | Cancel(keyId: Bytes)
    | Rotate(keyId: Bytes, new': Material)

  type Keys = map<Bytes, KeyFiles>

  /** IDs come from a random source: what a step brings is not in use yet. */
  predicate FreshIds(keys: Keys, step: Step) {
    && (step.Create? ==> LooksLikeUUID(step.keyId) && step.keyId !in keys)
    && (step.Rotate? && step.keyId in keys ==> FreshFor(keys[step.keyId], step.new'))
  }

  /** The request is for a key that is, or is not, waiting for its deletion. */
  predicate Meets(keys: Keys, keyId: Bytes, pending: bool) {
    keyId in keys && keys[keyId].state.PendingDeletion? == pending
  }

  predicate Rotates(keys: Keys, step: Step) {
    step.Rotate? && step.keyId in keys && Rotatable(keys[step.keyId]) && keys[step.keyId].material.Some?
  }

  function Restated(keys: Keys, keyId: Bytes, state: KeyState): Keys
    requires keyId in keys
  {
    keys[keyId := keys[keyId].(state := state)]
  }

  function RotatedTo(keys: Keys, step: Step, stage: Stage): Keys
    requires Rotates(keys, step)
  {
    keys[step.keyId := Rotated(keys[step.keyId], keys[step.keyId].material.value, step.new', stage)]
  }

  /** What a request makes of the keys if none of its writes fails. */
  function Outcome(keys: Keys, step: Step): Keys {
    match step
    case Create(k, symmetric, encrypts, material) => keys[k := KeyFiles(Enabled, symmetric, encrypts, material, map[], [])]
    case Enable(k) => if Meets(keys, k, false) then Restated(keys, k, Enabled) else keys
    case Disable(k) => if Meets(keys, k, false) then Restated(keys, k, Disabled) else keys
    case Schedule(k) => if Meets(keys, k, false) then Restated(keys, k, PendingDeletion) else keys
    case Cancel(k) => if Meets(keys, k, true) then Restated(keys, k, Disabled) else keys
    case Rotate(_, _) => if Rotates(keys, step) then RotatedTo(keys, step, Recorded) else keys
  }

  /** A request that fails has done nothing, or a part of a rotation. */
  predicate Effect(keys: Keys, step: Step, keys': Keys, clean: bool) {
    if clean then keys' == Outcome(keys, step)
    else keys' == keys || (Rotates(keys, step) && (keys' == RotatedTo(keys, step, Saved) || keys' == RotatedTo(keys, step, Replaced)))
  }

  /** The keys before, between and after the requests of a run, and which of these met no
      failing file operation. A step with an ID that is in use does not happen. */
  predicate IsRun(steps: seq<Step>, trail: seq<Keys>, clean: seq<bool>) {
    && |trail| == |steps| + 1 && |clean| == |steps|
    && forall i :: 0 <= i < |steps| ==>
         if FreshIds(trail[i], steps[i]) then Effect(trail[i], steps[i], trail[i + 1], clean[i])
         else trail[i + 1] == trail[i]
  }

  datatype Change = Done | NotFound | WrongState | Refused | Failed

  class KeyStore {
    const cipher: Aead
    const json: Pairs -> Bytes
    var keys: map<Bytes, KeyFiles>
    ghost var ever: map<Bytes, seq<Material>>
    ghost var faults: nat

    ghost predicate Valid()
      reads this
    {
      && Ideal(cipher) && Faithful(json)
      && keys.Keys == ever.Keys
      && (forall k :: k in keys ==> LooksLikeUUID(k) && KeyOk(keys[k], ever[k]))
    }

    /** Every list of materials has only grown. */
    twostate predicate Remembers()
      reads this
    {
      forall k :: k in old(ever) ==> k in ever && old(ever[k]) <= ever[k]
    }

    constructor (cipher: Aead, json: Pairs -> Bytes)
      requires Ideal(cipher) && Faithful(json)
      ensures Valid() && keys == map[] && this.cipher == cipher && this.json == json
    {
      this.cipher, this.json := cipher, json;
      keys, ever, faults := map[], map[], 0;
    }

    /** `CreateKey` with a fresh ID; only symmetric keys get a material here. */
    method CreateKey(keyId: Bytes, symmetric: bool, encrypts: bool, material: Option<Material>) returns (ok: bool)
      requires Valid() && LooksLikeUUID(keyId) && keyId !in keys
      modifies this
      ensures Valid() && Remembers()
      ensures faults == old(faults) + if ok then 0 else 1
      ensures keys == if ok then old(keys)[keyId := KeyFiles(Enabled, symmetric, encrypts, material, map[], [])] else old(keys)
    {
      hide KeyOk, LooksLikeUUID, Ideal, Faithful;
      NewKeyOk(symmetric, encrypts, material);
      ok := Attempt();
      if ok {
        keys := keys[keyId := KeyFiles(Enabled, symmetric, encrypts, material, map[], [])];
        ever := ever[keyId := if material.Some? then [material.value] else []];
      }
    }

    /** Any file operation; `faults` counts those that fail. */
    method Attempt() returns (ok: bool)
      modifies this`faults
      ensures faults == old(faults) + if ok then 0 else 1
    {
      ok := *;
      if !ok {
        faults := faults + 1;
      }
    }

    /** The write of a key's metadata with a new state, which may fail. */
    method WriteState(keyId: Bytes, state: KeyState) returns (r: Change)
      requires Valid() && keyId in keys
      modifies this`keys, this`faults
      ensures Valid() && (r.Done? || r.Failed?) && faults == old(faults) + if r.Done? then 0 else 1
      ensures keys == if r.Done? then old(keys)[keyId := old(keys[keyId]).(state := state)] else old(keys)
    {
      hide KeyOk, LooksLikeUUID, Ideal, Faithful;
      var ok := Attempt();
      if !ok {
        return Failed;
      }
      StateKeeps(keys[keyId], ever[keyId], state);
      keys := keys[keyId := keys[keyId].(state := state)];
      r := Done;
    }

    /** `EnableKey`. */
    method EnableKey(keyId: Bytes) returns (r: Change)
      requires Valid()
      modifies this`keys, this`faults
      ensures Valid() && faults >= old(faults) && (r.Failed? <==> faults > old(faults)) && !r.Refused?
      ensures r.NotFound? <==> keyId !in old(keys)
      ensures r.WrongState? <==> keyId in old(keys) && old(keys[keyId]).state.PendingDeletion?
      ensures !r.Done? ==> keys == old(keys)
      ensures r.Done? ==> keyId in old(keys) && !old(keys[keyId]).state.PendingDeletion?
                          && keys == old(keys)[keyId := old(keys[keyId]).(state := Enabled)]
    {
      hide KeyOk, LooksLikeUUID, Ideal, Faithful;
      if keyId !in keys { return NotFound; }
      if keys[keyId].state.PendingDeletion? { return WrongState; }
      if keys[keyId].state.Enabled? {
        assert keys[keyId].(state := Enabled) == keys[keyId];
        return Done;
      }
      r := WriteState(keyId, Enabled);
    }

    /** `DisableKey`. */
    method DisableKey(keyId: Bytes) returns (r: Change)
      requires Valid()
      modifies this`keys, this`faults
      ensures Valid() && faults >= old(faults) && (r.Failed? <==> faults > old(faults)) && !r.Refused?
      ensures r.NotFound? <==> keyId !in old(keys)
      ensures r.WrongState? <==> keyId in old(keys) && old(keys[keyId]).state.PendingDeletion?
      ensures !r.Done? ==> keys == old(keys)
      ensures r.Done? ==> keyId in old(keys) && !old(keys[keyId]).state.PendingDeletion?
                          && keys == old(keys)[keyId := old(keys[keyId]).(state := Disabled)]
    {
      hide KeyOk, LooksLikeUUID, Ideal, Faithful;
      if keyId !in keys { return NotFound; }
      if keys[keyId].state.PendingDeletion? { return WrongState; }
      if keys[keyId].state.Disabled? {
        assert keys[keyId].(state := Disabled) == keys[keyId];
        return Done;
      }
      r := WriteState(keyId, Disabled);
    }

    /** `ScheduleKeyDeletion`. */
    method ScheduleKeyDeletion(keyId: Bytes) returns (r: Change)
      requires Valid()
      modifies this`keys, this`faults
      ensures Valid() && faults >= old(faults) && (r.Failed? <==> faults > old(faults)) && !r.Refused?
      ensures r.NotFound? <==> keyId !in old(keys)
      ensures r.WrongState? <==> keyId in old(keys) && old(keys[keyId]).state.PendingDeletion?
      ensures !r.Done? ==> keys == old(keys)
      ensures r.Done? ==> keyId in old(keys) && !old(keys[keyId]).state.PendingDeletion?
                          && keys == old(keys)[keyId := old(keys[keyId]).(state := PendingDeletion)]
    {
      hide KeyOk, LooksLikeUUID, Ideal, Faithful;
      if keyId !in keys { return NotFound; }
      if keys[keyId].state.PendingDeletion? { return WrongState; }
      r := WriteState(keyId, PendingDeletion);
    }

    /** `CancelKeyDeletion`: the key comes back disabled. */
    method CancelKeyDeletion(keyId: Bytes) returns (r: Change)
      requires Valid()
      modifies this`keys, this`faults
      ensures Valid() && faults >= old(faults) && (r.Failed? <==> faults > old(faults)) && !r.Refused?
      ensures r.NotFound? <==> keyId !in old(keys)
      ensures r.WrongState? <==> keyId in old(keys) && !old(keys[keyId]).state.PendingDeletion?
      ensures !r.Done? ==> keys == old(keys)
      ensures r.Done? ==> keyId in old(keys) && old(keys[keyId]).state.PendingDeletion?
                          && keys == old(keys)[keyId := old(keys[keyId]).(state := Disabled)]
    {
      hide KeyOk, LooksLikeUUID, Ideal, Faithful;
      if keyId !in keys { return NotFound; }
      if !keys[keyId].state.PendingDeletion? { return WrongState; }
      r := WriteState(keyId, Disabled);
    }

    /** `RotateKeyOnDemand`: each of its three writes may fail. The new material has a
        fresh ID. */
    method RotateKeyOnDemand(keyId: Bytes, new': Material) returns (r: Change, stage: Stage)
      requires Valid()
      requires keyId in keys ==> FreshFor(keys[keyId], new')
      modifies this
      ensures Valid() && Remembers() && faults >= old(faults)
      ensures r.Done? <==> stage.Recorded?
      ensures r.NotFound? <==> keyId !in old(keys)
      ensures r.WrongState? <==> keyId in old(keys) && old(keys[keyId]).state.PendingDeletion?
      ensures r.Refused? <==> keyId in old(keys) && !old(keys[keyId]).state.PendingDeletion? && !Rotatable(old(keys[keyId]))
      ensures r.Done? ==> faults == old(faults)
      ensures r.Failed? ==> faults > old(faults) || old(keys[keyId]).material.None?
      ensures keyId !in old(keys) || old(keys[keyId]).material.None? ==> stage.Nothing?
      ensures stage.Nothing? ==> keys == old(keys) && ever == old(ever)
      ensures !stage.Nothing? ==>
                && keyId in old(keys) && old(keys[keyId]).state.Enabled? && old(keys[keyId]).symmetric
                && OnDemandCount(old(keys[keyId]).history) < MAX_ON_DEMAND
                && old(keys[keyId]).material.Some?
                && keys == old(keys)[keyId := Rotated(old(keys[keyId]), old(keys[keyId]).material.value, new', stage)]
                && ever == old(ever)[keyId := EverAfter(old(ever[keyId]), new', stage)]
    {
      hide KeyOk, LooksLikeUUID, Ideal, Faithful, OnDemandCount;
      stage := Nothing;
      if keyId !in keys { r := NotFound; return; }
      var k := keys[keyId];
      if k.state.PendingDeletion? { r := WrongState; return; }
      if !k.state.Enabled? || !k.symmetric { r := Refused; return; }
      var count := CountOnDemand(k.history);
      if count >= MAX_ON_DEMAND { r := Refused; return; }
      if k.material.None? { r := Failed; return; }
      r := Failed;
      stage := WriteRotation(keyId, k.material.value, new');
      FreshIsNew(k, ever[keyId], new');
      RotatedKeeps(k, ever[keyId], new', stage);
      hide Rotated;
      ever := ever[keyId := EverAfter(ever[keyId], new', stage)];
      if stage.Nothing? {
        assert ever == old(ever);
      }
      r := if stage.Recorded? then Done else Failed;
    }

    method CountOnDemand(history: seq<Rotation>) returns (n: nat)
      ensures n == OnDemandCount(history)
    {
      n := 0;
      for i := 0 to |history|
        invariant n == OnDemandCount(history[..i])
      {
        assert history[..i + 1][..i] == history[..i];
        if history[i] == OnDemand {
          n := n + 1;
        }
      }
      assert history[..|history|] == history;
    }

    /** Save the current material, replace it, record the rotation. */
    method WriteRotation(keyId: Bytes, current: Material, new': Material) returns (stage: Stage)
      requires keyId in keys && keys[keyId].material == Some(current)
      modifies this`keys, this`faults
      ensures keys == old(keys)[keyId := Rotated(old(keys[keyId]), current, new', stage)]
      ensures faults == old(faults) + if stage.Recorded? then 0 else 1
    {
      ghost var k := keys[keyId];
      stage := Nothing;
      var ok := Attempt();
      if !ok {
        assert keys == keys[keyId := k];
        return;
      }
      keys := keys[keyId := keys[keyId].(previous := keys[keyId].previous[current.id := current])];
      stage := Saved;
      ok := Attempt();
      if !ok { return; }
      keys := keys[keyId := keys[keyId].(material := Some(new'))];
      stage := Replaced;
      ok := Attempt();
      if !ok { return; }
      keys := keys[keyId := keys[keyId].(history := keys[keyId].history + [OnDemand])];
      stage := Recorded;
    }

    // ---- data plane

    /** blob is what sealing this text for this key and context with m gives. */
    ghost predicate SealedAs(blob: Bytes, keyId: Bytes, m: Material, text: Bytes, ctx: Context, nonce: Bytes)
    {
      && |keyId| == KEY_ID_LEN && |nonce| == NONCE_LEN
      && exists aad :: Marshals(json, ctx, aad) && blob == Laid(keyId, nonce, cipher.seal(m.bytes, nonce, aad, text))
    }

    /** `resolveAndValidateKey`, `loadSymmetricMaterial` and `sealEnvelope`. */
    method Seal(keyId: Bytes, text: Bytes, ctx: Context, nonce: Bytes) returns (blob: Option<Bytes>)
      requires Valid() && |nonce| == NONCE_LEN
      ensures blob.Some? <==> keyId in keys && Usable(keys[keyId]) && keys[keyId].material.Some?
      ensures blob.Some? ==>
                && keys[keyId].material.value in ever[keyId]
                && SealedAs(blob.value, keyId, keys[keyId].material.value, text, ctx, nonce)
    {
      hide Marshals, Laid, Ideal, Faithful;
      if keyId !in keys {
        return None;
      }
      var k := keys[keyId];
      if !k.encrypts || !k.state.Enabled? || !k.symmetric || k.material.None? {
        return None;
      }
      var aad := MarshalContext(json, ctx);
      var out := SealEnvelope(cipher, keyId, keys[keyId].material.value, text, aad, nonce);
      blob := Some(out[..]);
    }

    /** `handleEncrypt`. */
    method Encrypt(keyId: Bytes, text: Bytes, ctx: Context, nonce: Bytes) returns (blob: Option<Bytes>)
      requires Valid() && |nonce| == NONCE_LEN
      ensures blob.Some? <==>
                && 0 < |text| <= 4096
                && keyId in keys && Usable(keys[keyId]) && keys[keyId].material.Some?
      ensures blob.Some? ==>
                && keys[keyId].material.value in ever[keyId]
                && SealedAs(blob.value, keyId, keys[keyId].material.value, text, ctx, nonce)
    {
      hide KeyOk, Ideal, Faithful;
      if text == [] || |text| > 4096 {
        return None;
      }
      blob := Seal(keyId, text, ctx, nonce);
    }

    /** `tryDecryptWithFallback`: the earlier materials are tried in directory order. */
    method TryDecrypt(blob: Bytes, mat: Material, previous: map<string, Material>, aad: Bytes) returns (r: Option<Bytes>)
      ensures r.Some? ==> exists m :: (m == mat || m in previous.Values) && OpenEnvelope(cipher, blob, m, aad) == r
      ensures r.None? ==> OpenEnvelope(cipher, blob, mat, aad).None?
                          && forall id :: id in previous ==> OpenEnvelope(cipher, blob, previous[id], aad).None?
    {
      hide OpenEnvelope;
      r := OpenEnvelope(cipher, blob, mat, aad);
      if r.Some? {
        return;
      }
      var rest := previous.Keys;
      while rest != {}
        invariant rest <= previous.Keys && r.None?
        invariant forall id :: id in previous && id !in rest ==> OpenEnvelope(cipher, blob, previous[id], aad).None?
        decreases rest
      {
        var id :| id in rest;
        r := OpenEnvelope(cipher, blob, previous[id], aad);
        if r.Some? {
          assert previous[id] in previous.Values;
          return;
        }
        rest := rest - {id};
      }
    }

    /** `handleDecrypt`: whatever any material that was ever current sealed opens to its
        text while the key can be used, under the same context and no other, and nothing
        else opens. */
    method Decrypt(blob: Bytes, ctx: Context) returns (text: Option<Bytes>)
      requires Valid()
      ensures forall keyId, m, plain, ctx', nonce ::
                keyId in keys && m in ever[keyId] && SealedAs(blob, keyId, m, plain, ctx', nonce) ==>
                  text == if Usable(keys[keyId]) && ctx' == ctx then Some(plain) else None
      ensures text.Some? ==>
                exists keyId, m, nonce ::
                  && keyId in keys && m in ever[keyId] && Usable(keys[keyId])
                  && SealedAs(blob, keyId, m, text.value, ctx, nonce)
    {
      hide Marshals, Laid, OpenEnvelope, KeyOk, LooksLikeUUID, Faithful, Ideal;
      if |blob| < SEALED_OFFSET + 1 || blob[0] != VERSION {
        NotSealed(blob);
        return None;
      }
      var keyId := KeyIdOf(blob);
      SealedFor(blob);
      if !LooksLikeUUID(keyId) || keyId !in keys {
        NoMaterial(keyId);
        return None;
      }
      var k := keys[keyId];
      if !k.encrypts || !k.state.Enabled? || !k.symmetric || k.material.None? {
        NoMaterial(keyId);
        return None;
      }
      var aad := MarshalContext(json, ctx);
      text := TryDecrypt(blob, keys[keyId].material.value, keys[keyId].previous, aad);
      forall m, plain, ctx', nonce | m in ever[keyId] && SealedAs(blob, keyId, m, plain, ctx', nonce)
        ensures text == if ctx' == ctx then Some(plain) else None
      {
        Opens(blob, keyId, m, plain, ctx', nonce, ctx, aad, text);
      }
      if text.Some? {
        Opened(blob, ctx, aad, text);
      }
    }

    lemma Opened(blob: Bytes, ctx: Context, aad: Bytes, text: Option<Bytes>)
      requires Valid() && |blob| > SEALED_OFFSET && KeyIdOf(blob) in keys && Marshals(json, ctx, aad)
      requires text.Some? && keys[KeyIdOf(blob)].material.Some?
      requires exists n :: (n == keys[KeyIdOf(blob)].material.value || n in keys[KeyIdOf(blob)].previous.Values)
                           && OpenEnvelope(cipher, blob, n, aad) == text
      ensures exists m, nonce :: m in ever[KeyIdOf(blob)] && SealedAs(blob, KeyIdOf(blob), m, text.value, ctx, nonce)
    {
      hide Marshals, Laid, OpenEnvelope, LooksLikeUUID, Ideal, Faithful, OnDemandCount;
      var keyId := KeyIdOf(blob);
      var n :| (n == keys[keyId].material.value || n in keys[keyId].previous.Values) && OpenEnvelope(cipher, blob, n, aad) == text;
      OpenedWasSealed(cipher, blob, n, aad);
      EverHolds(keys[keyId], ever[keyId], n);
      assert SealedAs(blob, keyId, n, text.value, ctx, blob[NONCE_OFFSET..SEALED_OFFSET]);
    }

    lemma NotSealed(blob: Bytes)
      requires Ideal(cipher) && (|blob| <= SEALED_OFFSET || blob[0] != VERSION)
      ensures forall keyId, m, plain, ctx', nonce :: !SealedAs(blob, keyId, m, plain, ctx', nonce)
    {
      hide Laid;
      forall keyId, m, plain, ctx', nonce
        ensures !SealedAs(blob, keyId, m, plain, ctx', nonce)
      {
        if SealedAs(blob, keyId, m, plain, ctx', nonce) {
          var aad :| Marshals(json, ctx', aad) && blob == Laid(keyId, nonce, cipher.seal(m.bytes, nonce, aad, plain));
          LaidParts(keyId, nonce, cipher.seal(m.bytes, nonce, aad, plain));
        }
      }
    }

    /** An envelope names the key it is for. */
    lemma SealedFor(blob: Bytes)
      requires Ideal(cipher) && |blob| > SEALED_OFFSET
      ensures forall keyId, m, plain, ctx', nonce :: SealedAs(blob, keyId, m, plain, ctx', nonce) ==> keyId == KeyIdOf(blob)
    {
      hide Laid, KeyIdOf, Marshals;
      forall keyId, m, plain, ctx', nonce | SealedAs(blob, keyId, m, plain, ctx', nonce)
        ensures keyId == KeyIdOf(blob)
      {
        var aad :| Marshals(json, ctx', aad) && blob == Laid(keyId, nonce, cipher.seal(m.bytes, nonce, aad, plain));
        LaidParts(keyId, nonce, cipher.seal(m.bytes, nonce, aad, plain));
      }
    }

    lemma NoMaterial(keyId: Bytes)
      requires Valid()
      ensures keyId in keys ==> LooksLikeUUID(keyId) && (keys[keyId].material.None? ==> ever[keyId] == [])
    {
    }

    lemma Opens(blob: Bytes, keyId: Bytes, m: Material, plain: Bytes, ctx': Context, nonce: Bytes,
                ctx: Context, aad: Bytes, text: Option<Bytes>)
      requires Valid() && keyId in keys && m in ever[keyId] && SealedAs(blob, keyId, m, plain, ctx', nonce)
      requires Marshals(json, ctx, aad) && keys[keyId].material.Some?
      requires text.Some? ==> exists n :: (n == keys[keyId].material.value || n in keys[keyId].previous.Values)
                                          && OpenEnvelope(cipher, blob, n, aad) == text
      requires text.None? ==> OpenEnvelope(cipher, blob, keys[keyId].material.value, aad).None?
                              && forall id :: id in keys[keyId].previous ==> OpenEnvelope(cipher, blob, keys[keyId].previous[id], aad).None?
      ensures text == if ctx' == ctx then Some(plain) else None
    {
      hide Marshals, Laid, OpenEnvelope, LooksLikeUUID, Ideal, Faithful;
      var aad' :| Marshals(json, ctx', aad') && blob == Laid(keyId, nonce, cipher.seal(m.bytes, nonce, aad', plain));
      ContextsApart(json, ctx', ctx, aad', aad);
      if text.Some? {
        var n :| (n == keys[keyId].material.value || n in keys[keyId].previous.Values) && OpenEnvelope(cipher, blob, n, aad) == text;
        OpenSealed(cipher, keyId, m, plain, aad', nonce, n, aad);
      } else {
        StillThere(keys[keyId], ever[keyId], m);
        OpenSealed(cipher, keyId, m, plain, aad', nonce, m, aad);
      }
    }

    /** `handleReEncrypt`: the new envelope holds the text of the old one. */
    method ReEncrypt(blob: Bytes, from: Context, target: Bytes, to: Context, nonce: Bytes) returns (out: Option<Bytes>)
      requires Valid() && |nonce| == NONCE_LEN
      ensures forall keyId, m, plain, n ::
                keyId in keys && m in ever[keyId] && SealedAs(blob, keyId, m, plain, from, n) && Usable(keys[keyId])
                && target in keys && Usable(keys[target]) && keys[target].material.Some? ==>
                  && out.Some? && keys[target].material.value in ever[target]
                  && SealedAs(out.value, target, keys[target].material.value, plain, to, nonce)
      ensures out.Some? ==>
                && target in keys && Usable(keys[target]) && keys[target].material.Some?
                && exists keyId, m, plain, n ::
                     && keyId in keys && m in ever[keyId] && Usable(keys[keyId]) && SealedAs(blob, keyId, m, plain, from, n)
                     && SealedAs(out.value, target, keys[target].material.value, plain, to, nonce)
    {
      hide KeyOk, Ideal, Faithful, SealedAs, LooksLikeUUID;
      var text := Decrypt(blob, from);
      if text.None? {
        return None;
      }
      out := Seal(target, text.value, to, nonce);
    }

    // ---- whole runs

    /** Every request has its effect and keeps every material. */
    method Do(step: Step)
      requires Valid() && FreshIds(keys, step)
      modifies this
      ensures Valid() && Remembers() && faults >= old(faults)
      ensures Effect(old(keys), step, keys, faults == old(faults))
    {
      hide KeyOk, LooksLikeUUID, Ideal, Faithful, Rotatable;
      match step {
        case Create(k, symmetric, encrypts, material) => var _ := CreateKey(k, symmetric, encrypts, material);
        case Enable(k) => var _ := EnableKey(k);
        case Disable(k) => var _ := DisableKey(k);
        case Schedule(k) => var _ := ScheduleKeyDeletion(k);
        case Cancel(k) => var _ := CancelKeyDeletion(k);
        case Rotate(_, _) => DoRotate(step);
      }
    }

    method DoRotate(step: Step)
      requires Valid() && step.Rotate? && FreshIds(keys, step)
      modifies this
      ensures Valid() && Remembers() && faults >= old(faults)
      ensures Effect(old(keys), step, keys, faults == old(faults))
    {
      hide KeyOk, LooksLikeUUID, Ideal, Faithful, OnDemandCount, Rotated;
      var _, stage := RotateKeyOnDemand(step.keyId, step.new');
    }

    /** Any requests of any kind, each of which may fail part-way. */
    method Run(steps: seq<Step>) returns (ghost trail: seq<Keys>, ghost clean: seq<bool>)
      requires Valid()
      modifies this
      ensures Valid() && Remembers() && faults >= old(faults)
      ensures IsRun(steps, trail, clean) && trail[0] == old(keys) && trail[|steps|] == keys
      ensures faults == old(faults) ==> forall i :: 0 <= i < |steps| && FreshIds(trail[i], steps[i]) ==> clean[i]
    {
      hide KeyOk, LooksLikeUUID, Ideal, Faithful, FreshIds, Effect;
      trail, clean := [keys], [];
      for i := 0 to |steps|
        invariant Valid() && Remembers() && faults >= old(faults)
        invariant IsRun(steps[..i], trail, clean) && trail[0] == old(keys) && trail[i] == keys
        invariant faults == old(faults) ==> forall j :: 0 <= j < i && FreshIds(trail[j], steps[j]) ==> clean[j]
      {
        ghost var before := faults;
        if FreshIds(keys, steps[i]) {
          Do(steps[i]);
        }
        trail := trail + [keys];
        clean := clean + [faults == before];
      }
      assert steps[..|steps|] == steps;
    }

    /** Encrypt, then any run, then decrypt: if the key can be used then, the text comes
        back. */
    method SealedStaysReadable(keyId: Bytes, text: Bytes, ctx: Context, nonce: Bytes, steps: seq<Step>)
      returns (blob: Option<Bytes>, back: Option<Bytes>, ghost trail: seq<Keys>, ghost clean: seq<bool>)
      requires Valid() && |nonce| == NONCE_LEN
      modifies this
      ensures Valid() && Remembers()
      ensures IsRun(steps, trail, clean) && trail[0] == old(keys) && trail[|steps|] == keys
      ensures blob.Some? <==>
                && 0 < |text| <= 4096
                && keyId in old(keys) && Usable(old(keys[keyId])) && old(keys[keyId]).material.Some?
      ensures blob.Some? ==> keyId in keys && back == if Usable(keys[keyId]) then Some(text) else None
    {
      hide KeyOk, LooksLikeUUID, Ideal, Faithful, SealedAs, IsRun;
      blob := Encrypt(keyId, text, ctx, nonce);
      ghost var materials := ever;
      trail, clean := Run(steps);
      back := None;
      if blob.Some? {
        assert keyId in materials && keyId in ever && materials[keyId] <= ever[keyId];
        back := Decrypt(blob.value, ctx);
      }
    }
  }
}
