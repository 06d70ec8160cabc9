/** The coordinator's signing keys: registration, rotation, revocation, lazy expiry and the expiry sweep. */
module SigningKeys {
  import opened SortedInts
  import opened ByteStrings
  import opened KeyOrder

  datatype Status = Active | GracePeriod | Revoked | Expired

  const SCHEMA_VERSION: nat := 1

  datatype KeyRecord = KeyRecord(schemaVersion: nat, signingKeyId: Bytes, publicKeyHex: Bytes, fingerprint: Bytes,
                                 status: Status, createdAt: real, expiresAt: real, gracePeriodEnd: real,
                                 rotatedFrom: Bytes, rotatedTo: Bytes, revokedAt: real, revocationReason: Bytes)

  type Keys = map<Bytes, KeyRecord>

  datatype Initial = Initial(signingKeyId: Bytes, publicKeyHex: Bytes, fingerprint: Bytes, now: real, expiresAt: real)

  datatype Rotation = Rotation(current: Bytes, newId: Bytes, newHex: Bytes, newFingerprint: Bytes, newExpiresAt: real,
                               graceSeconds: real, now: real)

  datatype Verdict = Accepted | UnknownCurrentKey | CurrentKeyNotActive | DuplicateNewKeyId | DuplicatePublicKey
                   | InvalidKeyLength | ExcessiveGracePeriod | ExcessiveKeyLifetime | InvalidExpiry

  const MAX_GRACE_SECONDS: real := 86400.0
  const MAX_LIFETIME_SECONDS: real := 90.0 * 86400.0
  const KEY_HEX_LENGTH: nat := 64

  // ----- lazy expiry -----

  /** Expiry is evaluated when a key is looked at, not when its time comes. */
  function Effective(r: KeyRecord, now: real): KeyRecord {
    if r.status == Active && r.expiresAt > 0.0 && now >= r.expiresAt then r.(status := Expired)
    else if r.status == GracePeriod && r.gracePeriodEnd > 0.0 && now >= r.gracePeriodEnd then r.(status := Expired)
    else r
  }

  predicate ActiveAt(keys: Keys, id: Bytes, now: real) { id in keys && Effective(keys[id], now).status == Active }

  predicate GraceAt(keys: Keys, id: Bytes, now: real) { id in keys && Effective(keys[id], now).status == GracePeriod }

  // ----- operations -----

  predicate IsHexDigit(c: char) { '0' <= c <= '9' || 'a' <= c <= 'f' || 'A' <= c <= 'F' }

  predicate ValidKeyHex(s: Bytes) { |s| == KEY_HEX_LENGTH && forall i :: 0 <= i < |s| ==> IsHexDigit(s[i]) }

  lemma {:induction false} BytesAreOrdered()
    ensures StrictTotal(Less)
  {
    forall a, b ensures Less(a, b) || a == b || Less(b, a) { LessTrichotomy(a, b); }
    forall a ensures !Less(a, a) { LessTrichotomy(a, a); }
    forall a, b, c | Less(a, b) && Less(b, c) ensures Less(a, c) { LessTransitive(a, b, c); }
  }

  /** The ids in iteration order. */
  ghost function Ids(keys: Keys): (ids: seq<Bytes>)
    ensures |ids| == |keys| && forall id :: id in ids <==> id in keys
  {
    BytesAreOrdered();
    Sorted(Less, keys.Keys)
  }

  /** The first key, in iteration order, that stands in the way of an initial registration. */
  function RegisterConflict(keys: Keys, ids: seq<Bytes>, fingerprint: Bytes, now: real): Option<string>
    requires forall i :: 0 <= i < |ids| ==> ids[i] in keys
    decreases |ids|
  {
    if ids == [] then None
    else if keys[ids[0]].fingerprint == fingerprint then Some("public_key_fingerprint is already registered")
    else if Effective(keys[ids[0]], now).status == Active then Some("the coordinator already has an ACTIVE signing key")
    else RegisterConflict(keys, ids[1..], fingerprint, now)
  }

  function InitialRecord(q: Initial): KeyRecord {
    KeyRecord(SCHEMA_VERSION, q.signingKeyId, q.publicKeyHex, q.fingerprint, Active, q.now, q.expiresAt, 0.0, [], [],
              0.0, [])
  }

  /** register_initial_key: the keys afterwards and the record returned. */
  ghost function Registered(keys: Keys, q: Initial): Outcome<(Keys, KeyRecord)> {
    if !ValidKeyHex(q.publicKeyHex) then Error("public_key_hex is not a valid Ed25519 public key encoding")
    else if q.signingKeyId in keys then
      if keys[q.signingKeyId].publicKeyHex == q.publicKeyHex then Ok((keys, keys[q.signingKeyId]))
      else Error("signing_key_id is already registered with a different public key")
    else
      var conflict := RegisterConflict(keys, Ids(keys), q.fingerprint, q.now);
      if conflict.Some? then Error(conflict.value)
      else Ok((keys[q.signingKeyId := InitialRecord(q)], InitialRecord(q)))
  }

  /** The first key, in iteration order, that stands in the way of a rotation. */
  function RotationConflict(keys: Keys, ids: seq<Bytes>, newId: Bytes, newFingerprint: Bytes): Verdict
    requires forall i :: 0 <= i < |ids| ==> ids[i] in keys
    decreases |ids|
  {
    if ids == [] then Accepted
    else if ids[0] == newId then DuplicateNewKeyId
    else if keys[ids[0]].fingerprint == newFingerprint then DuplicatePublicKey
    else RotationConflict(keys, ids[1..], newId, newFingerprint)
  }

  /** The checks of validate_rotation that do not look at other keys. */
  function TermsVerdict(q: Rotation): Verdict {
    if q.graceSeconds < 0.0 || q.graceSeconds > MAX_GRACE_SECONDS then ExcessiveGracePeriod
    else if q.newExpiresAt != 0.0 && q.newExpiresAt <= q.now then InvalidExpiry
    else if q.newExpiresAt != 0.0 && q.newExpiresAt - q.now > MAX_LIFETIME_SECONDS then ExcessiveKeyLifetime
    else Accepted
  }

  /** validate_rotation. */
  ghost function RotationVerdict(keys: Keys, q: Rotation): Verdict {
    if q.current !in keys then UnknownCurrentKey
    else if !ActiveAt(keys, q.current, q.now) then CurrentKeyNotActive
    else if !ValidKeyHex(q.newHex) then InvalidKeyLength
    else
      var conflict := RotationConflict(keys, Ids(keys), q.newId, q.newFingerprint);
      if conflict != Accepted then conflict else TermsVerdict(q)
  }

  function Retired(r: KeyRecord, q: Rotation): KeyRecord {
    if q.graceSeconds > 0.0
    then r.(status := GracePeriod, gracePeriodEnd := q.now + q.graceSeconds, rotatedTo := q.newId)
    else r.(status := Expired, gracePeriodEnd := q.now, rotatedTo := q.newId)
  }

  function Successor(q: Rotation): KeyRecord {
    KeyRecord(SCHEMA_VERSION, q.newId, q.newHex, q.newFingerprint, Active, q.now, q.newExpiresAt, 0.0, q.current, [],
              0.0, [])
  }

  /** commit_rotation for a known current key. */
  function Rotated(keys: Keys, q: Rotation): Keys
    requires q.current in keys
  {
    keys[q.current := Retired(keys[q.current], q)][q.newId := Successor(q)]
  }

  function RevokedRecord(r: KeyRecord, reason: Bytes, now: real): KeyRecord {
    if r.status == Revoked then r else r.(status := Revoked, revokedAt := now, revocationReason := reason)
  }

  function SweptRecord(r: KeyRecord, now: real): KeyRecord {
    if Effective(r, now).status == Expired then r.(status := Expired) else r
  }

  function Swept(keys: Keys, now: real): Keys {
    map id | id in keys :: SweptRecord(keys[id], now)
  }

  // ----- questions -----

  function Find(keys: Keys, id: Bytes, now: real): Option<KeyRecord> {
    if id in keys then Some(Effective(keys[id], now)) else None
  }

  function FirstActive(keys: Keys, ids: seq<Bytes>, now: real): Option<KeyRecord>
    requires forall i :: 0 <= i < |ids| ==> ids[i] in keys
    decreases |ids|
  {
    if ids == [] then None
    else if ActiveAt(keys, ids[0], now) then Some(Effective(keys[ids[0]], now))
    else FirstActive(keys, ids[1..], now)
  }

  predicate TrustedAt(keys: Keys, id: Bytes, now: real) { ActiveAt(keys, id, now) || GraceAt(keys, id, now) }

  function TrustedIn(keys: Keys, ids: seq<Bytes>, now: real): seq<KeyRecord>
    requires forall i :: 0 <= i < |ids| ==> ids[i] in keys
    decreases |ids|
  {
    if ids == [] then []
    else (if TrustedAt(keys, ids[0], now) then [Effective(keys[ids[0]], now)] else []) + TrustedIn(keys, ids[1..], now)
  }

  function ListedIn(keys: Keys, ids: seq<Bytes>, now: real): seq<KeyRecord>
    requires forall i :: 0 <= i < |ids| ==> ids[i] in keys
    decreases |ids|
  {
    if ids == [] then [] else [Effective(keys[ids[0]], now)] + ListedIn(keys, ids[1..], now)
  }

  ghost function ActiveKey(keys: Keys, now: real): Option<KeyRecord> { FirstActive(keys, Ids(keys), now) }

  ghost function TrustedKeys(keys: Keys, now: real): seq<KeyRecord> { TrustedIn(keys, Ids(keys), now) }

  ghost function ListKeys(keys: Keys, now: real): seq<KeyRecord> { ListedIn(keys, Ids(keys), now) }

  // ----- runs -----

  datatype Event = Register(initial: Initial) | Rotate(rotation: Rotation)
                 | Revoke(id: Bytes, reason: Bytes, at: real) | Sweep(time: real)

  function TimeOf(e: Event): real {
    match e
    case Register(q) => q.now
    case Rotate(q) => q.now
    case Revoke(_, _, now) => now
    case Sweep(now) => now
  }

  /** One call; a rotation is validated and then committed, and a refused call changes nothing. */
  ghost function Step(keys: Keys, e: Event): Keys {
    match e
    case Register(q) => if Registered(keys, q).Ok? then Registered(keys, q).value.0 else keys
    case Rotate(q) => if RotationVerdict(keys, q) == Accepted then Rotated(keys, q) else keys
    case Revoke(id, reason, now) => if id in keys then keys[id := RevokedRecord(keys[id], reason, now)] else keys
    case Sweep(now) => Swept(keys, now)
  }

  ghost function Run(keys: Keys, events: seq<Event>): Keys
    decreases |events|
  {
    if events == [] then keys else Run(Step(keys, events[0]), events[1..])
  }

  /** The clock does not run backwards. */
  predicate Timed(events: seq<Event>, start: real) {
    events != [] ==> start <= TimeOf(events[0]) && Timed(events[1..], TimeOf(events[0]))
  }

  function EndTime(events: seq<Event>, start: real): real {
    if events == [] then start else EndTime(events[1..], TimeOf(events[0]))
  }

  // ----- what the conflict scans decide -----

  lemma {:induction false} RegisterConflictMeans(keys: Keys, ids: seq<Bytes>, fingerprint: Bytes, now: real)
    requires forall i :: 0 <= i < |ids| ==> ids[i] in keys
    ensures RegisterConflict(keys, ids, fingerprint, now).None? <==>
            forall id :: id in ids ==> keys[id].fingerprint != fingerprint && !ActiveAt(keys, id, now)
    decreases |ids|
  {
    if ids != [] {
      RegisterConflictMeans(keys, ids[1..], fingerprint, now);
      assert ids == [ids[0]] + ids[1..];
    }
  }

  /** A new key is registered exactly when it is well formed and no key shares its fingerprint or is active. */
  lemma RegisteredMeans(keys: Keys, q: Initial)
    requires q.signingKeyId !in keys
    ensures Registered(keys, q).Ok? <==>
      && ValidKeyHex(q.publicKeyHex)
      && forall id :: id in keys ==> keys[id].fingerprint != q.fingerprint && !ActiveAt(keys, id, q.now)
  {
    RegisterConflictMeans(keys, Ids(keys), q.fingerprint, q.now);
  }

  lemma {:induction false} RotationConflictMeans(keys: Keys, ids: seq<Bytes>, newId: Bytes, newFingerprint: Bytes)
    requires forall i :: 0 <= i < |ids| ==> ids[i] in keys
    ensures RotationConflict(keys, ids, newId, newFingerprint) == Accepted <==>
            forall id :: id in ids ==> id != newId && keys[id].fingerprint != newFingerprint
    decreases |ids|
  {
    if ids != [] {
      RotationConflictMeans(keys, ids[1..], newId, newFingerprint);
      assert ids == [ids[0]] + ids[1..];
    }
  }

  /** A rotation is accepted exactly under these conditions. */
  lemma RotationAcceptedMeans(keys: Keys, q: Rotation)
    ensures RotationVerdict(keys, q) == Accepted <==>
      && ActiveAt(keys, q.current, q.now) && ValidKeyHex(q.newHex)
      && (forall id :: id in keys ==> id != q.newId && keys[id].fingerprint != q.newFingerprint)
      && 0.0 <= q.graceSeconds <= MAX_GRACE_SECONDS
      && (q.newExpiresAt == 0.0 || q.now < q.newExpiresAt <= q.now + MAX_LIFETIME_SECONDS)
  {
    if q.current in keys { RotationConflictMeans(keys, Ids(keys), q.newId, q.newFingerprint); }
  }

  // ----- at most one active key -----

  ghost predicate OneActive(keys: Keys, now: real) {
    forall a, b :: ActiveAt(keys, a, now) && ActiveAt(keys, b, now) ==> a == b
  }

  /** A key once expired stays expired. */
  lemma ActivityFades(keys: Keys, id: Bytes, t: real, now: real)
    requires t <= now
    ensures ActiveAt(keys, id, now) ==> ActiveAt(keys, id, t)
    ensures GraceAt(keys, id, now) ==> GraceAt(keys, id, t)
    ensures TrustedAt(keys, id, now) ==> TrustedAt(keys, id, t)
  {}

  /** Between changes the trusted keys only become fewer. */
  lemma TrustShrinks(keys: Keys, t: real, now: real)
    requires t <= now
    ensures (set id | id in keys && TrustedAt(keys, id, now)) <= (set id | id in keys && TrustedAt(keys, id, t))
  {
    forall id | id in keys && TrustedAt(keys, id, now) ensures TrustedAt(keys, id, t) {
      ActivityFades(keys, id, t, now);
    }
  }

  lemma OneActiveLater(keys: Keys, t: real, now: real)
    requires OneActive(keys, t) && t <= now
    ensures OneActive(keys, now)
  {
    forall a, b | ActiveAt(keys, a, now) && ActiveAt(keys, b, now) ensures a == b {
      ActivityFades(keys, a, t, now);
      ActivityFades(keys, b, t, now);
    }
  }

  /** An accepted rotation leaves exactly one active key: the new one. */
  lemma RotationLeavesOne(keys: Keys, q: Rotation)
    requires OneActive(keys, q.now) && RotationVerdict(keys, q) == Accepted
    ensures forall id :: ActiveAt(Rotated(keys, q), id, q.now) <==> id == q.newId
  {
    RotationAcceptedMeans(keys, q);
    forall id ensures ActiveAt(Rotated(keys, q), id, q.now) <==> id == q.newId {
      if ActiveAt(Rotated(keys, q), id, q.now) && id != q.newId { assert ActiveAt(keys, id, q.now); }
    }
  }

  lemma StepKeepsOne(keys: Keys, e: Event)
    requires OneActive(keys, TimeOf(e))
    ensures OneActive(Step(keys, e), TimeOf(e))
  {
    match e
    case Register(q) =>
      if q.signingKeyId !in keys && Registered(keys, q).Ok? { RegisteredMeans(keys, q); }
    case Rotate(q) =>
      if RotationVerdict(keys, q) == Accepted { RotationLeavesOne(keys, q); }
    case Revoke(id, reason, now) =>
      forall a | ActiveAt(Step(keys, e), a, now) ensures ActiveAt(keys, a, now) {}
    case Sweep(now) =>
      forall a | ActiveAt(Step(keys, e), a, now) ensures ActiveAt(keys, a, now) {}
  }

  /** At most one key is active at any time of any run whose clock does not run backwards. */
  lemma {:induction false} AtMostOneActive(keys: Keys, events: seq<Event>, start: real, now: real)
    requires OneActive(keys, start) && Timed(events, start) && EndTime(events, start) <= now
    ensures OneActive(Run(keys, events), now)
    decreases |events|
  {
    if events == [] {
      OneActiveLater(keys, start, now);
    } else {
      OneActiveLater(keys, start, TimeOf(events[0]));
      StepKeepsOne(keys, events[0]);
      AtMostOneActive(Step(keys, events[0]), events[1..], TimeOf(events[0]), now);
    }
  }

  /** So active_key returns the active key whatever the iteration order. */
  lemma {:induction false} ActiveKeyIsTheOne(keys: Keys, ids: seq<Bytes>, now: real, id: Bytes)
    requires OneActive(keys, now) && ActiveAt(keys, id, now) && id in ids
    requires forall i :: 0 <= i < |ids| ==> ids[i] in keys
    ensures FirstActive(keys, ids, now) == Some(Effective(keys[id], now))
    decreases |ids|
  {
    if ids[0] != id {
      assert ids == [ids[0]] + ids[1..];
      ActiveKeyIsTheOne(keys, ids[1..], now, id);
    }
  }

  lemma {:induction false} NoActiveKey(keys: Keys, ids: seq<Bytes>, now: real)
    requires forall i :: 0 <= i < |ids| ==> ids[i] in keys && !ActiveAt(keys, ids[i], now)
    ensures FirstActive(keys, ids, now) == None
    decreases |ids|
  {
    if ids != [] { NoActiveKey(keys, ids[1..], now); }
  }

  /** active_key answers with the same record for every iteration order of the keys. */
  lemma ActiveKeyOrderIndependent(keys: Keys, ids: seq<Bytes>, now: real)
    requires OneActive(keys, now) && forall id :: id in ids <==> id in keys
    ensures FirstActive(keys, ids, now) == ActiveKey(keys, now)
  {
    if id :| ActiveAt(keys, id, now) {
      ActiveKeyIsTheOne(keys, ids, now, id);
      ActiveKeyIsTheOne(keys, Ids(keys), now, id);
    } else {
      NoActiveKey(keys, ids, now);
      NoActiveKey(keys, Ids(keys), now);
    }
  }

  /** trusted_public_keys: exactly the effective records of the trusted keys, each once, in iteration order. */
  lemma {:induction false} TrustedInMeans(keys: Keys, ids: seq<Bytes>, now: real)
    requires forall i :: 0 <= i < |ids| ==> ids[i] in keys
    ensures forall r :: r in TrustedIn(keys, ids, now) <==>
      exists id :: id in ids && r == Effective(keys[id], now) && (r.status == Active || r.status == GracePeriod)
    ensures |ListedIn(keys, ids, now)| == |ids|
    ensures forall i :: 0 <= i < |ids| ==> ListedIn(keys, ids, now)[i] == Effective(keys[ids[i]], now)
    decreases |ids|
  {
    if ids != [] {
      TrustedInMeans(keys, ids[1..], now);
      assert ids == [ids[0]] + ids[1..];
      hide Effective;
    }
  }

  // ----- what an accepted call stores -----

  /** A registered key has what was asked for, and is active until it expires, which without an expiry time it never
      does. */
  lemma RegistrationMeans(keys: Keys, q: Initial)
    requires q.signingKeyId !in keys && Registered(keys, q).Ok?
    ensures var next := Step(keys, Register(q));
            && next.Keys == keys.Keys + {q.signingKeyId} && (forall id :: id in keys ==> next[id] == keys[id])
            && next[q.signingKeyId].publicKeyHex == q.publicKeyHex && next[q.signingKeyId].fingerprint == q.fingerprint
            && next[q.signingKeyId].createdAt == q.now
            && forall t :: ActiveAt(next, q.signingKeyId, t) <==> q.expiresAt <= 0.0 || t < q.expiresAt
  {
    RegisteredInserts(keys, q);
    hide Registered;
  }

  /** After an accepted rotation the new key has what was asked for and is active until it expires; the old one is
      trusted until its grace period ends, and not at all without one; they name each other, and all others stay. */
  lemma RotationMeans(keys: Keys, q: Rotation)
    requires RotationVerdict(keys, q) == Accepted
    ensures var next := Step(keys, Rotate(q));
            && next.Keys == keys.Keys + {q.newId}
            && (forall id :: id in keys && id != q.current ==> next[id] == keys[id])
            && next[q.newId].publicKeyHex == q.newHex && next[q.newId].fingerprint == q.newFingerprint
            && next[q.newId].createdAt == q.now
            && next[q.newId].rotatedFrom == q.current && next[q.current].rotatedTo == q.newId
            && next[q.current].publicKeyHex == keys[q.current].publicKeyHex
            && (forall t :: ActiveAt(next, q.newId, t) <==> q.newExpiresAt <= 0.0 || t < q.newExpiresAt)
            && forall t :: TrustedAt(next, q.current, t) <==>
                 q.graceSeconds > 0.0 && (q.now + q.graceSeconds <= 0.0 || t < q.now + q.graceSeconds)
  {
    RotationAcceptedMeans(keys, q);
    hide RotationVerdict;
  }

  /** The reason of a refusal is the first of these that holds. */
  lemma RotationRefusedMeans(keys: Keys, q: Rotation)
    ensures var verdict := RotationVerdict(keys, q);
            var duplicate := exists id :: id in keys && (id == q.newId || keys[id].fingerprint == q.newFingerprint);
            if q.current !in keys then verdict == UnknownCurrentKey
            else if !ActiveAt(keys, q.current, q.now) then verdict == CurrentKeyNotActive
            else if !(|q.newHex| == 64 && forall i :: 0 <= i < 64 ==> IsHexDigit(q.newHex[i]))
            then verdict == InvalidKeyLength
            else if duplicate then verdict == DuplicateNewKeyId || verdict == DuplicatePublicKey
            else if !(0.0 <= q.graceSeconds <= 86400.0) then verdict == ExcessiveGracePeriod
            else if q.newExpiresAt != 0.0 && q.newExpiresAt <= q.now then verdict == InvalidExpiry
            else if q.newExpiresAt != 0.0 && q.newExpiresAt > q.now + 7776000.0 then verdict == ExcessiveKeyLifetime
            else verdict == Accepted
    ensures RotationVerdict(keys, q) == DuplicateNewKeyId ==> q.newId in keys
    ensures RotationVerdict(keys, q) == DuplicatePublicKey ==>
      exists id :: id in keys && keys[id].fingerprint == q.newFingerprint
  {
    if q.current in keys {
      RotationConflictMeans(keys, Ids(keys), q.newId, q.newFingerprint);
      RotationConflictIs(keys, Ids(keys), q.newId, q.newFingerprint);
      hide RotationConflict, Ids, Effective;
    }
  }

  lemma {:induction false} RotationConflictIs(keys: Keys, ids: seq<Bytes>, newId: Bytes, newFingerprint: Bytes)
    requires forall i :: 0 <= i < |ids| ==> ids[i] in keys
    ensures var conflict := RotationConflict(keys, ids, newId, newFingerprint);
            && (conflict == Accepted || conflict == DuplicateNewKeyId || conflict == DuplicatePublicKey)
            && (conflict == DuplicateNewKeyId ==> newId in ids)
            && (conflict == DuplicatePublicKey ==> exists id :: id in ids && keys[id].fingerprint == newFingerprint)
    decreases |ids|
  {
    if ids != [] {
      RotationConflictIs(keys, ids[1..], newId, newFingerprint);
      assert ids == [ids[0]] + ids[1..];
    }
  }

  // ----- rotation chains -----

  /** b succeeded a: a says so. */
  predicate RotatedTo(keys: Keys, a: Bytes, b: Bytes) { a in keys && keys[a].rotatedTo == b && b != [] }

  /** b succeeded a: b says so. */
  predicate RotatedFrom(keys: Keys, b: Bytes, a: Bytes) { b in keys && keys[b].rotatedFrom == a && a != [] }

  /** The two links say the same, lead to known keys, leave retired keys behind and do not go back in time. */
  ghost predicate Linked(keys: Keys) {
    && (forall a, b :: RotatedTo(keys, a, b) <==> RotatedFrom(keys, b, a))
    && (forall a, b :: RotatedTo(keys, a, b) ==>
          b in keys && keys[a].status != Active && keys[a].createdAt <= keys[b].createdAt)
  }

  ghost predicate Path(keys: Keys, p: seq<Bytes>) {
    forall i :: 0 <= i < |p| - 1 ==> RotatedTo(keys, p[i], p[i + 1])
  }

  /** No key succeeds itself, directly or over others. */
  ghost predicate Acyclic(keys: Keys) {
    forall p :: Path(keys, p) && |p| >= 2 ==> p[0] != p[|p| - 1]
  }

  ghost predicate Proper(keys: Keys, now: real) {
    Linked(keys) && Acyclic(keys) && Identified(keys, now)
  }

  /** Ids are named and match, fingerprints are unique, no key comes from the future. */
  ghost predicate Identified(keys: Keys, now: real) {
    && (forall a, b :: a in keys && b in keys && keys[a].fingerprint == keys[b].fingerprint ==> a == b)
    && (forall id :: id in keys ==> id != [] && keys[id].signingKeyId == id && keys[id].createdAt <= now)
  }

  /** The ids that callers hand in are not empty. */
  predicate Named(e: Event) {
    (e.Register? ==> e.initial.signingKeyId != []) && (e.Rotate? ==> e.rotation.newId != [])
  }

  /** A key that no rotation has replaced gets a fresh successor: the chains stay chains. */
  lemma RotationKeepsLinks(keys: Keys, q: Rotation)
    requires Linked(keys) && q.current in keys && q.newId !in keys && q.newId != [] && q.current != []
    requires keys[q.current].status == Active && keys[q.current].createdAt <= q.now
    ensures Linked(Rotated(keys, q))
  {
    var next := Rotated(keys, q);
    assert !RotatedTo(keys, q.current, keys[q.current].rotatedTo);
    forall a, b ensures RotatedTo(next, a, b) <==> (RotatedTo(keys, a, b) || (a == q.current && b == q.newId)) {
      if RotatedTo(keys, a, b) { assert a != q.current && a != q.newId; }
    }
    forall a, b ensures RotatedFrom(next, b, a) <==> (RotatedFrom(keys, b, a) || (a == q.current && b == q.newId)) {
      if RotatedFrom(keys, b, a) { assert b != q.newId; }
    }
    forall a, b | RotatedTo(next, a, b)
      ensures b in next && next[a].status != Active && next[a].createdAt <= next[b].createdAt
    {
      if !(a == q.current && b == q.newId) { assert RotatedTo(keys, a, b) && a != q.current && a != q.newId; }
    }
  }

  lemma RotationKeepsAcyclic(keys: Keys, q: Rotation)
    requires Linked(keys) && Acyclic(keys) && q.current in keys && q.newId !in keys
    ensures Acyclic(Rotated(keys, q))
  {
    var next := Rotated(keys, q);
    forall p | Path(next, p) && |p| >= 2 ensures p[0] != p[|p| - 1] {
      if p[0] == p[|p| - 1] {
        forall i | 0 <= i < |p| - 1 ensures RotatedTo(keys, p[i], p[i + 1]) {
          assert RotatedTo(next, p[i], p[i + 1]);
          assert RotatedTo(next, p[0], p[1]);
          if i + 1 < |p| - 1 { assert RotatedTo(next, p[i + 1], p[i + 2]); }
        }
        assert Path(keys, p);
      }
    }
  }

  /** Changing other fields of the records changes no chain. */
  lemma SameLinks(keys: Keys, next: Keys)
    requires keys.Keys == next.Keys
    requires forall id :: id in keys ==>
      && next[id].rotatedTo == keys[id].rotatedTo && next[id].rotatedFrom == keys[id].rotatedFrom
      && next[id].createdAt == keys[id].createdAt && (next[id].status == Active ==> keys[id].status == Active)
    ensures Linked(keys) ==> Linked(next)
    ensures Acyclic(keys) ==> Acyclic(next)
  {
    assert forall a, b :: RotatedTo(next, a, b) <==> RotatedTo(keys, a, b);
    assert forall a, b :: RotatedFrom(next, b, a) <==> RotatedFrom(keys, b, a);
    forall p | Path(next, p) ensures Path(keys, p) {
      forall i | 0 <= i < |p| - 1 ensures RotatedTo(keys, p[i], p[i + 1]) { assert RotatedTo(next, p[i], p[i + 1]); }
    }
  }

  /** A key without links joins no chain. */
  lemma IsolatedKey(keys: Keys, id: Bytes, r: KeyRecord)
    requires id !in keys && r.rotatedTo == [] && r.rotatedFrom == []
    ensures Linked(keys) ==> Linked(keys[id := r])
    ensures Acyclic(keys) ==> Acyclic(keys[id := r])
  {
    var next := keys[id := r];
    assert forall a, b :: RotatedTo(next, a, b) <==> RotatedTo(keys, a, b);
    assert forall a, b :: RotatedFrom(next, b, a) <==> RotatedFrom(keys, b, a);
    forall p | Path(next, p) ensures Path(keys, p) {
      forall i | 0 <= i < |p| - 1 ensures RotatedTo(keys, p[i], p[i + 1]) { assert RotatedTo(next, p[i], p[i + 1]); }
    }
  }

  lemma RegisterKeepsProper(keys: Keys, q: Initial, t: real)
    requires Proper(keys, t) && t <= q.now && q.signingKeyId != []
    ensures Proper(Step(keys, Register(q)), q.now)
  {
    hide Linked, Acyclic, Registered, RegisterConflict;
    if q.signingKeyId !in keys && Registered(keys, q).Ok? {
      RegisteredMeans(keys, q);
      RegisteredInserts(keys, q);
      IsolatedKey(keys, q.signingKeyId, InitialRecord(q));
    } else {
      RefusedChangesNothing(keys, q);
    }
  }

  lemma RegisteredInserts(keys: Keys, q: Initial)
    requires q.signingKeyId !in keys && Registered(keys, q).Ok?
    ensures Registered(keys, q).value.0 == keys[q.signingKeyId := InitialRecord(q)]
  {}

  lemma RefusedChangesNothing(keys: Keys, q: Initial)
    requires q.signingKeyId in keys || Registered(keys, q).Error?
    ensures Step(keys, Register(q)) == keys
  {}

  lemma RotateKeepsProper(keys: Keys, q: Rotation, t: real)
    requires Proper(keys, t) && t <= q.now && q.newId != [] && RotationVerdict(keys, q) == Accepted
    ensures Proper(Rotated(keys, q), q.now)
  {
    RotationAcceptedMeans(keys, q);
    hide Acyclic, RotationVerdict, Rotated;
    RotateKeepsIdentified(keys, q, t);
    hide Identified;
    RotationKeepsLinks(keys, q);
    RotationKeepsAcyclic(keys, q);
  }

  lemma RotateKeepsIdentified(keys: Keys, q: Rotation, t: real)
    requires Identified(keys, t) && t <= q.now && q.newId != [] && q.current in keys
    requires forall id :: id in keys ==> id != q.newId && keys[id].fingerprint != q.newFingerprint
    ensures Identified(Rotated(keys, q), q.now)
  {}

  lemma RevokeKeepsProper(keys: Keys, id: Bytes, reason: Bytes, now: real, t: real)
    requires Proper(keys, t) && t <= now && id in keys
    ensures Proper(keys[id := RevokedRecord(keys[id], reason, now)], now)
  {
    RevokeKeepsIdentified(keys, id, reason, now, t);
    hide Linked, Acyclic, Identified;
    SameLinks(keys, keys[id := RevokedRecord(keys[id], reason, now)]);
  }

  lemma RevokeKeepsIdentified(keys: Keys, id: Bytes, reason: Bytes, now: real, t: real)
    requires Identified(keys, t) && t <= now && id in keys
    ensures Identified(keys[id := RevokedRecord(keys[id], reason, now)], now)
  {}

  lemma SweepKeepsProper(keys: Keys, now: real, t: real)
    requires Proper(keys, t) && t <= now
    ensures Proper(Swept(keys, now), now)
  {
    SweepKeepsIdentified(keys, now, t);
    hide Linked, Acyclic, Identified;
    SameLinks(keys, Swept(keys, now));
  }

  lemma SweepKeepsIdentified(keys: Keys, now: real, t: real)
    requires Identified(keys, t) && t <= now
    ensures Identified(Swept(keys, now), now)
  {
    var next := Swept(keys, now);
    assert forall id :: id in next ==> next[id].fingerprint == keys[id].fingerprint;
  }

  lemma StepKeepsProper(keys: Keys, e: Event, t: real)
    requires Proper(keys, t) && t <= TimeOf(e) && Named(e)
    ensures Proper(Step(keys, e), TimeOf(e))
  {
    hide Linked, Acyclic, Registered, RotationVerdict, Rotated, Swept, RevokedRecord;
    match e
    case Register(q) => RegisterKeepsProper(keys, q, t);
    case Rotate(q) => if RotationVerdict(keys, q) == Accepted { RotateKeepsProper(keys, q, t); }
    case Revoke(id, reason, now) => if id in keys { RevokeKeepsProper(keys, id, reason, now, t); }
    case Sweep(now) => SweepKeepsProper(keys, now, t);
  }

  /** Over every run with named keys the rotation links are mutually inverse and acyclic, creation times do not fall
      along them, and no two keys share a fingerprint. */
  lemma {:induction false} ChainsStayProper(keys: Keys, events: seq<Event>, start: real)
    requires Proper(keys, start) && Timed(events, start) && forall i :: 0 <= i < |events| ==> Named(events[i])
    ensures Proper(Run(keys, events), EndTime(events, start))
    decreases |events|
  {
    if events != [] {
      hide Proper;
      StepKeepsProper(keys, events[0], start);
      ChainsStayProper(Step(keys, events[0]), events[1..], TimeOf(events[0]));
    }
  }

  /** With mutually inverse links every key has at most one successor and at most one predecessor. */
  lemma ChainsDoNotBranch(keys: Keys, a: Bytes, b: Bytes, c: Bytes)
    requires Linked(keys)
    ensures RotatedTo(keys, a, c) && RotatedTo(keys, b, c) ==> a == b
    ensures RotatedFrom(keys, b, a) && RotatedFrom(keys, c, a) ==> b == c
  {
    assert RotatedTo(keys, a, c) ==> RotatedFrom(keys, c, a);
    assert RotatedTo(keys, b, c) ==> RotatedFrom(keys, c, b);
    assert RotatedFrom(keys, b, a) ==> RotatedTo(keys, a, b);
    assert RotatedFrom(keys, c, a) ==> RotatedTo(keys, a, c);
  }

  lemma BreaksLinks(keys: Keys, q: Rotation)
    requires q.current in keys && q.newId !in keys && (q.current == [] || q.newId == [])
    ensures !Linked(Rotated(keys, q))
  {
    var next := Rotated(keys, q);
    assert q.newId == [] ==> RotatedFrom(next, q.newId, q.current) && !RotatedTo(next, q.current, q.newId);
    assert q.newId != [] ==> RotatedTo(next, q.current, q.newId) && !RotatedFrom(next, q.newId, q.current);
  }

  /** No key comes from the future. */
  ghost predicate Dated(keys: Keys, now: real) {
    forall id :: id in keys ==> keys[id].createdAt <= now
  }

  /** An accepted rotation keeps the links mutually inverse exactly when neither id is empty. */
  lemma LinksAfterRotation(keys: Keys, q: Rotation)
    requires Linked(keys) && Dated(keys, q.now) && RotationVerdict(keys, q) == Accepted
    ensures Linked(Rotated(keys, q)) <==> q.current != [] && q.newId != []
  {
    RotationAcceptedMeans(keys, q);
    hide RotationVerdict, Linked, Rotated;
    if q.current != [] && q.newId != [] { RotationKeepsLinks(keys, q); } else { BreaksLinks(keys, q); }
  }

  /** An accepted rotation from or to the empty id. */
  ghost predicate RotatesEmptyId(keys: Keys, e: Event) {
    e.Rotate? && RotationVerdict(keys, e.rotation) == Accepted && (e.rotation.current == [] || e.rotation.newId == [])
  }

  ghost predicate NeverRotatesEmptyId(keys: Keys, events: seq<Event>)
    decreases |events|
  {
    events != [] ==> !RotatesEmptyId(keys, events[0]) && NeverRotatesEmptyId(Step(keys, events[0]), events[1..])
  }

  ghost predicate AlwaysLinked(keys: Keys, events: seq<Event>)
    decreases |events|
  {
    events != [] ==> Linked(Step(keys, events[0])) && AlwaysLinked(Step(keys, events[0]), events[1..])
  }

  lemma StepLinks(keys: Keys, e: Event, t: real)
    requires Linked(keys) && Dated(keys, t) && t <= TimeOf(e)
    ensures Linked(Step(keys, e)) <==> !RotatesEmptyId(keys, e)
    ensures Dated(Step(keys, e), TimeOf(e))
  {
    hide Linked, Acyclic, Registered, RotationVerdict;
    match e
    case Register(q) =>
      if q.signingKeyId !in keys && Registered(keys, q).Ok? {
        RegisteredInserts(keys, q);
        IsolatedKey(keys, q.signingKeyId, InitialRecord(q));
      } else {
        RefusedChangesNothing(keys, q);
      }
    case Rotate(q) =>
      if RotationVerdict(keys, q) == Accepted {
        RotationAcceptedMeans(keys, q);
        LinksAfterRotation(keys, q);
      }
    case Revoke(id, reason, now) => if id in keys { SameLinks(keys, Step(keys, e)); }
    case Sweep(now) => SameLinks(keys, Step(keys, e));
  }

  /** Over any run whose clock does not run backwards the links stay mutually inverse exactly when no accepted rotation
      is from or to the empty id; a key that is merely registered under the empty id does no harm. */
  lemma {:induction false} LinkedExactlyWhenNamed(keys: Keys, events: seq<Event>, start: real)
    requires Linked(keys) && Dated(keys, start) && Timed(events, start)
    ensures AlwaysLinked(keys, events) <==> NeverRotatesEmptyId(keys, events)
    decreases |events|
  {
    if events != [] {
      hide Step, Linked, Dated, RotatesEmptyId;
      StepLinks(keys, events[0], start);
      if Linked(Step(keys, events[0])) {
        LinkedExactlyWhenNamed(Step(keys, events[0]), events[1..], TimeOf(events[0]));
      }
    }
  }

  /** A key registered under the empty id breaks this: its successor's back link reads as no link. */
  lemma EmptyIdBreaksLinks(hex1: Bytes, hex2: Bytes)
    requires ValidKeyHex(hex1) && ValidKeyHex(hex2)
    ensures var keys := Run(map[], [Register(Initial([], hex1, "1", 0.0, 0.0)),
                                    Rotate(Rotation([], "b", hex2, "2", 0.0, 0.0, 0.0))]);
            RotatedTo(keys, [], "b") && !RotatedFrom(keys, "b", [])
  {
    var first := Register(Initial([], hex1, "1", 0.0, 0.0));
    var second := Rotate(Rotation([], "b", hex2, "2", 0.0, 0.0, 0.0));
    RegisteredMeans(map[], first.initial);
    var keys := Step(map[], first);
    RotationAcceptedMeans(keys, second.rotation);
    assert [first, second][1..] == [second] && [second][1..] == [];
    assert Run(map[], [first, second]) == Run(keys, [second]) == Run(Step(keys, second), []);
  }

  // ----- status only moves forward -----

  function Rank(s: Status): nat {
    match s case Active => 0 case GracePeriod => 1 case Expired => 2 case Revoked => 3
  }

  /** What a step may do to one record. */
  predicate Onward(before: KeyRecord, after: KeyRecord) {
    && Rank(before.status) <= Rank(after.status) && (before.status == Revoked ==> after == before)
    && before.publicKeyHex == after.publicKeyHex && before.fingerprint == after.fingerprint
    && before.createdAt == after.createdAt && before.rotatedFrom == after.rotatedFrom
  }

  predicate Forward(before: KeyRecord, after: KeyRecord) {
    Onward(before, after) && (before.rotatedTo != [] ==> after.rotatedTo == before.rotatedTo)
  }

  lemma StepMovesOnward(keys: Keys, e: Event, id: Bytes)
    requires id in keys
    ensures id in Step(keys, e) && Onward(keys[id], Step(keys, e)[id])
  {
    match e
    case Register(q) =>
      hide Registered;
      if q.signingKeyId !in keys && Registered(keys, q).Ok? {
        RegisteredInserts(keys, q);
      } else {
        RefusedChangesNothing(keys, q);
      }
    case Rotate(q) =>
      hide RotationVerdict, Rotated, Onward;
      if RotationVerdict(keys, q) == Accepted { RotatedOnward(keys, q, id); } else { SameOnward(keys[id]); }
    case Revoke(_, _, _) =>
    case Sweep(_) =>
  }

  lemma SameOnward(r: KeyRecord)
    ensures Onward(r, r)
  {}

  lemma RotatedOnward(keys: Keys, q: Rotation, id: Bytes)
    requires id in keys && RotationVerdict(keys, q) == Accepted
    ensures id in Rotated(keys, q) && Onward(keys[id], Rotated(keys, q)[id])
  {
    RotationAcceptedMeans(keys, q);
    hide RotationVerdict;
  }

  lemma StepMovesForward(keys: Keys, e: Event, id: Bytes)
    requires Linked(keys) && id in keys
    ensures id in Step(keys, e) && Forward(keys[id], Step(keys, e)[id])
  {
    StepMovesOnward(keys, e, id);
    match e
    case Register(q) =>
      hide RegisterConflict, Linked, Onward;
    case Rotate(q) =>
      if RotationVerdict(keys, q) == Accepted { RotatedKeepsSuccessor(keys, q, id); }
      hide RotationVerdict, Linked, Rotated, Onward;
    case Revoke(_, _, _) =>
      hide Linked, Onward;
    case Sweep(_) =>
      hide Linked, Onward;
  }

  lemma RotatedKeepsSuccessor(keys: Keys, q: Rotation, id: Bytes)
    requires Linked(keys) && id in keys && RotationVerdict(keys, q) == Accepted
    ensures id in Rotated(keys, q)
    ensures keys[id].rotatedTo != [] ==> Rotated(keys, q)[id].rotatedTo == keys[id].rotatedTo
  {
    RotationAcceptedMeans(keys, q);
    var b := keys[q.current].rotatedTo;
    assert !RotatedTo(keys, q.current, b);
    hide RotationVerdict;
  }

  /** Over any run whatever keys are never removed, their stored status never goes back, and a revoked record is
      final. */
  lemma {:induction false} StatusNeverGoesBack(keys: Keys, events: seq<Event>, id: Bytes)
    requires id in keys
    ensures id in Run(keys, events) && Onward(keys[id], Run(keys, events)[id])
    decreases |events|
  {
    if events != [] {
      StepMovesOnward(keys, events[0], id);
      hide Step;
      StatusNeverGoesBack(Step(keys, events[0]), events[1..], id);
    }
  }

  lemma {:induction false} RunAppends(keys: Keys, a: seq<Event>, b: seq<Event>)
    ensures Run(keys, a + b) == Run(Run(keys, a), b)
    decreases |a|
  {
    if a == [] {
      assert a + b == b;
    } else {
      hide Step;
      assert (a + b)[1..] == a[1..] + b;
      RunAppends(Step(keys, a[0]), a[1..], b);
    }
  }

  /** Revoking a known key: from then on it is trusted at no time; the first revocation stores its time and reason,
      later ones nothing, and nothing else changes. */
  lemma RevokeMeans(keys: Keys, id: Bytes, reason: Bytes, now: real)
    requires id in keys
    ensures var next := Step(keys, Revoke(id, reason, now));
            && next.Keys == keys.Keys && next[id].status == Revoked && (forall t :: !TrustedAt(next, id, t))
            && Onward(keys[id], next[id]) && next[id].rotatedTo == keys[id].rotatedTo
            && (keys[id].status != Revoked ==> next[id].revokedAt == now && next[id].revocationReason == reason)
            && (keys[id].status == Revoked ==> next[id] == keys[id])
            && forall other :: other in keys && other != id ==> next[other] == keys[other]
  {}

  /** Whatever follows, a key that was revoked at some point of a run is never trusted again. */
  lemma RevokedForGood(keys: Keys, before: seq<Event>, id: Bytes, reason: Bytes, now: real, after: seq<Event>, t: real)
    requires id in Run(keys, before)
    ensures !TrustedAt(Run(keys, before + [Revoke(id, reason, now)] + after), id, t)
  {
    var events, call := before + [Revoke(id, reason, now)], [Revoke(id, reason, now)];
    var known := Run(keys, before);
    var revoked := Step(known, Revoke(id, reason, now));
    RunAppends(keys, events, after);
    RunAppends(keys, before, call);
    assert call[1..] == [];
    assert Run(known, call) == Run(revoked, []) == revoked;
    RevokeMeans(known, id, reason, now);
    StatusNeverGoesBack(revoked, after, id);
  }

  /** With named keys and a clock that does not run backwards, a key's successor never changes either. */
  lemma {:induction false} StatusMovesForward(keys: Keys, events: seq<Event>, start: real, id: Bytes)
    requires Proper(keys, start) && Timed(events, start) && id in keys
    requires forall i :: 0 <= i < |events| ==> Named(events[i])
    ensures id in Run(keys, events) && Forward(keys[id], Run(keys, events)[id])
    decreases |events|
  {
    if events != [] {
      StepMovesForward(keys, events[0], id);
      StepKeepsProper(keys, events[0], start);
      hide Proper;
      StatusMovesForward(Step(keys, events[0]), events[1..], TimeOf(events[0]), id);
    }
  }

  // ----- the clock matters -----

  predicate StoredActive(keys: Keys, id: Bytes) { id in keys && keys[id].status == Active }

  ghost predicate OneStored(keys: Keys) {
    forall a, b :: StoredActive(keys, a) && StoredActive(keys, b) ==> a == b
  }

  /** An early enough time. */
  function Before(r: KeyRecord, s: KeyRecord): real {
    (if r.expiresAt < s.expiresAt then r.expiresAt else s.expiresAt) - 1.0
  }

  /** At most one key is active at every reading of the clock exactly when at most one is stored as active. */
  lemma OneActiveAtEveryTime(keys: Keys)
    ensures (forall t :: OneActive(keys, t)) <==> OneStored(keys)
  {
    if forall t :: OneActive(keys, t) {
      forall a, b | StoredActive(keys, a) && StoredActive(keys, b) ensures a == b {
        var t := Before(keys[a], keys[b]);
        assert ActiveAt(keys, a, t) && ActiveAt(keys, b, t) && OneActive(keys, t);
      }
    } else {
      var t :| !OneActive(keys, t);
      assert forall id :: ActiveAt(keys, id, t) ==> StoredActive(keys, id);
    }
  }

  /** A registration that adds a key. */
  ghost predicate AddsKey(keys: Keys, e: Event) {
    e.Register? && e.initial.signingKeyId !in keys && Registered(keys, e.initial).Ok?
  }

  ghost predicate NoneStored(keys: Keys) {
    forall id :: !StoredActive(keys, id)
  }

  /** Every registration that adds a key finds none that is stored as active. */
  ghost predicate RegistersAlone(keys: Keys, events: seq<Event>)
    decreases |events|
  {
    events != [] ==>
      (AddsKey(keys, events[0]) ==> NoneStored(keys)) && RegistersAlone(Step(keys, events[0]), events[1..])
  }

  /** After every call at most one key is active, at whatever time it is asked for. */
  ghost predicate AlwaysOneActive(keys: Keys, events: seq<Event>)
    decreases |events|
  {
    events != [] ==>
      (forall t :: OneActive(Step(keys, events[0]), t)) && AlwaysOneActive(Step(keys, events[0]), events[1..])
  }

  lemma StepStored(keys: Keys, e: Event)
    requires OneStored(keys)
    ensures OneStored(Step(keys, e)) <==> (AddsKey(keys, e) ==> NoneStored(keys))
  {
    match e
    case Register(q) =>
      hide Registered;
      if AddsKey(keys, e) { AddedStored(keys, q); } else { RefusedChangesNothing(keys, q); }
    case Rotate(q) =>
      if RotationVerdict(keys, q) == Accepted { RotatedStored(keys, q); }
    case Revoke(id, reason, now) =>
      forall a | StoredActive(Step(keys, e), a) ensures StoredActive(keys, a) {}
    case Sweep(now) =>
      forall a | StoredActive(Step(keys, e), a) ensures StoredActive(keys, a) {}
  }

  lemma AddedStored(keys: Keys, q: Initial)
    requires OneStored(keys) && q.signingKeyId !in keys && Registered(keys, q).Ok?
    ensures OneStored(Step(keys, Register(q))) <==> NoneStored(keys)
  {
    RegisteredInserts(keys, q);
    hide Registered;
    var next := Step(keys, Register(q));
    assert StoredActive(next, q.signingKeyId);
    assert forall id :: id != q.signingKeyId ==> (StoredActive(next, id) <==> StoredActive(keys, id));
  }

  lemma RotatedStored(keys: Keys, q: Rotation)
    requires OneStored(keys) && RotationVerdict(keys, q) == Accepted
    ensures OneStored(Rotated(keys, q))
  {
    RotationAcceptedMeans(keys, q);
    hide RotationVerdict;
    assert StoredActive(keys, q.current);
    forall a | StoredActive(Rotated(keys, q), a) ensures a == q.newId {
      assert a != q.newId ==> a != q.current && StoredActive(keys, a);
    }
  }

  /** Whatever the clock does, at most one key is active at any time after every call exactly when every registration
      that adds a key finds none stored as active: an active key whose time has come counts until a sweep, a rotation
      or a revocation retires it. */
  lemma {:induction false} OneActiveExactlyWhenAlone(keys: Keys, events: seq<Event>)
    requires OneStored(keys)
    ensures AlwaysOneActive(keys, events) <==> RegistersAlone(keys, events)
    decreases |events|
  {
    if events != [] {
      hide Step, OneStored, OneActive, AddsKey, NoneStored;
      var next := Step(keys, events[0]);
      StepStored(keys, events[0]);
      OneActiveAtEveryTime(next);
      if OneStored(next) { OneActiveExactlyWhenAlone(next, events[1..]); }
    }
  }

  /** If the clock runs backwards two keys can be active at once: the first one expired when the second came, and is
      active again for a question asked about an earlier time. */
  lemma BackwardClockRevivesKey(hex1: Bytes, hex2: Bytes)
    requires ValidKeyHex(hex1) && ValidKeyHex(hex2)
    ensures var keys := Run(map[], [Register(Initial("a", hex1, "1", 0.0, 10.0)),
                                    Register(Initial("b", hex2, "2", 20.0, 0.0))]);
            OneActive(keys, 20.0) && !OneActive(keys, 5.0)
  {
    var first, second := Initial("a", hex1, "1", 0.0, 10.0), Initial("b", hex2, "2", 20.0, 0.0);
    RegisteredMeans(map[], first);
    var keys := Step(map[], Register(first));
    RegisteredInserts(map[], first);
    RegisteredMeans(keys, second);
    RegisteredInserts(keys, second);
    var next := Step(keys, Register(second));
    assert [Register(first), Register(second)][1..] == [Register(second)] && [Register(second)][1..] == [];
    assert Run(map[], [Register(first), Register(second)]) == Run(keys, [Register(second)]) == Run(next, []);
    assert ActiveAt(next, "a", 5.0) && ActiveAt(next, "b", 5.0);
  }

  // ----- at most one key in its grace period? -----

  ghost predicate OneGrace(keys: Keys, now: real) {
    forall a, b :: GraceAt(keys, a, now) && GraceAt(keys, b, now) ==> a == b
  }

  ghost predicate NoGrace(keys: Keys, now: real) {
    forall a :: !GraceAt(keys, a, now)
  }

  /** A rotation with a grace period keeps at most one key in grace exactly when none was. */
  lemma GraceAfterRotation(keys: Keys, q: Rotation)
    requires OneGrace(keys, q.now) && RotationVerdict(keys, q) == Accepted
    ensures OneGrace(Rotated(keys, q), q.now) <==> (q.graceSeconds > 0.0 ==> NoGrace(keys, q.now))
  {
    RotationAcceptedMeans(keys, q);
    hide RotationVerdict;
    var next := Rotated(keys, q);
    forall id
      ensures GraceAt(next, id, q.now) <==> GraceAt(keys, id, q.now) || (id == q.current && q.graceSeconds > 0.0)
    {}
    assert q.graceSeconds > 0.0 ==> GraceAt(next, q.current, q.now);
    assert !GraceAt(keys, q.current, q.now);
  }

  /** An accepted rotation with a grace period. */
  ghost predicate GrantsGrace(keys: Keys, e: Event) {
    e.Rotate? && RotationVerdict(keys, e.rotation) == Accepted && e.rotation.graceSeconds > 0.0
  }

  /** Every accepted rotation with a grace period finds no key in grace. */
  ghost predicate GraceGuarded(keys: Keys, events: seq<Event>)
    decreases |events|
  {
    events != [] ==>
      && (GrantsGrace(keys, events[0]) ==> NoGrace(keys, TimeOf(events[0])))
      && GraceGuarded(Step(keys, events[0]), events[1..])
  }

  ghost predicate AlwaysOneGrace(keys: Keys, events: seq<Event>)
    decreases |events|
  {
    events != [] ==>
      OneGrace(Step(keys, events[0]), TimeOf(events[0])) && AlwaysOneGrace(Step(keys, events[0]), events[1..])
  }

  lemma StepGrace(keys: Keys, e: Event, t: real)
    requires OneGrace(keys, t) && t <= TimeOf(e)
    ensures OneGrace(Step(keys, e), TimeOf(e)) <==> (GrantsGrace(keys, e) ==> NoGrace(keys, TimeOf(e)))
  {
    forall id ensures GraceAt(keys, id, TimeOf(e)) ==> GraceAt(keys, id, t) { ActivityFades(keys, id, t, TimeOf(e)); }
    if e.Rotate? {
      if RotationVerdict(keys, e.rotation) == Accepted { GraceAfterRotation(keys, e.rotation); }
    } else {
      forall id ensures GraceAt(Step(keys, e), id, TimeOf(e)) ==> GraceAt(keys, id, TimeOf(e)) {
        GraceNotGained(keys, e, id);
      }
    }
  }

  lemma GraceNotGained(keys: Keys, e: Event, id: Bytes)
    requires !e.Rotate?
    ensures GraceAt(Step(keys, e), id, TimeOf(e)) ==> GraceAt(keys, id, TimeOf(e))
  {
    hide RegisterConflict;
  }

  /** The header's claim of at most one key in its grace period holds over a run exactly when every accepted rotation
      with a grace period comes after the previous grace period has ended. */
  lemma {:induction false} OneGraceExactlyWhenGuarded(keys: Keys, events: seq<Event>, start: real)
    requires OneGrace(keys, start) && Timed(events, start)
    ensures AlwaysOneGrace(keys, events) <==> GraceGuarded(keys, events)
    decreases |events|
  {
    if events != [] {
      hide Step, OneGrace, NoGrace;
      StepGrace(keys, events[0], start);
      if OneGrace(Step(keys, events[0]), TimeOf(events[0])) {
        OneGraceExactlyWhenGuarded(Step(keys, events[0]), events[1..], TimeOf(events[0]));
      }
    }
  }

  lemma GracePeriodsOverlap(keys: Keys, first: Rotation, second: Rotation)
    requires RotationVerdict(keys, first) == Accepted && RotationVerdict(Rotated(keys, first), second) == Accepted
    requires first.graceSeconds > 0.0 && second.graceSeconds > 0.0 && second.current == first.newId
    requires second.now < first.now + first.graceSeconds
    ensures var next := Rotated(Rotated(keys, first), second);
            GraceAt(next, first.current, second.now) && GraceAt(next, second.current, second.now)
            && first.current != second.current
  {
    RotationAcceptedMeans(keys, first);
    RotationAcceptedMeans(Rotated(keys, first), second);
    hide RotationVerdict, Rotated;
    RetiredInGrace(keys, first, second.now);
    RetiredInGrace(Rotated(keys, first), second, second.now);
    RotationKeepsGrace(Rotated(keys, first), second, first.current);
  }

  lemma RetiredInGrace(keys: Keys, q: Rotation, now: real)
    requires q.current in keys && q.newId !in keys && q.graceSeconds > 0.0 && now < q.now + q.graceSeconds
    ensures GraceAt(Rotated(keys, q), q.current, now) && q.newId in Rotated(keys, q)
  {}

  lemma RotationKeepsGrace(keys: Keys, q: Rotation, id: Bytes)
    requires q.current in keys && q.newId !in keys && id != q.current && GraceAt(keys, id, q.now)
    ensures GraceAt(Rotated(keys, q), id, q.now)
  {}

  /** It fails for two rotations in quick succession. */
  lemma TwoKeysInGrace(hex1: Bytes, hex2: Bytes, hex3: Bytes)
    requires ValidKeyHex(hex1) && ValidKeyHex(hex2) && ValidKeyHex(hex3)
    ensures var keys := Step(map[], Register(Initial("a", hex1, "1", 0.0, 0.0)));
            var next := Step(keys, Rotate(Rotation("a", "b", hex2, "2", 0.0, 100.0, 1.0)));
            !OneGrace(Step(next, Rotate(Rotation("b", "c", hex3, "3", 0.0, 100.0, 2.0))), 2.0)
  {
    hide Registered, RotationVerdict, RegisterConflict, RotationConflict, Ids;
    var first := Initial("a", hex1, "1", 0.0, 0.0);
    var second, third := Rotation("a", "b", hex2, "2", 0.0, 100.0, 1.0), Rotation("b", "c", hex3, "3", 0.0, 100.0, 2.0);
    RegisteredMeans(map[], first);
    RegisteredInserts(map[], first);
    var keys := Step(map[], Register(first));
    RotationAcceptedMeans(keys, second);
    RotationAcceptedMeans(Rotated(keys, second), third);
    GracePeriodsOverlap(keys, second, third);
  }

  // ----- the sweep is invisible -----

  /** From time t on, both look the same. */
  ghost predicate SameView(r: Keys, s: Keys, t: real) {
    r.Keys == s.Keys && forall id, now :: id in r && t <= now ==> Effective(r[id], now) == Effective(s[id], now)
  }

  lemma SweepUnseen(r: KeyRecord, now: real, later: real)
    requires now <= later
    ensures Effective(SweptRecord(r, now), later) == Effective(r, later)
  {}

  lemma SweepKeepsView(r: Keys, s: Keys, t: real, now: real)
    requires SameView(r, s, t) && t <= now
    ensures SameView(Swept(r, now), s, now)
  {
    forall id, later | id in r && now <= later ensures Effective(Swept(r, now)[id], later) == Effective(s[id], later) {
      SweepUnseen(r[id], now, later);
    }
  }

  lemma {:induction false} SameConflicts(r: Keys, s: Keys, ids: seq<Bytes>, now: real, fingerprint: Bytes, newId: Bytes)
    requires SameView(r, s, now) && forall i :: 0 <= i < |ids| ==> ids[i] in r
    ensures RegisterConflict(r, ids, fingerprint, now) == RegisterConflict(s, ids, fingerprint, now)
    ensures RotationConflict(r, ids, newId, fingerprint) == RotationConflict(s, ids, newId, fingerprint)
    decreases |ids|
  {
    if ids != [] {
      assert Effective(r[ids[0]], now) == Effective(s[ids[0]], now);
      SameConflicts(r, s, ids[1..], now, fingerprint, newId);
    }
  }

  lemma {:induction false} SameLists(r: Keys, s: Keys, ids: seq<Bytes>, now: real)
    requires SameView(r, s, now) && forall i :: 0 <= i < |ids| ==> ids[i] in r
    ensures FirstActive(r, ids, now) == FirstActive(s, ids, now)
    ensures TrustedIn(r, ids, now) == TrustedIn(s, ids, now)
    ensures ListedIn(r, ids, now) == ListedIn(s, ids, now)
    decreases |ids|
  {
    if ids != [] {
      assert Effective(r[ids[0]], now) == Effective(s[ids[0]], now);
      SameLists(r, s, ids[1..], now);
    }
  }

  /** Every question asked from time t on gets the same answer. */
  lemma SameAnswers(r: Keys, s: Keys, t: real, now: real, id: Bytes)
    requires SameView(r, s, t) && t <= now
    ensures Find(r, id, now) == Find(s, id, now)
    ensures ActiveKey(r, now) == ActiveKey(s, now)
    ensures TrustedKeys(r, now) == TrustedKeys(s, now)
    ensures ListKeys(r, now) == ListKeys(s, now)
  {
    assert Ids(r) == Ids(s);
    SameLists(r, s, Ids(r), now);
    hide FirstActive, TrustedIn, ListedIn, Ids;
  }

  lemma SameVerdict(r: Keys, s: Keys, t: real, q: Rotation)
    requires SameView(r, s, t) && t <= q.now
    ensures RotationVerdict(r, q) == RotationVerdict(s, q)
  {
    hide RotationConflict, RegisterConflict, TermsVerdict, Ids, ValidKeyHex, Effective, SameView, ActiveAt;
    SameActivity(r, s, t, q);
    SameConflicts(r, s, Ids(r), q.now, q.newFingerprint, q.newId);
  }

  lemma SameActivity(r: Keys, s: Keys, t: real, q: Rotation)
    requires SameView(r, s, t) && t <= q.now
    ensures SameView(r, s, q.now) && r.Keys == s.Keys && Ids(r) == Ids(s)
    ensures ActiveAt(r, q.current, q.now) == ActiveAt(s, q.current, q.now)
  {
    assert Ids(r) == Ids(s);
    hide Ids;
    if q.current in r { assert Effective(r[q.current], q.now) == Effective(s[q.current], q.now); }
  }

  lemma SameRegistration(r: Keys, s: Keys, q: Initial)
    requires SameView(r, s, q.now)
    ensures Registered(r, q).Ok? <==> Registered(s, q).Ok?
    ensures Registered(r, q).Error? ==> Registered(r, q).message == Registered(s, q).message
  {
    hide RegisterConflict, RotationConflict, Ids, ValidKeyHex, SameView, Effective;
    SameKnown(r, s, q);
    SameConflicts(r, s, Ids(r), q.now, q.fingerprint, []);
  }

  lemma SameKnown(r: Keys, s: Keys, q: Initial)
    requires SameView(r, s, q.now)
    ensures r.Keys == s.Keys && Ids(r) == Ids(s)
    ensures q.signingKeyId in r ==> r[q.signingKeyId].publicKeyHex == s[q.signingKeyId].publicKeyHex
  {
    assert Ids(r) == Ids(s);
    hide Ids;
    if q.signingKeyId in r { assert Effective(r[q.signingKeyId], q.now) == Effective(s[q.signingKeyId], q.now); }
  }

  lemma RegisterKeepsView(r: Keys, s: Keys, q: Initial)
    requires SameView(r, s, q.now)
    ensures SameView(Step(r, Register(q)), Step(s, Register(q)), q.now)
  {
    SameRegistration(r, s, q);
    if q.signingKeyId in r || Registered(r, q).Error? {
      RefusedChangesNothing(r, q);
      RefusedChangesNothing(s, q);
    } else {
      RegisteredInserts(r, q);
      RegisteredInserts(s, q);
    }
    hide Registered;
  }

  lemma RotateKeepsView(r: Keys, s: Keys, q: Rotation)
    requires SameView(r, s, q.now)
    ensures SameView(Step(r, Rotate(q)), Step(s, Rotate(q)), q.now)
  {
    SameVerdict(r, s, q.now, q);
    RotationAcceptedMeans(r, q);
    RotationAcceptedMeans(s, q);
    hide RotationVerdict;
    if RotationVerdict(r, q) == Accepted { assert Effective(r[q.current], q.now) == r[q.current] == s[q.current]; }
  }

  lemma RevokeKeepsView(r: Keys, s: Keys, id: Bytes, reason: Bytes, now: real)
    requires SameView(r, s, now)
    ensures SameView(Step(r, Revoke(id, reason, now)), Step(s, Revoke(id, reason, now)), now)
  {
    if id in r { assert Effective(r[id], now) == Effective(s[id], now); }
  }

  function WithoutSweeps(events: seq<Event>): seq<Event> {
    if events == [] then []
    else (if events[0].Sweep? then [] else [events[0]]) + WithoutSweeps(events[1..])
  }

  lemma StepKeepsView(r: Keys, s: Keys, e: Event, t: real)
    requires SameView(r, s, t) && t <= TimeOf(e)
    ensures SameView(Step(r, e), if e.Sweep? then s else Step(s, e), TimeOf(e))
  {
    assert SameView(r, s, TimeOf(e));
    match e
    case Register(q) => RegisterKeepsView(r, s, q);
    case Rotate(q) => RotateKeepsView(r, s, q);
    case Revoke(id, reason, now) => RevokeKeepsView(r, s, id, reason, now);
    case Sweep(now) => SweepKeepsView(r, s, t, now);
  }

  /** A run looks the same as the run without its sweeps. */
  lemma {:induction false} SweepsAreInvisible(r: Keys, s: Keys, events: seq<Event>, start: real)
    requires SameView(r, s, start) && Timed(events, start)
    ensures SameView(Run(r, events), Run(s, WithoutSweeps(events)), EndTime(events, start))
    decreases |events|
  {
    if events != [] {
      hide SameView, Step;
      var e, rest := events[0], WithoutSweeps(events[1..]);
      StepKeepsView(r, s, e, start);
      SweepsAreInvisible(Step(r, e), if e.Sweep? then s else Step(s, e), events[1..], TimeOf(e));
      assert [] + rest == rest && ([e] + rest)[1..] == rest;
      assert WithoutSweeps(events) == if e.Sweep? then rest else [e] + rest;
    }
  }

  /** Sweeps at any points of a run change no later answer. */
  lemma SweepsChangeNoAnswer(keys: Keys, some: seq<Event>, other: seq<Event>, start: real, now: real, id: Bytes,
                             q: Rotation)
    requires Timed(some, start) && Timed(other, start) && WithoutSweeps(some) == WithoutSweeps(other)
    requires EndTime(some, start) <= now && EndTime(other, start) <= now && now <= q.now
    ensures Find(Run(keys, some), id, now) == Find(Run(keys, other), id, now)
    ensures ActiveKey(Run(keys, some), now) == ActiveKey(Run(keys, other), now)
    ensures TrustedKeys(Run(keys, some), now) == TrustedKeys(Run(keys, other), now)
    ensures ListKeys(Run(keys, some), now) == ListKeys(Run(keys, other), now)
    ensures RotationVerdict(Run(keys, some), q) == RotationVerdict(Run(keys, other), q)
  {
    SweepsAreInvisible(keys, keys, some, start);
    SweepsAreInvisible(keys, keys, other, start);
    var plain := Run(keys, WithoutSweeps(some));
    SameAnswers(Run(keys, some), plain, EndTime(some, start), now, id);
    SameAnswers(Run(keys, other), plain, EndTime(other, start), now, id);
    SameVerdict(Run(keys, some), plain, EndTime(some, start), q);
    SameVerdict(Run(keys, other), plain, EndTime(other, start), q);
  }

  /** The one exception: registering a known key again returns the stored record as it is. A sweep shows in it exactly
      when it changes that record: the key's time has come and no sweep has noted it. */
  lemma SweepShowsExactly(keys: Keys, q: Initial, t: real)
    requires q.signingKeyId in keys && keys[q.signingKeyId].publicKeyHex == q.publicKeyHex
    requires ValidKeyHex(q.publicKeyHex)
    ensures Registered(keys, q).Ok? && Registered(Swept(keys, t), q).Ok?
    ensures Registered(keys, q).value.1 == Registered(Swept(keys, t), q).value.1 <==>
            (keys[q.signingKeyId].status == Expired || Effective(keys[q.signingKeyId], t).status != Expired)
  {}

  /** Over runs: after two runs that differ only in sweeps, registering a known key returns the same record exactly
      when both have stored it with the same status. */
  lemma RegistrationAfterSweeps(keys: Keys, some: seq<Event>, other: seq<Event>, start: real, q: Initial)
    requires Timed(some, start) && Timed(other, start) && WithoutSweeps(some) == WithoutSweeps(other)
    requires EndTime(some, start) <= q.now && EndTime(other, start) <= q.now
    requires q.signingKeyId in Run(keys, some) && Registered(Run(keys, some), q).Ok?
    ensures q.signingKeyId in Run(keys, other) && Registered(Run(keys, other), q).Ok?
    ensures Registered(Run(keys, some), q).value.1 == Registered(Run(keys, other), q).value.1 <==>
            Run(keys, some)[q.signingKeyId].status == Run(keys, other)[q.signingKeyId].status
  {
    SweepsAreInvisible(keys, keys, some, start);
    SweepsAreInvisible(keys, keys, other, start);
    hide Run, WithoutSweeps, Timed, EndTime, Registered;
    SameRecordReturned(Run(keys, some), Run(keys, other), Run(keys, WithoutSweeps(some)), q);
  }

  lemma SameRecordReturned(r: Keys, s: Keys, plain: Keys, q: Initial)
    requires SameView(r, plain, q.now) && SameView(s, plain, q.now)
    requires q.signingKeyId in r && Registered(r, q).Ok?
    ensures q.signingKeyId in s && Registered(s, q).Ok?
    ensures Registered(r, q).value.1 == Registered(s, q).value.1 <==>
            r[q.signingKeyId].status == s[q.signingKeyId].status
  {
    hide RegisterConflict;
    var id := q.signingKeyId;
    assert Effective(r[id], q.now) == Effective(plain[id], q.now) == Effective(s[id], q.now);
    hide SameView;
  }

  /** Such a case. */
  lemma SweepShowsInRegistration(hex: Bytes)
    requires ValidKeyHex(hex)
    ensures var q := Initial("a", hex, "1", 0.0, 10.0);
            var keys := Step(map[], Register(q));
            Registered(keys, q.(now := 20.0)) != Registered(Step(keys, Sweep(20.0)), q.(now := 20.0))
  {
    var q := Initial("a", hex, "1", 0.0, 10.0);
    RegisteredMeans(map[], q);
    RegisteredInserts(map[], q);
    var keys := Step(map[], Register(q));
    assert keys["a"].status == Active && Step(keys, Sweep(20.0))["a"].status == Expired;
  }
}
