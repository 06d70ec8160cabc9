/** The coordinator signing-key registry as a program: records updated in place, persisted after every change. */
module SigningKeyRegistry {
  import opened SortedInts
  import opened ByteStrings
  import opened KeyOrder
  import opened Fnv1a
  import opened RecordStore
  import opened SigningKeys

  // ----- the codec -----

  function StatusText(s: Status): Bytes {
    match s
    case Active => "active"
    case GracePeriod => "grace_period"
    case Revoked => "revoked"
    case Expired => "expired"
  }

  function StatusFromText(s: Bytes): Outcome<Status> {
    if s == "active" then Ok(Active)
    else if s == "grace_period" then Ok(GracePeriod)
    else if s == "revoked" then Ok(Revoked)
    else if s == "expired" then Ok(Expired)
    else Error("unknown coordinator signing-key status")
  }

  function Encode(d: DoubleText, r: KeyRecord): (fields: seq<Bytes>)
    ensures |fields| == 12
  {
    [Decimal(r.schemaVersion), r.signingKeyId, r.publicKeyHex, r.fingerprint, StatusText(r.status),
     d.text(r.createdAt), d.text(r.expiresAt), d.text(r.gracePeriodEnd), r.rotatedFrom, r.rotatedTo,
     d.text(r.revokedAt), r.revocationReason]
  }

  /** decode_record: twelve fields, or eleven when the revocation reason is empty. */
  function Decode(d: DoubleText, fields: seq<Bytes>): Outcome<KeyRecord> {
    if |fields| != 12 && |fields| != 11 then Error("malformed record line")
    else
      var version, status := ParseUnsigned(fields[0], WORD), StatusFromText(fields[4]);
      var created, expires, grace := d.read(fields[5]), d.read(fields[6]), d.read(fields[7]);
      var revoked := d.read(fields[10]);
      if version.Error? || status.Error? || created.Error? || expires.Error? || grace.Error? || revoked.Error?
      then Error("record field parse failure")
      else if version.value % 0x1_0000_0000 != SCHEMA_VERSION then Error("unsupported schema version")
      else Ok(KeyRecord(version.value % 0x1_0000_0000, fields[1], fields[2], fields[3], status.value, created.value,
                        expires.value, grace.value, fields[8], fields[9], revoked.value,
                        if |fields| == 12 then fields[11] else []))
  }

  function KeyLines(d: DoubleText): Layout<Bytes, KeyRecord> {
    Layout(true, Less, (r: KeyRecord) => r.signingKeyId, r => Encode(d, r), fields => Decode(d, fields))
  }

  ghost predicate InRange(d: DoubleText, r: KeyRecord) {
    && r.schemaVersion == SCHEMA_VERSION && d.isDouble(r.createdAt) && d.isDouble(r.expiresAt)
    && d.isDouble(r.gracePeriodEnd) && d.isDouble(r.revokedAt)
  }

  ghost predicate CleanText(r: KeyRecord) {
    TextSafe([r.signingKeyId, r.publicKeyHex, r.fingerprint, r.rotatedFrom, r.rotatedTo, r.revocationReason])
  }

  lemma KeysWrite(d: DoubleText)
    ensures StrictTotal(KeyLines(d).less) && Writes(KeyLines(d))
  {
    BytesAreOrdered();
    forall r ensures KeyLines(d).encode(r) != [] { assert |Encode(d, r)| == 12; }
  }

  lemma EncodedIsSafe(d: DoubleText, r: KeyRecord)
    requires ProperDoubles(d) && InRange(d, r) && CleanText(r)
    ensures TextSafe(Encode(d, r))
  {
    var s := [r.signingKeyId, r.publicKeyHex, r.fingerprint, r.rotatedFrom, r.rotatedTo, r.revocationReason];
    assert SafeField(s[0]) && SafeField(s[1]) && SafeField(s[2]);
    assert SafeField(s[3]) && SafeField(s[4]) && SafeField(s[5]);
    DecimalFree(r.schemaVersion, '\t');
    DecimalFree(r.schemaVersion, '\n');
    assert SafeField(StatusText(r.status));
  }

  lemma CleanIsReadable(d: DoubleText, r: KeyRecord)
    requires ProperDoubles(d) && InRange(d, r) && CleanText(r)
    ensures Readable(KeyLines(d), r)
  {
    EncodedIsSafe(d, r);
    UnsignedRoundTrip(r.schemaVersion, WORD);
    assert StatusFromText(StatusText(r.status)) == Ok(r.status);
    var fields := Encode(d, r);
    assert r.revocationReason == [] ==> |DropEmptyLast(fields)| == 11;
    assert r.revocationReason != [] ==> DropEmptyLast(fields) == fields;
  }

  lemma DecodedIsClean(d: DoubleText, fields: seq<Bytes>)
    requires TextSafe(fields) && Decode(d, fields).Ok?
    ensures CleanText(Decode(d, fields).value)
  {}

  ghost function FileOf(d: DoubleText, keys: Keys): Bytes {
    KeysWrite(d);
    Persisted(KeyLines(d), keys)
  }

  /** A restart finds the registry that was persisted exactly when no text field holds a tab or a newline; an empty
      revocation reason survives although it leaves only eleven fields. */
  lemma RestartFindsKeys(d: DoubleText, keys: Keys)
    requires ProperDoubles(d) && |keys| < WORD
    requires forall id :: id in keys ==> keys[id].signingKeyId == id && InRange(d, keys[id])
    ensures Load(KeyLines(d), Some(FileOf(d, keys))) == Ok(keys) <==> forall id :: id in keys ==> CleanText(keys[id])
  {
    KeysWrite(d);
    if forall id :: id in keys ==> CleanText(keys[id]) {
      forall id | id in keys ensures Readable(KeyLines(d), keys[id]) { CleanIsReadable(d, keys[id]); }
      LoadPersisted(KeyLines(d), keys);
    }
    var disk := Some(FileOf(d, keys));
    if Load(KeyLines(d), disk) == Ok(keys) {
      forall id | id in keys ensures CleanText(keys[id]) {
        LoadedFromFields(KeyLines(d), disk, id);
        var fields :| TextSafe(fields) && KeyLines(d).decode(fields) == Ok(keys[id]);
        DecodedIsClean(d, fields);
      }
    }
  }

  // ----- restarts and deaths -----

  /** The coordinator's keys and its file. */
  datatype Store = Store(keys: Keys, file: Option<Bytes>)

  /** The file tells what the memory holds. */
  ghost predicate InStep(d: DoubleText, s: Store) {
    if s.file.None? then s.keys == map[] else s.file == Some(FileOf(d, s.keys))
  }

  /** A change of the keys is persisted. */
  ghost function Stored(d: DoubleText, s: Store, keys: Keys): Store {
    Store(keys, if keys == s.keys then s.file else Some(FileOf(d, keys)))
  }

  /** A call that returns; a restart; or a call that dies, before or after its file is in place, and a restart. */
  datatype Happening = Call(event: Event) | Restart | DieIn(event: Event, renamed: bool)

  ghost function Restarted(d: DoubleText, file: Option<Bytes>): Option<Store> {
    var r := Load(KeyLines(d), file);
    if r.Ok? then Some(Store(r.value, file)) else None
  }

  ghost function After(d: DoubleText, s: Store, h: Happening): Option<Store> {
    match h
    case Call(e) => Some(Stored(d, s, Step(s.keys, e)))
    case Restart => Restarted(d, s.file)
    case DieIn(e, renamed) => Restarted(d, if renamed then Stored(d, s, Step(s.keys, e)).file else s.file)
  }

  ghost function Play(d: DoubleText, s: Store, happenings: seq<Happening>): Option<Store>
    decreases |happenings|
  {
    if happenings == [] then Some(s)
    else
      var next := After(d, s, happenings[0]);
      if next.None? then None else Play(d, next.value, happenings[1..])
  }

  /** The calls that took effect. */
  function Effects(happenings: seq<Happening>): seq<Event> {
    if happenings == [] then []
    else
      var h := happenings[0];
      (if h.Call? || (h.DieIn? && h.renamed) then [h.event] else []) + Effects(happenings[1..])
  }

  /** What callers hand in: texts without tabs and newlines, times that are doubles. */
  ghost predicate Fitting(d: DoubleText, e: Event) {
    match e
    case Register(q) => InRange(d, InitialRecord(q)) && CleanText(InitialRecord(q))
    case Rotate(q) =>
      && InRange(d, Successor(q)) && CleanText(Successor(q))
      && d.isDouble(q.now) && d.isDouble(q.now + q.graceSeconds)
    case Revoke(_, reason, now) => SafeField(reason) && d.isDouble(now)
    case Sweep(_) => true
  }

  ghost predicate Keepable(d: DoubleText, id: Bytes, r: KeyRecord) {
    r.signingKeyId == id && InRange(d, r) && CleanText(r)
  }

  ghost predicate AllKeepable(d: DoubleText, keys: Keys) {
    forall id :: id in keys ==> Keepable(d, id, keys[id])
  }

  lemma CleanFields(r: KeyRecord)
    ensures CleanText(r) <==>
      && SafeField(r.signingKeyId) && SafeField(r.publicKeyHex) && SafeField(r.fingerprint)
      && SafeField(r.rotatedFrom) && SafeField(r.rotatedTo) && SafeField(r.revocationReason)
  {
    var s := [r.signingKeyId, r.publicKeyHex, r.fingerprint, r.rotatedFrom, r.rotatedTo, r.revocationReason];
    assert CleanText(r) <==>
      SafeField(s[0]) && SafeField(s[1]) && SafeField(s[2]) && SafeField(s[3]) && SafeField(s[4]) && SafeField(s[5]);
  }

  lemma RotationKeepable(d: DoubleText, keys: Keys, q: Rotation)
    requires AllKeepable(d, keys) && q.current in keys && Fitting(d, Rotate(q))
    ensures AllKeepable(d, Rotated(keys, q))
  {
    CleanFields(keys[q.current]);
    CleanFields(Retired(keys[q.current], q));
    CleanFields(Successor(q));
    hide CleanText;
    assert Keepable(d, q.current, keys[q.current]);
  }

  lemma RevocationKeepable(d: DoubleText, id: Bytes, r: KeyRecord, reason: Bytes, now: real)
    requires Keepable(d, id, r) && SafeField(reason) && d.isDouble(now)
    ensures Keepable(d, id, RevokedRecord(r, reason, now))
  {
    CleanFields(r);
    CleanFields(RevokedRecord(r, reason, now));
    hide CleanText;
  }

  lemma StepKeepable(d: DoubleText, keys: Keys, e: Event)
    requires AllKeepable(d, keys) && Fitting(d, e)
    ensures AllKeepable(d, Step(keys, e)) && |Step(keys, e)| <= |keys| + 1
  {
    hide InRange, CleanText, Registered, RotationVerdict, RevokedRecord;
    match e
    case Register(q) =>
      if q.signingKeyId !in keys && Registered(keys, q).Ok? {
        RegisteredInserts(keys, q);
        OneMore(keys, q.signingKeyId, InitialRecord(q));
      } else {
        RefusedChangesNothing(keys, q);
      }
    case Rotate(q) =>
      if RotationVerdict(keys, q) == Accepted {
        RotationAcceptedMeans(keys, q);
        RotationKeepable(d, keys, q);
        OneMore(keys, q.current, Retired(keys[q.current], q));
        OneMore(keys[q.current := Retired(keys[q.current], q)], q.newId, Successor(q));
      }
    case Revoke(id, reason, now) =>
      if id in keys {
        RevocationKeepable(d, id, keys[id], reason, now);
        OneMore(keys, id, RevokedRecord(keys[id], reason, now));
      }
    case Sweep(now) =>
      SweepKeepable(d, keys, now);
  }

  lemma SweepKeepable(d: DoubleText, keys: Keys, now: real)
    requires AllKeepable(d, keys)
    ensures AllKeepable(d, Swept(keys, now)) && |Swept(keys, now)| == |keys|
  {
    assert Swept(keys, now).Keys == keys.Keys;
    forall id | id in keys ensures Keepable(d, id, Swept(keys, now)[id]) {
      assert Keepable(d, id, keys[id]);
    }
    assert |Swept(keys, now)| == |Swept(keys, now).Keys| == |keys.Keys| == |keys|;
  }

  lemma OneMore(keys: Keys, id: Bytes, r: KeyRecord)
    ensures |keys[id := r]| == if id in keys then |keys| else |keys| + 1
  {
    assert keys[id := r].Keys == keys.Keys + {id};
    assert |keys[id := r]| == |keys[id := r].Keys| && |keys| == |keys.Keys|;
  }

  /** A restart finds the keys as they were. */
  lemma RestartIsIdentity(d: DoubleText, s: Store)
    requires ProperDoubles(d) && InStep(d, s) && AllKeepable(d, s.keys) && |s.keys| < WORD
    ensures Restarted(d, s.file) == Some(s)
  {
    hide FileOf, InRange, CleanText;
    if s.file.Some? {
      forall id | id in s.keys
        ensures s.keys[id].signingKeyId == id && InRange(d, s.keys[id]) && CleanText(s.keys[id])
      {
        assert Keepable(d, id, s.keys[id]);
      }
      RestartFindsKeys(d, s.keys);
    }
  }

  lemma HappeningKeeps(d: DoubleText, s: Store, h: Happening)
    requires ProperDoubles(d) && InStep(d, s) && AllKeepable(d, s.keys) && |s.keys| + 1 < WORD
    requires !h.Restart? ==> Fitting(d, h.event)
    ensures var next := After(d, s, h);
            && next.Some? && InStep(d, next.value) && AllKeepable(d, next.value.keys)
            && |next.value.keys| <= |s.keys| + 1
            && next.value.keys == Run(s.keys, Effects([h]))
  {
    hide FileOf, Step, Restarted, AllKeepable;
    RestartIsIdentity(d, s);
    if !h.Restart? {
      StepKeepable(d, s.keys, h.event);
      RestartIsIdentity(d, Stored(d, s, Step(s.keys, h.event)));
      assert [h.event] + [] == [h.event] && [h.event][1..] == [];
    }
    assert [h][1..] == [];
  }

  /** Restarts and deaths change nothing but which calls took effect: the coordinator always comes back, and its keys
      are those of the run of the calls that did, with file and memory in step. */
  lemma {:induction false} RestartsAreInvisible(d: DoubleText, s: Store, happenings: seq<Happening>)
    requires ProperDoubles(d) && InStep(d, s) && AllKeepable(d, s.keys) && |s.keys| + |happenings| < WORD
    requires forall i :: 0 <= i < |happenings| ==> !happenings[i].Restart? ==> Fitting(d, happenings[i].event)
    ensures var end := Play(d, s, happenings);
            && end.Some? && InStep(d, end.value) && AllKeepable(d, end.value.keys)
            && end.value.keys == Run(s.keys, Effects(happenings))
    decreases |happenings|
  {
    if happenings == [] {
      PlayNothing(d, s);
    } else {
      hide InStep, AllKeepable, After, Fitting, Run, Play, Effects;
      var h := happenings[0];
      HappeningKeeps(d, s, h);
      PlayFirst(d, s, happenings);
      RestartsAreInvisible(d, After(d, s, h).value, happenings[1..]);
      RunAppends(s.keys, Effects([h]), Effects(happenings[1..]));
    }
  }

  lemma PlayNothing(d: DoubleText, s: Store)
    ensures Play(d, s, []) == Some(s) && Run(s.keys, Effects([])) == s.keys
  {}

  lemma PlayFirst(d: DoubleText, s: Store, happenings: seq<Happening>)
    requires happenings != [] && After(d, s, happenings[0]).Some?
    ensures Play(d, s, happenings) == Play(d, After(d, s, happenings[0]).value, happenings[1..])
    ensures Effects(happenings) == Effects([happenings[0]]) + Effects(happenings[1..])
  {
    hide After;
    assert [happenings[0]][1..] == [];
  }

  /** So what holds over runs holds over restarts and deaths: starting empty, with named keys and a clock that does not
      run backwards, at most one key is active and the rotation chains are proper. */
  lemma RunsSurviveRestarts(d: DoubleText, happenings: seq<Happening>, start: real, now: real)
    requires ProperDoubles(d) && |happenings| < WORD
    requires forall i :: 0 <= i < |happenings| ==> !happenings[i].Restart? ==> Fitting(d, happenings[i].event)
    requires Timed(Effects(happenings), start) && EndTime(Effects(happenings), start) <= now
    requires forall i :: 0 <= i < |Effects(happenings)| ==> Named(Effects(happenings)[i])
    ensures var end := Play(d, Store(map[], None), happenings);
            && end.Some? && OneActive(end.value.keys, now)
            && Proper(end.value.keys, EndTime(Effects(happenings), start))
  {
    RestartsAreInvisible(d, Store(map[], None), happenings);
    var events := Effects(happenings);
    hide Effects, Play, Run, Timed, EndTime, InStep, Fitting;
    AtMostOneActive(map[], events, start, now);
    EmptyIsProper(start);
    ChainsStayProper(map[], events, start);
  }

  lemma EmptyIsProper(now: real)
    ensures Proper(map[], now)
  {
    forall p ensures !(Path(map[], p) && |p| >= 2) {
      if |p| >= 2 { assert !RotatedTo(map[], p[0], p[1]); }
    }
  }

  // ----- the program -----

  method IterationOrder(keys: Keys) returns (ids: seq<Bytes>)
    ensures ids == Ids(keys)
  {
    BytesAreOrdered();
    ids := SortedKeys(Less, keys.Keys);
  }

  class Registry {
    const d: DoubleText
    var records: Keys
    /** The file at the persistence path. */
    var file: Option<Bytes>

    constructor (d: DoubleText, records: Keys, file: Option<Bytes>)
      ensures this.d == d && this.records == records && this.file == file
    {
      this.d, this.records, this.file := d, records, file;
    }

    ghost function Now(): Store
      reads this
    {
      Store(records, file)
    }

    ghost predicate Synced()
      reads this
    {
      InStep(d, Now())
    }

    method Persist()
      modifies this`file
      ensures file == Some(FileOf(d, records))
    {
      KeysWrite(d);
      var text := PersistText(KeyLines(d), records);
      file := Some(text);
    }

    method RegisterInitialKey(q: Initial) returns (r: Outcome<KeyRecord>)
      requires Synced()
      modifies this
      ensures Synced() && Now() == Stored(d, old(Now()), Step(old(records), Register(q)))
      ensures var spec := Registered(old(records), q);
              r == if spec.Ok? then Ok(spec.value.1) else Error(spec.message)
    {
      hide FileOf, Persisted, ValidKeyHex, RegisterConflict, Ids;
      if !ValidKeyHex(q.publicKeyHex) { return Error("public_key_hex is not a valid Ed25519 public key encoding"); }
      if q.signingKeyId in records {
        if records[q.signingKeyId].publicKeyHex == q.publicKeyHex { return Ok(records[q.signingKeyId]); }
        return Error("signing_key_id is already registered with a different public key");
      }
      var conflict := FindRegisterConflict(q.fingerprint, q.now);
      if conflict.Some? { return Error(conflict.value); }
      records := records[q.signingKeyId := InitialRecord(q)];
      Persist();
      return Ok(InitialRecord(q));
    }

    /** The scan of register_initial_key. */
    method FindRegisterConflict(fingerprint: Bytes, now: real) returns (conflict: Option<string>)
      ensures conflict == RegisterConflict(records, Ids(records), fingerprint, now)
    {
      hide Ids;
      var ids := IterationOrder(records);
      for i := 0 to |ids|
        invariant RegisterConflict(records, ids, fingerprint, now)
               == RegisterConflict(records, ids[i..], fingerprint, now)
      {
        assert ids[i..][1..] == ids[i + 1..];
        if records[ids[i]].fingerprint == fingerprint { return Some("public_key_fingerprint is already registered"); }
        if Effective(records[ids[i]], now).status == Active {
          return Some("the coordinator already has an ACTIVE signing key");
        }
      }
      return None;
    }

    method ValidateRotation(q: Rotation) returns (verdict: Verdict)
      ensures verdict == RotationVerdict(records, q)
    {
      if q.current !in records { return UnknownCurrentKey; }
      if Effective(records[q.current], q.now).status != Active { return CurrentKeyNotActive; }
      if !ValidKeyHex(q.newHex) { return InvalidKeyLength; }
      var conflict := FindRotationConflict(q.newId, q.newFingerprint);
      if conflict != Accepted { return conflict; }
      if q.graceSeconds < 0.0 || q.graceSeconds > MAX_GRACE_SECONDS { return ExcessiveGracePeriod; }
      if q.newExpiresAt != 0.0 && q.newExpiresAt <= q.now { return InvalidExpiry; }
      if q.newExpiresAt != 0.0 && q.newExpiresAt - q.now > MAX_LIFETIME_SECONDS { return ExcessiveKeyLifetime; }
      return Accepted;
    }

    /** The scan of validate_rotation. */
    method FindRotationConflict(newId: Bytes, newFingerprint: Bytes) returns (verdict: Verdict)
      ensures verdict == RotationConflict(records, Ids(records), newId, newFingerprint)
    {
      hide Ids;
      var ids := IterationOrder(records);
      for i := 0 to |ids|
        invariant RotationConflict(records, ids, newId, newFingerprint)
               == RotationConflict(records, ids[i..], newId, newFingerprint)
      {
        assert ids[i..][1..] == ids[i + 1..];
        if ids[i] == newId { return DuplicateNewKeyId; }
        if records[ids[i]].fingerprint == newFingerprint { return DuplicatePublicKey; }
      }
      return Accepted;
    }

    /** The previous record is retired in place, then the new record is stored. */
    method CommitRotation(q: Rotation) returns (r: Outcome<(KeyRecord, KeyRecord)>)
      requires Synced()
      modifies this
      ensures Synced()
      ensures q.current !in old(records) ==> r.Error? && records == old(records)
      ensures q.current in old(records) ==>
        && Now() == Stored(d, old(Now()), Rotated(old(records), q))
        && r == Ok((Successor(q), Retired(old(records)[q.current], q)))
    {
      hide FileOf, Persisted;
      if q.current !in records {
        return Error("commit_rotation called for a current signing key that is not on record");
      }
      var previous := records[q.current];
      if q.graceSeconds > 0.0 {
        previous := previous.(status := GracePeriod, gracePeriodEnd := q.now + q.graceSeconds);
      } else {
        previous := previous.(status := Expired, gracePeriodEnd := q.now);
      }
      previous := previous.(rotatedTo := q.newId);
      records := records[q.current := previous];
      records := records[q.newId := Successor(q)];
      Persist();
      return Ok((Successor(q), previous));
    }

    /** The callers' sequence: validate, and commit only when accepted. */
    method RotateKey(q: Rotation) returns (verdict: Verdict)
      requires Synced()
      modifies this
      ensures Synced() && verdict == RotationVerdict(old(records), q)
      ensures Now() == Stored(d, old(Now()), Step(old(records), Rotate(q)))
    {
      hide FileOf, Persisted, RotationConflict, TermsVerdict, Rotated;
      verdict := ValidateRotation(q);
      if verdict == Accepted { var _ := CommitRotation(q); }
    }

    method RevokeKey(id: Bytes, reason: Bytes, now: real) returns (r: Outcome<KeyRecord>)
      requires Synced()
      modifies this
      ensures Synced() && Now() == Stored(d, old(Now()), Step(old(records), Revoke(id, reason, now)))
      ensures r == if id in old(records) then Ok(RevokedRecord(old(records)[id], reason, now))
                   else Error("unknown coordinator signing key")
    {
      hide FileOf, Persisted;
      if id !in records { return Error("unknown coordinator signing key"); }
      var record := records[id];
      if record.status == Revoked {
        assert records[id := RevokedRecord(record, reason, now)] == records;
        return Ok(record);
      }
      record := record.(status := Revoked, revokedAt := now, revocationReason := reason);
      records := records[id := record];
      Persist();
      return Ok(record);
    }

    method FindKey(id: Bytes, now: real) returns (r: Option<KeyRecord>)
      ensures r == Find(records, id, now)
    {
      if id !in records { return None; }
      return Some(Effective(records[id], now));
    }

    method FindActiveKey(now: real) returns (r: Option<KeyRecord>)
      ensures r == ActiveKey(records, now)
    {
      hide Ids, Effective;
      var ids := IterationOrder(records);
      for i := 0 to |ids|
        invariant FirstActive(records, ids, now) == FirstActive(records, ids[i..], now)
      {
        assert ids[i..][1..] == ids[i + 1..];
        var effective := Effective(records[ids[i]], now);
        if effective.status == Active { return Some(effective); }
      }
      return None;
    }

    method TrustedPublicKeys(now: real) returns (result: seq<KeyRecord>)
      ensures result == TrustedKeys(records, now)
    {
      hide Ids, Effective;
      var ids := IterationOrder(records);
      result := [];
      for i := 0 to |ids|
        invariant TrustedIn(records, ids, now) == result + TrustedIn(records, ids[i..], now)
      {
        TrustedStep(records, ids, i, now, result);
        var effective := Effective(records[ids[i]], now);
        if effective.status == Active || effective.status == GracePeriod { result := result + [effective]; }
      }
    }

    method List(now: real) returns (result: seq<KeyRecord>)
      ensures result == ListKeys(records, now)
    {
      hide Ids, Effective;
      var ids := IterationOrder(records);
      result := [];
      for i := 0 to |ids|
        invariant ListedIn(records, ids, now) == result + ListedIn(records, ids[i..], now)
      {
        assert ids[i..][1..] == ids[i + 1..];
        result := result + [Effective(records[ids[i]], now)];
      }
    }

    /** The sweep rewrites the records whose time has come, and the file only if there were any. */
    method UpdateExpiredKeys(now: real) returns (transitioned: seq<Bytes>)
      requires Synced()
      modifies this
      ensures Synced() && Now() == Stored(d, old(Now()), Step(old(records), Sweep(now)))
      ensures forall id :: id in transitioned <==> Transitions(old(records), id, now)
    {
      hide FileOf, Persisted, Ids, Effective, SweptUpTo, Swept, SweptRecord, Transitions;
      var ids := IterationOrder(records);
      ghost var before := records;
      transitioned := [];
      SweepStart(before, ids, now);
      for i := 0 to |ids|
        invariant SweptUpTo(before, records, ids, i, now) && file == old(file)
        invariant forall id :: id in transitioned <==> id in ids[..i] && Transitions(before, id, now)
        invariant transitioned == [] ==> records == before
      {
        SweepOne(before, records, ids, i, now);
        assert ids[..i + 1] == ids[..i] + [ids[i]];
        if Transitions(records, ids[i], now) {
          records := records[ids[i] := records[ids[i]].(status := Expired)];
          transitioned := transitioned + [ids[i]];
        }
      }
      SweptThrough(before, records, ids, now);
      if transitioned != [] {
        assert transitioned[0] in transitioned && before != map[] by { TransitionsKnown(before, transitioned[0], now); }
        Persist();
      }
    }
  }

  lemma TrustedStep(keys: Keys, ids: seq<Bytes>, i: nat, now: real, result: seq<KeyRecord>)
    requires i < |ids| && forall i :: 0 <= i < |ids| ==> ids[i] in keys
    ensures result + TrustedIn(keys, ids[i..], now)
         == (if Effective(keys[ids[i]], now).status in {Active, GracePeriod}
             then result + [Effective(keys[ids[i]], now)] else result) + TrustedIn(keys, ids[i + 1..], now)
  {
    assert ids[i..][1..] == ids[i + 1..];
  }

  /** A key whose stored status the sweep changes. */
  predicate Transitions(keys: Keys, id: Bytes, now: real) {
    id in keys && keys[id].status != Expired && Effective(keys[id], now).status == Expired
  }

  lemma TransitionsKnown(keys: Keys, id: Bytes, now: real)
    ensures Transitions(keys, id, now) ==> id in keys && keys != map[]
  {}

  /** The first n ids are swept. */
  ghost predicate SweptUpTo(before: Keys, keys: Keys, ids: seq<Bytes>, n: nat, now: real) {
    && n <= |ids| && keys.Keys == before.Keys && ids == Ids(before)
    && forall id :: id in before ==> keys[id] == if id in ids[..n] then SweptRecord(before[id], now) else before[id]
  }

  lemma SweepStart(keys: Keys, ids: seq<Bytes>, now: real)
    requires ids == Ids(keys)
    ensures SweptUpTo(keys, keys, ids, 0, now)
  {}

  lemma SweepOne(before: Keys, keys: Keys, ids: seq<Bytes>, n: nat, now: real)
    requires SweptUpTo(before, keys, ids, n, now) && n < |ids|
    ensures ids[n] in keys && (Transitions(keys, ids[n], now) <==> Transitions(before, ids[n], now))
    ensures var next := if Transitions(keys, ids[n], now) then keys[ids[n] := keys[ids[n]].(status := Expired)]
                        else keys;
            SweptUpTo(before, next, ids, n + 1, now)
  {
    hide Ids, Effective;
    assert ids[n] in ids && ids[..n + 1] == ids[..n] + [ids[n]];
    NoRepeat(before, n);
    assert ids[n] !in ids[..n];
  }

  lemma NoRepeat(keys: Keys, n: nat)
    requires n < |keys|
    ensures Ids(keys)[n] !in Ids(keys)[..n]
  {
    BytesAreOrdered();
    SortedHasNoRepeats(Less, keys.Keys);
  }

  lemma SweptThrough(before: Keys, keys: Keys, ids: seq<Bytes>, now: real)
    requires SweptUpTo(before, keys, ids, |ids|, now)
    ensures keys == Swept(before, now) && ids[..|ids|] == ids
    ensures forall id :: Transitions(before, id, now) ==> id in ids
  {
    assert ids[..|ids|] == ids;
  }

  /** A coordinator starting on a file. */
  method OpenRegistry(d: DoubleText, file: Option<Bytes>) returns (r: Outcome<Registry>)
    ensures var loaded := Load(KeyLines(d), file);
      && (r.Ok? <==> loaded.Ok?)
      && (r.Ok? ==> fresh(r.value) && r.value.records == loaded.value && r.value.file == file && r.value.d == d)
  {
    var loaded := LoadFile(KeyLines(d), file);
    if loaded.Error? { return Error(loaded.message); }
    var registry := new Registry(d, loaded.value, file);
    return Ok(registry);
  }
}
