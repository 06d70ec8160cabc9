/** The accountant-monotonicity store: one record per accountant track, and the rule that a track only moves on. */
module AccountantStore {
  import opened SortedInts
  import opened ByteStrings
  import opened KeyOrder
  import opened Fnv1a
  import opened RecordStore

  datatype TrackKey = TrackKey(runId: Bytes, clientId: Bytes, workerId: Bytes, accountantType: int)

  datatype Record = Record(schemaVersion: nat, runId: Bytes, clientId: Bytes, workerId: Bytes, accountantType: int,
                           lastAcceptedStep: nat, lastEpsilon: real, delta: real, accountantStateHash: Bytes,
                           configurationHash: Bytes, lastRound: nat, lastTask: Bytes, updatedAt: real)

  datatype Candidate = Candidate(runId: Bytes, clientId: Bytes, workerId: Bytes, accountantType: int, step: nat,
                                 epsilon: real, delta: real, accountantStateHash: Bytes, configurationHash: Bytes,
                                 roundId: nat, taskId: Bytes, now: real)

  const SCHEMA_VERSION: nat := 1
  const INT_LIMIT: nat := 0x8000_0000

  // ----- the codec -----

  predicate TrackLess(a: TrackKey, b: TrackKey) {
    if a.runId != b.runId then Less(a.runId, b.runId)
    else if a.clientId != b.clientId then Less(a.clientId, b.clientId)
    else if a.workerId != b.workerId then Less(a.workerId, b.workerId)
    else a.accountantType < b.accountantType
  }

  function KeyOf(r: Record): TrackKey { TrackKey(r.runId, r.clientId, r.workerId, r.accountantType) }

  function Encode(d: DoubleText, r: Record): (fields: seq<Bytes>)
    ensures |fields| == 13
  {
    [Decimal(r.schemaVersion), r.runId, r.clientId, r.workerId, SignedDecimal(r.accountantType),
     Decimal(r.lastAcceptedStep), d.text(r.lastEpsilon), d.text(r.delta), r.accountantStateHash, r.configurationHash,
     Decimal(r.lastRound), r.lastTask, d.text(r.updatedAt)]
  }

  /** decode_record: thirteen fields, or twelve when `last_task` is missing; the schema version is read as 32 bits. */
  function Decode(d: DoubleText, fields: seq<Bytes>): Outcome<Record> {
    if |fields| != 13 && |fields| != 12 then Error("malformed record line")
    else
      var version := ParseUnsigned(fields[0], WORD);
      var kind := ParseSigned(fields[4], INT_LIMIT);
      var step := ParseUnsigned(fields[5], WORD);
      var epsilon, delta := d.read(fields[6]), d.read(fields[7]);
      var round := ParseUnsigned(fields[10], WORD);
      var updated := d.read(fields[|fields| - 1]);
      if version.Error? || kind.Error? || step.Error? || epsilon.Error? || delta.Error? || round.Error?
         || updated.Error?
      then Error("record field parse failure")
      else if version.value % 0x1_0000_0000 != SCHEMA_VERSION then Error("unsupported schema version")
      else Ok(Record(version.value % 0x1_0000_0000, fields[1], fields[2], fields[3], kind.value, step.value,
                     epsilon.value, delta.value, fields[8], fields[9], round.value,
                     if |fields| == 13 then fields[11] else [], updated.value))
  }

  function Tracks(d: DoubleText): Layout<TrackKey, Record> {
    Layout(true, TrackLess, KeyOf, r => Encode(d, r), fields => Decode(d, fields))
  }

  /** The values that the C++ types can hold. */
  ghost predicate InRange(d: DoubleText, r: Record) {
    && r.schemaVersion == SCHEMA_VERSION && -(INT_LIMIT as int) <= r.accountantType < INT_LIMIT
    && r.lastAcceptedStep < WORD && r.lastRound < WORD
    && d.isDouble(r.lastEpsilon) && d.isDouble(r.delta) && d.isDouble(r.updatedAt)
  }

  ghost predicate CleanText(r: Record) {
    TextSafe([r.runId, r.clientId, r.workerId, r.accountantStateHash, r.configurationHash, r.lastTask])
  }

  lemma TrackLessIsTotal()
    ensures StrictTotal(TrackLess)
  {
    forall a, b ensures TrackLess(a, b) || a == b || TrackLess(b, a) { CompareTracks(a, b); }
    forall a ensures !TrackLess(a, a) {}
    forall a, b, c | TrackLess(a, b) && TrackLess(b, c) ensures TrackLess(a, c) { TrackLessTransitive(a, b, c); }
  }

  lemma CompareTracks(a: TrackKey, b: TrackKey)
    ensures TrackLess(a, b) || a == b || TrackLess(b, a)
  {
    LessTrichotomy(a.runId, b.runId);
    LessTrichotomy(a.clientId, b.clientId);
    LessTrichotomy(a.workerId, b.workerId);
  }

  lemma TrackLessTransitive(a: TrackKey, b: TrackKey, c: TrackKey)
    requires TrackLess(a, b) && TrackLess(b, c)
    ensures TrackLess(a, c)
  {
    LessOrEqualTransitive(a.runId, b.runId, c.runId);
    LessOrEqualTransitive(a.clientId, b.clientId, c.clientId);
    LessOrEqualTransitive(a.workerId, b.workerId, c.workerId);
  }

  lemma LessOrEqualTransitive(a: Bytes, b: Bytes, c: Bytes)
    ensures Less(a, b) && Less(b, c) ==> Less(a, c)
    ensures Less(a, b) ==> a != b && !Less(b, a)
    ensures Less(b, c) ==> b != c && !Less(c, b)
  {
    LessTrichotomy(a, b);
    LessTrichotomy(b, c);
    if Less(a, b) && Less(b, c) { LessTransitive(a, b, c); }
  }

  lemma TracksWrite(d: DoubleText)
    ensures StrictTotal(Tracks(d).less) && Writes(Tracks(d))
  {
    TrackLessIsTotal();
    forall r ensures Tracks(d).encode(r) != [] { assert |Encode(d, r)| == 13; }
  }

  lemma CleanIsReadable(d: DoubleText, r: Record)
    requires ProperDoubles(d) && InRange(d, r) && CleanText(r)
    ensures Readable(Tracks(d), r)
  {
    EncodedIsSafe(d, r);
    var fields := Encode(d, r);
    assert DropEmptyLast(fields) == fields;
    UnsignedRoundTrip(r.schemaVersion, WORD);
    SignedRoundTrip(r.accountantType, INT_LIMIT);
    UnsignedRoundTrip(r.lastAcceptedStep, WORD);
    UnsignedRoundTrip(r.lastRound, WORD);
  }

  lemma EncodedIsSafe(d: DoubleText, r: Record)
    requires ProperDoubles(d) && InRange(d, r) && CleanText(r)
    ensures TextSafe(Encode(d, r))
  {
    var s := [r.runId, r.clientId, r.workerId, r.accountantStateHash, r.configurationHash, r.lastTask];
    assert SafeField(s[0]) && SafeField(s[1]) && SafeField(s[2]);
    assert SafeField(s[3]) && SafeField(s[4]) && SafeField(s[5]);
    NumberIsSafe(r.accountantType);
    NumberIsSafe(r.schemaVersion);
    NumberIsSafe(r.lastAcceptedStep);
    NumberIsSafe(r.lastRound);
  }

  lemma NumberIsSafe(n: int)
    ensures SafeField(SignedDecimal(n)) && (n >= 0 ==> SafeField(Decimal(n)))
  {
    DecimalFree(if n < 0 then -n else n, '\t');
    DecimalFree(if n < 0 then -n else n, '\n');
  }

  lemma DecodedIsClean(d: DoubleText, fields: seq<Bytes>)
    requires TextSafe(fields) && Decode(d, fields).Ok?
    ensures CleanText(Decode(d, fields).value)
  {}

  /** A store keeps records under their own keys. */
  ghost predicate Kept(d: DoubleText, records: map<TrackKey, Record>) {
    |records| < WORD && forall k :: k in records ==> KeyOf(records[k]) == k && InRange(d, records[k])
  }

  ghost function FileOf(d: DoubleText, records: map<TrackKey, Record>): Bytes {
    TracksWrite(d);
    Persisted(Tracks(d), records)
  }

  /** A restart finds what was persisted exactly when no text field holds a tab or a newline. */
  lemma RestartFindsStore(d: DoubleText, records: map<TrackKey, Record>)
    requires ProperDoubles(d) && Kept(d, records)
    ensures Load(Tracks(d), Some(FileOf(d, records))) == Ok(records) <==>
            forall k :: k in records ==> CleanText(records[k])
  {
    TracksWrite(d);
    if forall k :: k in records ==> CleanText(records[k]) {
      forall k | k in records ensures Readable(Tracks(d), records[k]) { CleanIsReadable(d, records[k]); }
      LoadPersisted(Tracks(d), records);
    }
    var disk := Some(FileOf(d, records));
    if Load(Tracks(d), disk) == Ok(records) {
      forall k | k in records ensures CleanText(records[k]) {
        LoadedFromFields(Tracks(d), disk, k);
        var fields :| TextSafe(fields) && Tracks(d).decode(fields) == Ok(records[k]);
        DecodedIsClean(d, fields);
      }
    }
  }

  lemma CleanIsStorable(d: DoubleText, records: map<TrackKey, Record>)
    requires ProperDoubles(d) && Kept(d, records) && forall k :: k in records ==> CleanText(records[k])
    ensures Storable(Tracks(d), records) && StrictTotal(Tracks(d).less) && Writes(Tracks(d))
  {
    TracksWrite(d);
    forall k | k in records ensures Readable(Tracks(d), records[k]) { CleanIsReadable(d, records[k]); }
  }

  /** A truncated store file is rejected unless only its final newline is missing. */
  lemma TruncationIsDetected(d: DoubleText, records: map<TrackKey, Record>, k: nat)
    requires ProperDoubles(d) && Kept(d, records) && forall k :: k in records ==> CleanText(records[k])
    requires k < |FileOf(d, records)|
    ensures var r := Load(Tracks(d), Some(FileOf(d, records)[..k]));
            if k == |FileOf(d, records)| - 1 then r == Ok(records) else r.Error?
  {
    CleanIsStorable(d, records);
    LoadTruncated(Tracks(d), records, k);
  }

  /** A store file with one byte replaced is rejected unless its final newline became a carriage return. */
  lemma CorruptionIsDetected(d: DoubleText, records: map<TrackKey, Record>, p: nat, c: Byte)
    requires ProperDoubles(d) && Kept(d, records) && forall k :: k in records ==> CleanText(records[k])
    requires p < |FileOf(d, records)| && c != FileOf(d, records)[p]
    ensures var r := Load(Tracks(d), Some(FileOf(d, records)[p := c]));
            if p == |FileOf(d, records)| - 1 && c == '\r' then r == Ok(records) else r.Error?
  {
    CleanIsStorable(d, records);
    LoadCorrupted(Tracks(d), records, p, c);
  }

  // ----- the rule -----

  datatype Reason = Accept | ConfigurationHashChanged | DeltaChanged | StepNotIncreasing | EpsilonDecreased

  function KeyOfCandidate(c: Candidate): TrackKey { TrackKey(c.runId, c.clientId, c.workerId, c.accountantType) }

  function Verdict(records: map<TrackKey, Record>, c: Candidate): Reason {
    var key := KeyOfCandidate(c);
    if key !in records then Accept
    else
      var r := records[key];
      if c.configurationHash != r.configurationHash then ConfigurationHashChanged
      else if c.delta != r.delta then DeltaChanged
      else if c.step <= r.lastAcceptedStep then StepNotIncreasing
      else if c.epsilon < r.lastEpsilon then EpsilonDecreased
      else Accept
  }

  function RecordOf(c: Candidate): Record {
    Record(SCHEMA_VERSION, c.runId, c.clientId, c.workerId, c.accountantType, c.step, c.epsilon, c.delta,
           c.accountantStateHash, c.configurationHash, c.roundId, c.taskId, c.now)
  }

  /** The record tells all that the candidate does. */
  predicate Holds(r: Record, c: Candidate) {
    && TrackKey(r.runId, r.clientId, r.workerId, r.accountantType)
       == TrackKey(c.runId, c.clientId, c.workerId, c.accountantType)
    && r.schemaVersion == 1 && r.lastAcceptedStep == c.step && r.lastEpsilon == c.epsilon && r.delta == c.delta
    && r.accountantStateHash == c.accountantStateHash && r.configurationHash == c.configurationHash
    && r.lastRound == c.roundId && r.lastTask == c.taskId && r.updatedAt == c.now
  }

  /** c may follow b on the same track. */
  predicate Continues(b: Candidate, c: Candidate) {
    b.step < c.step && b.epsilon <= c.epsilon && b.delta == c.delta && b.configurationHash == c.configurationHash
  }

  /** The coordinator's store and its file. */
  datatype Store = Store(records: map<TrackKey, Record>, file: Option<Bytes>)

  /** What can happen to a coordinator: a candidate is validated, which changes nothing; one is committed, without
      another look at it; a track is reset; the process restarts; or it dies inside a commit, before or after the new
      file is in place, and restarts. Validating and committing lock the store separately, so anything may come between
      the two. */
  datatype Event = Validate(candidate: Candidate) | Commit(candidate: Candidate) | Reset(key: TrackKey) | Restart
                 | DieCommitting(candidate: Candidate, renamed: bool)

  ghost function Saved(d: DoubleText, records: map<TrackKey, Record>): Store {
    Store(records, Some(FileOf(d, records)))
  }

  /** A restart; a file that does not load leaves no running coordinator. */
  ghost function Restarted(d: DoubleText, file: Option<Bytes>): Option<Store> {
    var r := Load(Tracks(d), file);
    if r.Ok? then Some(Store(r.value, file)) else None
  }

  function Committed(records: map<TrackKey, Record>, c: Candidate): map<TrackKey, Record> {
    records[KeyOfCandidate(c) := RecordOf(c)]
  }

  ghost function After(d: DoubleText, s: Store, e: Event): Option<Store> {
    match e
    case Validate(_) => Some(s)
    case Commit(c) => Some(Saved(d, Committed(s.records, c)))
    case Reset(key) => if key in s.records then Some(Saved(d, s.records - {key})) else Some(s)
    case Restart => Restarted(d, s.file)
    case DieCommitting(c, renamed) =>
      Restarted(d, if renamed then Some(FileOf(d, Committed(s.records, c))) else s.file)
  }

  /** The store after a run, and the candidates that took effect on one track since its last reset: by a commit that
      returned, or by one that died when the new file was in place. */
  datatype Trace = Trace(store: Store, committed: seq<Candidate>)

  predicate Lands(e: Event, key: TrackKey) {
    (e.Commit? || (e.DieCommitting? && e.renamed)) && KeyOfCandidate(e.candidate) == key
  }

  ghost function Follow(d: DoubleText, t: Trace, e: Event, key: TrackKey): Option<Trace> {
    var next := After(d, t.store, e);
    if next.None? then None
    else Some(Trace(next.value, if Lands(e, key) then t.committed + [e.candidate]
                                else if e == Reset(key) then [] else t.committed))
  }

  ghost function Run(d: DoubleText, t: Trace, events: seq<Event>, key: TrackKey): Option<Trace>
    decreases |events|
  {
    if events == [] then Some(t)
    else
      var next := Follow(d, t, events[0], key);
      if next.None? then None else Run(d, next.value, events[1..], key)
  }

  ghost predicate ProperCandidate(d: DoubleText, c: Candidate) {
    InRange(d, RecordOf(c)) && CleanText(RecordOf(c))
  }

  ghost predicate ProperEvent(d: DoubleText, e: Event) {
    (e.Commit? || e.DieCommitting?) ==> ProperCandidate(d, e.candidate)
  }

  ghost predicate AllClean(records: map<TrackKey, Record>) {
    forall k :: k in records ==> CleanText(records[k])
  }

  /** The file tells what the memory holds, and the track's record is that of the last candidate that took effect. */
  ghost predicate Sound(d: DoubleText, t: Trace, key: TrackKey) {
    && Kept(d, t.store.records) && AllClean(t.store.records)
    && t.store.file == (if t.store.file.None? then None else Some(FileOf(d, t.store.records)))
    && (t.store.file.None? ==> t.store.records == map[])
    && Records(t.store.records, key, t.committed)
  }

  predicate Records(records: map<TrackKey, Record>, key: TrackKey, committed: seq<Candidate>) {
    if committed == [] then key !in records
    else key in records && records[key] == RecordOf(committed[|committed| - 1])
  }

  lemma RestartIsIdentity(d: DoubleText, records: map<TrackKey, Record>)
    requires ProperDoubles(d) && Kept(d, records) && AllClean(records)
    ensures Restarted(d, Some(FileOf(d, records))) == Some(Saved(d, records))
  {
    RestartFindsStore(d, records);
  }

  lemma CommitKeeps(d: DoubleText, records: map<TrackKey, Record>, c: Candidate)
    requires Kept(d, records) && AllClean(records) && ProperCandidate(d, c) && |records| + 1 < WORD
    ensures var next := Committed(records, c);
            Kept(d, next) && AllClean(next) && |next| <= |records| + 1
  {
    assert Committed(records, c).Keys == records.Keys + {KeyOfCandidate(c)};
  }

  lemma CommitIsSound(d: DoubleText, t: Trace, c: Candidate, key: TrackKey)
    requires Sound(d, t, key) && ProperCandidate(d, c) && |t.store.records| + 1 < WORD
    ensures Follow(d, t, Commit(c), key).Some? && Sound(d, Follow(d, t, Commit(c), key).value, key)
    ensures |Follow(d, t, Commit(c), key).value.store.records| <= |t.store.records| + 1
  {
    hide FileOf, InRange, CleanText;
    CommitKeeps(d, t.store.records, c);
    hide AllClean, Kept;
  }

  lemma ResetIsSound(d: DoubleText, t: Trace, k: TrackKey, key: TrackKey)
    requires Sound(d, t, key)
    ensures Follow(d, t, Reset(k), key).Some? && Sound(d, Follow(d, t, Reset(k), key).value, key)
    ensures |Follow(d, t, Reset(k), key).value.store.records| <= |t.store.records| + 1
  {
    hide FileOf, InRange, CleanText;
    RemovalKeeps(d, t.store.records, k);
    hide AllClean, Kept;
  }

  lemma RemovalKeeps(d: DoubleText, records: map<TrackKey, Record>, k: TrackKey)
    requires Kept(d, records) && AllClean(records)
    ensures Kept(d, records - {k}) && AllClean(records - {k}) && |records - {k}| <= |records|
  {
    hide InRange, CleanText;
    var next := records - {k};
    assert next.Keys == records.Keys - {k};
    assert |next| == |next.Keys| <= |records.Keys|;
  }

  lemma RestartIsSound(d: DoubleText, t: Trace, key: TrackKey)
    requires ProperDoubles(d) && Sound(d, t, key)
    ensures Restarted(d, t.store.file) == Some(t.store)
  {
    hide FileOf, InRange, CleanText;
    if t.store.file.Some? { RestartIsIdentity(d, t.store.records); }
  }

  lemma DeathIsSound(d: DoubleText, t: Trace, c: Candidate, key: TrackKey)
    requires ProperDoubles(d) && Sound(d, t, key) && ProperCandidate(d, c) && |t.store.records| + 1 < WORD
    ensures var e := DieCommitting(c, true);
            && Follow(d, t, e, key).Some? && Sound(d, Follow(d, t, e, key).value, key)
            && |Follow(d, t, e, key).value.store.records| <= |t.store.records| + 1
  {
    hide FileOf, InRange, CleanText, Restarted;
    CommitKeeps(d, t.store.records, c);
    RestartIsIdentity(d, Committed(t.store.records, c));
    hide AllClean, Kept;
  }

  lemma StepIsSound(d: DoubleText, t: Trace, e: Event, key: TrackKey)
    requires ProperDoubles(d) && Sound(d, t, key) && ProperEvent(d, e) && |t.store.records| + 1 < WORD
    ensures Follow(d, t, e, key).Some? && Sound(d, Follow(d, t, e, key).value, key)
    ensures |Follow(d, t, e, key).value.store.records| <= |t.store.records| + 1
  {
    hide FileOf, InRange, CleanText, Restarted;
    match e
    case Validate(_) =>
    case Commit(c) => CommitIsSound(d, t, c, key);
    case Reset(k) => ResetIsSound(d, t, k, key);
    case Restart => RestartIsSound(d, t, key);
    case DieCommitting(c, renamed) =>
      RestartIsSound(d, t, key);
      DeathIsSound(d, t, c, key);
  }

  /** Whatever is validated, committed, reset, restarted or interrupted, every restart finds the store it left, and the
      track's record is that of the last candidate that took effect. */
  lemma {:induction false} RunIsSound(d: DoubleText, t: Trace, events: seq<Event>, key: TrackKey)
    requires ProperDoubles(d) && Sound(d, t, key) && |t.store.records| + |events| < WORD
    requires forall i :: 0 <= i < |events| ==> ProperEvent(d, events[i])
    ensures Run(d, t, events, key).Some? && Sound(d, Run(d, t, events, key).value, key)
    decreases |events|
  {
    if events != [] {
      hide Sound, Follow, ProperEvent;
      StepIsSound(d, t, events[0], key);
      RunIsSound(d, Follow(d, t, events[0], key).value, events[1..], key);
    }
  }

  // ----- tracks that move on -----

  ghost predicate Chained(committed: seq<Candidate>) {
    forall i, j :: 0 <= i < j < |committed| ==> Continues(committed[i], committed[j])
  }

  predicate MayFollow(committed: seq<Candidate>, c: Candidate) {
    committed == [] || Continues(committed[|committed| - 1], c)
  }

  lemma VerdictMeans(records: map<TrackKey, Record>, committed: seq<Candidate>, c: Candidate)
    requires Records(records, KeyOfCandidate(c), committed)
    ensures Verdict(records, c) == Accept <==> MayFollow(committed, c)
  {}

  /** The reason of a refusal is the first relation to the last candidate in effect that fails. */
  lemma RefusedMeans(records: map<TrackKey, Record>, committed: seq<Candidate>, c: Candidate)
    requires Records(records, KeyOfCandidate(c), committed) && committed != []
    ensures var b, reason := committed[|committed| - 1], Verdict(records, c);
            && (reason == ConfigurationHashChanged <==> c.configurationHash != b.configurationHash)
            && (reason == DeltaChanged <==> c.configurationHash == b.configurationHash && c.delta != b.delta)
            && (reason == StepNotIncreasing <==>
                  c.configurationHash == b.configurationHash && c.delta == b.delta && c.step <= b.step)
            && (reason == EpsilonDecreased <==>
                  c.configurationHash == b.configurationHash && c.delta == b.delta && b.step < c.step
                  && c.epsilon < b.epsilon)
  {}

  lemma ChainGrows(committed: seq<Candidate>, c: Candidate)
    requires Chained(committed)
    ensures Chained(committed + [c]) <==> MayFollow(committed, c)
  {
    var n, next := |committed|, committed + [c];
    if MayFollow(committed, c) {
      forall i, j | 0 <= i < j < n + 1 ensures Continues(next[i], next[j]) {
        if j == n && i < n - 1 { assert Continues(committed[i], committed[n - 1]); }
      }
    } else {
      assert !Continues(next[n - 1], next[n]);
    }
  }

  /** After every event the candidates in effect continue one another. */
  ghost predicate AlwaysChained(d: DoubleText, t: Trace, events: seq<Event>, key: TrackKey)
    decreases |events|
  {
    events != [] ==>
      var next := Follow(d, t, events[0], key);
      next.Some? && Chained(next.value.committed) && AlwaysChained(d, next.value, events[1..], key)
  }

  /** Every candidate that takes effect on the track would still be accepted when it does. */
  ghost predicate LandsInOrder(d: DoubleText, t: Trace, events: seq<Event>, key: TrackKey)
    decreases |events|
  {
    events != [] ==>
      var next := Follow(d, t, events[0], key);
      && (Lands(events[0], key) ==> Verdict(t.store.records, events[0].candidate) == Accept)
      && next.Some? && LandsInOrder(d, next.value, events[1..], key)
  }

  lemma StepChained(d: DoubleText, t: Trace, e: Event, key: TrackKey)
    requires Sound(d, t, key) && Chained(t.committed) && Follow(d, t, e, key).Some?
    ensures Chained(Follow(d, t, e, key).value.committed) <==>
            (Lands(e, key) ==> Verdict(t.store.records, e.candidate) == Accept)
  {
    hide FileOf, InRange, CleanText, Restarted, Verdict, Chained;
    if Lands(e, key) {
      VerdictMeans(t.store.records, t.committed, e.candidate);
      ChainGrows(t.committed, e.candidate);
    }
    assert Chained([]) by { NothingChained(); }
  }

  lemma NothingChained()
    ensures Chained([])
  {}

  /** Over any run the candidates in effect on a track have strictly increasing steps, never falling epsilon, one delta
      and one configuration exactly when each of them would still be accepted at the moment it takes effect. */
  lemma {:induction false} TracksMoveOn(d: DoubleText, t: Trace, events: seq<Event>, key: TrackKey)
    requires ProperDoubles(d) && Sound(d, t, key) && |t.store.records| + |events| < WORD && Chained(t.committed)
    requires forall i :: 0 <= i < |events| ==> ProperEvent(d, events[i])
    ensures AlwaysChained(d, t, events, key) <==> LandsInOrder(d, t, events, key)
    decreases |events|
  {
    if events != [] {
      hide Sound, Follow, Chained, ProperEvent, Lands, Verdict;
      StepIsSound(d, t, events[0], key);
      StepChained(d, t, events[0], key);
      var next := Follow(d, t, events[0], key).value;
      if Chained(next.committed) { TracksMoveOn(d, next, events[1..], key); }
    }
  }

  /** The candidates that were accepted for the track since it last changed. */
  function StillValid(t: Trace, valid: set<Candidate>, e: Event, key: TrackKey): set<Candidate> {
    if Lands(e, key) || e == Reset(key) then {}
    else if e.Validate? && KeyOfCandidate(e.candidate) == key && Verdict(t.store.records, e.candidate) == Accept
    then valid + {e.candidate}
    else valid
  }

  /** Only candidates that were accepted take effect on the track, and nothing changes it in between. */
  ghost predicate Undisturbed(d: DoubleText, t: Trace, valid: set<Candidate>, events: seq<Event>, key: TrackKey)
    decreases |events|
  {
    events != [] ==>
      var next := Follow(d, t, events[0], key);
      && (Lands(events[0], key) ==> events[0].candidate in valid)
      && next.Some? && Undisturbed(d, next.value, StillValid(t, valid, events[0], key), events[1..], key)
  }

  ghost predicate AllAccepted(t: Trace, valid: set<Candidate>, key: TrackKey) {
    forall c :: c in valid ==> KeyOfCandidate(c) == key && Verdict(t.store.records, c) == Accept
  }

  lemma StepStillValid(d: DoubleText, t: Trace, valid: set<Candidate>, e: Event, key: TrackKey)
    requires ProperDoubles(d) && Sound(d, t, key) && ProperEvent(d, e) && |t.store.records| + 1 < WORD
    requires AllAccepted(t, valid, key) && Follow(d, t, e, key).Some?
    ensures AllAccepted(Follow(d, t, e, key).value, StillValid(t, valid, e, key), key)
  {
    hide FileOf, InRange, CleanText, Restarted;
    RestartIsSound(d, t, key);
    if e.DieCommitting? && e.renamed {
      CommitKeeps(d, t.store.records, e.candidate);
      RestartIsIdentity(d, Committed(t.store.records, e.candidate));
    }
    hide Sound, AllClean, Kept, ProperEvent;
  }

  /** It is enough that nothing changes the track between a candidate's validation and its commit. */
  lemma {:induction false} UndisturbedLandsInOrder(d: DoubleText, t: Trace, valid: set<Candidate>, events: seq<Event>,
                                                   key: TrackKey)
    requires ProperDoubles(d) && Sound(d, t, key) && |t.store.records| + |events| < WORD
    requires forall i :: 0 <= i < |events| ==> ProperEvent(d, events[i])
    requires AllAccepted(t, valid, key) && Undisturbed(d, t, valid, events, key)
    ensures LandsInOrder(d, t, events, key)
    decreases |events|
  {
    if events != [] {
      hide Sound, Follow, ProperEvent, StillValid;
      StepIsSound(d, t, events[0], key);
      StepStillValid(d, t, valid, events[0], key);
      UndisturbedLandsInOrder(d, Follow(d, t, events[0], key).value, StillValid(t, valid, events[0], key), events[1..],
                              key);
    }
  }

  /** It fails when a commit overtakes another: both candidates are accepted, the later step lands first, and the track
      falls back. */
  lemma OvertakenCommit(d: DoubleText, a: Candidate, b: Candidate)
    requires KeyOfCandidate(a) == KeyOfCandidate(b) && a.step < b.step
    ensures var key, start := KeyOfCandidate(a), Trace(Store(map[], None), []);
            var end := Run(d, start, [Validate(a), Validate(b), Commit(b), Commit(a)], key);
            && Verdict(start.store.records, a) == Verdict(start.store.records, b) == Accept
            && end.Some? && end.value.committed == [b, a] && !Chained(end.value.committed)
            && end.value.store.records == map[key := RecordOf(a)]
  {
    hide FileOf, RecordOf, Run;
    OvertakenRun(d, a, b);
    assert !Continues([b, a][0], [b, a][1]);
  }

  lemma OvertakenRun(d: DoubleText, a: Candidate, b: Candidate)
    requires KeyOfCandidate(a) == KeyOfCandidate(b)
    ensures Run(d, Trace(Store(map[], None), []), [Validate(a), Validate(b), Commit(b), Commit(a)], KeyOfCandidate(a))
         == Some(Trace(Saved(d, Committed(Committed(map[], b), a)), [b, a]))
  {
    hide FileOf, Run, Follow, Committed, KeyOfCandidate;
    var key, start := KeyOfCandidate(a), Trace(Store(map[], None), []);
    var last, two, three := [Commit(a)], [Commit(b), Commit(a)], [Validate(b), Commit(b), Commit(a)];
    var landed := Trace(Saved(d, Committed(map[], b)), [b]);
    FollowValidate(d, start, a, key);
    FollowValidate(d, start, b, key);
    FollowCommit(d, start, b, key);
    FollowCommit(d, landed, a, key);
    assert [] + [b] == [b] && [b] + [a] == [b, a] && last + [] == last;
    assert [Validate(a)] + three == [Validate(a), Validate(b), Commit(b), Commit(a)];
    assert [Validate(b)] + two == three && [Commit(b)] + last == two;
    RunStep(d, start, Validate(a), three, key);
    RunStep(d, start, Validate(b), two, key);
    RunStep(d, start, Commit(b), last, key);
    RunStep(d, landed, Commit(a), [], key);
    RunNothing(d, Trace(Saved(d, Committed(Committed(map[], b), a)), [b, a]), key);
  }

  lemma FollowValidate(d: DoubleText, t: Trace, c: Candidate, key: TrackKey)
    ensures Follow(d, t, Validate(c), key) == Some(t)
  {}

  lemma FollowCommit(d: DoubleText, t: Trace, c: Candidate, key: TrackKey)
    requires KeyOfCandidate(c) == key
    ensures Follow(d, t, Commit(c), key)
         == Some(Trace(Saved(d, Committed(t.store.records, c)), t.committed + [c]))
  {
    hide FileOf;
  }

  lemma RunNothing(d: DoubleText, t: Trace, key: TrackKey)
    ensures Run(d, t, [], key) == Some(t)
  {}

  lemma RunStep(d: DoubleText, t: Trace, e: Event, rest: seq<Event>, key: TrackKey)
    requires Follow(d, t, e, key).Some?
    ensures Run(d, t, [e] + rest, key) == Run(d, Follow(d, t, e, key).value, rest, key)
  {
    hide Follow;
    assert ([e] + rest)[1..] == rest;
  }

  /** After any run from an empty store, a candidate is accepted exactly when nothing took effect on its track since
      the last reset or it continues the last candidate that did. */
  lemma AcceptedExactly(d: DoubleText, events: seq<Event>, c: Candidate)
    requires ProperDoubles(d) && |events| < WORD
    requires forall i :: 0 <= i < |events| ==> ProperEvent(d, events[i])
    ensures var end := Run(d, Trace(Store(map[], None), []), events, KeyOfCandidate(c));
            end.Some? && (Verdict(end.value.store.records, c) == Accept <==> MayFollow(end.value.committed, c))
  {
    var start, key := Trace(Store(map[], None), []), KeyOfCandidate(c);
    RunIsSound(d, start, events, key);
    hide Run;
    VerdictMeans(Run(d, start, events, key).value.store.records, Run(d, start, events, key).value.committed, c);
  }

  // ----- the program -----

  class MonotonicityStore {
    const d: DoubleText
    var records: map<TrackKey, Record>
    /** The file at the persistence path. */
    var file: Option<Bytes>

    ghost function Now(): Store
      reads this
    {
      Store(records, file)
    }

    /** What the constructor leaves when the file loads. */
    constructor (d: DoubleText, records: map<TrackKey, Record>, file: Option<Bytes>)
      ensures this.d == d && Now() == Store(records, file)
    {
      this.d, this.records, this.file := d, records, file;
    }

    method Persist()
      modifies this`file
      ensures file == Some(FileOf(d, records))
    {
      TracksWrite(d);
      var text := PersistText(Tracks(d), records);
      file := Some(text);
    }

    /** Read-only. */
    method ValidateCandidate(c: Candidate) returns (reason: Reason)
      ensures reason == Verdict(records, c)
      ensures forall committed :: Records(records, KeyOfCandidate(c), committed) ==>
        (reason == Accept <==> MayFollow(committed, c))
    {
      var key := KeyOfCandidate(c);
      if key !in records { return Accept; }
      var r := records[key];
      if c.configurationHash != r.configurationHash { return ConfigurationHashChanged; }
      if c.delta != r.delta { return DeltaChanged; }
      if c.step <= r.lastAcceptedStep { return StepNotIncreasing; }
      if c.epsilon < r.lastEpsilon { return EpsilonDecreased; }
      return Accept;
    }

    method CommitCandidate(c: Candidate)
      modifies this
      ensures After(d, old(Now()), Commit(c)) == Some(Now())
      ensures KeyOfCandidate(c) in records && Holds(records[KeyOfCandidate(c)], c)
    {
      records := records[KeyOfCandidate(c) := RecordOf(c)];
      Persist();
    }

    /** What a caller does that lets nothing come between the two: commit only what was accepted. */
    method SubmitCandidate(c: Candidate) returns (reason: Reason)
      modifies this
      ensures reason == Verdict(old(records), c)
      ensures if reason == Accept then After(d, old(Now()), Commit(c)) == Some(Now()) else Now() == old(Now())
    {
      reason := ValidateCandidate(c);
      if reason == Accept { CommitCandidate(c); }
    }

    method Find(key: TrackKey) returns (r: Option<Record>)
      ensures r == if key in records then Some(records[key]) else None
    {
      return if key in records then Some(records[key]) else None;
    }

    method ResetTrack(key: TrackKey)
      modifies this
      ensures After(d, old(Now()), Reset(key)) == Some(Now())
    {
      if key !in records { return; }
      records := records - {key};
      Persist();
    }
  }

  /** A coordinator starting on a file. */
  method OpenStore(d: DoubleText, file: Option<Bytes>) returns (r: Outcome<MonotonicityStore>)
    ensures r.Ok? <==> Restarted(d, file).Some?
    ensures r.Ok? ==> r.value.d == d && fresh(r.value) && r.value.Now() == Restarted(d, file).value
  {
    var loaded := LoadFile(Tracks(d), file);
    if loaded.Error? { return Error(loaded.message); }
    var store := new MonotonicityStore(d, loaded.value, file);
    return Ok(store);
  }
}
