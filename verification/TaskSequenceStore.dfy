/** The coordinator's task sequence numbers: a persistent counter for every signing key and worker. */
module TaskSequenceStore {
  import opened SortedInts
  import opened ByteStrings
  import opened KeyOrder
  import opened Fnv1a
  import opened RecordStore

  datatype Pair = Pair(signingKeyId: Bytes, workerId: Bytes)

  /** One line of the file. */
  datatype Entry = Entry(pair: Pair, value: nat)

  type Counters = map<Pair, nat>

  // ----- the codec -----

  predicate PairLess(a: Pair, b: Pair) {
    if a.signingKeyId != b.signingKeyId then Less(a.signingKeyId, b.signingKeyId) else Less(a.workerId, b.workerId)
  }

  function Encode(e: Entry): (fields: seq<Bytes>)
    ensures |fields| == 3
  {
    [e.pair.signingKeyId, e.pair.workerId, Decimal(e.value)]
  }

  function Decode(fields: seq<Bytes>): Outcome<Entry> {
    if |fields| != 3 then Error("malformed record")
    else
      var value := ParseUnsigned(fields[2], WORD);
      if value.Error? then Error("record parse failure") else Ok(Entry(Pair(fields[0], fields[1]), value.value))
  }

  /** No record count, and a later line for the same pair wins. */
  function Counts(): Layout<Pair, Entry> {
    Layout(false, PairLess, (e: Entry) => e.pair, Encode, Decode)
  }

  function Entries(counters: Counters): map<Pair, Entry> {
    map p | p in counters :: Entry(p, counters[p])
  }

  function Values(entries: map<Pair, Entry>): Counters {
    map p | p in entries :: entries[p].value
  }

  ghost predicate CleanPair(p: Pair) { TextSafe([p.signingKeyId, p.workerId]) }

  lemma PairLessTransitive(a: Pair, b: Pair, c: Pair)
    requires PairLess(a, b) && PairLess(b, c)
    ensures PairLess(a, c)
  {
    LessTrichotomy(a.signingKeyId, b.signingKeyId);
    LessTrichotomy(b.signingKeyId, c.signingKeyId);
    if a.signingKeyId == b.signingKeyId == c.signingKeyId {
      LessTransitive(a.workerId, b.workerId, c.workerId);
    } else if a.signingKeyId != b.signingKeyId && b.signingKeyId != c.signingKeyId {
      LessTransitive(a.signingKeyId, b.signingKeyId, c.signingKeyId);
    }
    LessTrichotomy(a.signingKeyId, c.signingKeyId);
  }

  lemma LinesWrite()
    ensures StrictTotal(Counts().less) && Writes(Counts())
  {
    forall a, b ensures PairLess(a, b) || a == b || PairLess(b, a) {
      LessTrichotomy(a.signingKeyId, b.signingKeyId);
      LessTrichotomy(a.workerId, b.workerId);
    }
    forall a ensures !PairLess(a, a) { LessTrichotomy(a.workerId, a.workerId); }
    forall a, b, c | PairLess(a, b) && PairLess(b, c) ensures PairLess(a, c) { PairLessTransitive(a, b, c); }
    forall e ensures Counts().encode(e) != [] { assert |Encode(e)| == 3; }
  }

  ghost function FileOf(counters: Counters): Bytes {
    LinesWrite();
    Persisted(Counts(), Entries(counters))
  }

  lemma CleanIsReadable(e: Entry)
    requires CleanPair(e.pair) && e.value < WORD
    ensures Readable(Counts(), e)
  {
    var s := [e.pair.signingKeyId, e.pair.workerId];
    assert Free(s[0], '\t') && Free(s[0], '\n') && Free(s[1], '\t') && Free(s[1], '\n');
    DecimalFree(e.value, '\t');
    DecimalFree(e.value, '\n');
    UnsignedRoundTrip(e.value, WORD);
    assert DropEmptyLast(Encode(e)) == Encode(e);
  }

  lemma DecodedIsClean(fields: seq<Bytes>)
    requires TextSafe(fields) && Decode(fields).Ok?
    ensures CleanPair(Decode(fields).value.pair)
  {}

  ghost predicate Machine(counters: Counters) {
    |counters| < WORD && forall p :: p in counters ==> counters[p] < WORD
  }

  /** A restart finds the counters that were persisted exactly when there are some and no pair holds a tab or a
      newline; a file without any line does not load at all. */
  lemma RestartFindsCounters(counters: Counters)
    requires Machine(counters)
    ensures Load(Counts(), Some(FileOf(counters))) == Ok(Entries(counters))
            <==> counters != map[] && forall p :: p in counters ==> CleanPair(p)
  {
    LinesWrite();
    var entries, disk := Entries(counters), Some(FileOf(counters));
    assert entries.Keys == counters.Keys;
    if counters == map[] {
      EmptyDoesNotLoad();
    } else if forall p :: p in counters ==> CleanPair(p) {
      forall p | p in entries ensures Readable(Counts(), entries[p]) { CleanIsReadable(entries[p]); }
      LoadPersisted(Counts(), entries);
    }
    if Load(Counts(), disk) == Ok(entries) {
      forall p | p in counters ensures CleanPair(p) {
        LoadedFromFields(Counts(), disk, p);
        var fields :| TextSafe(fields) && Counts().decode(fields) == Ok(entries[p]);
        DecodedIsClean(fields);
      }
    }
  }

  lemma EmptyDoesNotLoad()
    ensures Load(Counts(), Some(FileOf(map[]))).Error?
  {
    LinesWrite();
    EmptyBodyDoesNotLoad(Counts());
    assert Entries(map[]) == map[];
  }

  // ----- the counter machine -----

  datatype Store = Store(counters: Counters, file: Option<Bytes>)

  /** A task gets its number; the process restarts; or it dies while issuing, before or after the new file is in
      place, and restarts. */
  datatype Event = Next(pair: Pair) | Restart | DieIssuing(pair: Pair, renamed: bool)

  function Peek(counters: Counters, p: Pair): nat {
    if p in counters then counters[p] else 0
  }

  function Bumped(counters: Counters, p: Pair): Counters {
    counters[p := Wrap(Peek(counters, p) + 1)]
  }

  ghost function Restarted(file: Option<Bytes>): Option<Store> {
    var r := Load(Counts(), file);
    if r.Ok? then Some(Store(Values(r.value), file)) else None
  }

  ghost function Saved(counters: Counters): Store {
    Store(counters, Some(FileOf(counters)))
  }

  ghost function After(s: Store, e: Event): Option<Store> {
    match e
    case Next(p) => Some(Saved(Bumped(s.counters, p)))
    case Restart => Restarted(s.file)
    case DieIssuing(p, renamed) => Restarted(if renamed then Some(FileOf(Bumped(s.counters, p))) else s.file)
  }

  /** The store after a run and the numbers that one pair's completed calls returned. */
  datatype Trace = Trace(store: Store, issued: seq<nat>)

  ghost function Follow(t: Trace, e: Event, pair: Pair): Option<Trace> {
    var next := After(t.store, e);
    if next.None? then None
    else Some(Trace(next.value, if e == Next(pair) then t.issued + [next.value.counters[pair]] else t.issued))
  }

  ghost function Run(t: Trace, events: seq<Event>, pair: Pair): Option<Trace>
    decreases |events|
  {
    if events == [] then Some(t)
    else
      var next := Follow(t, events[0], pair);
      if next.None? then None else Run(next.value, events[1..], pair)
  }

  /** No counter and no number of counters exceeds the bound. */
  ghost predicate Below(counters: Counters, bound: nat) {
    |counters| <= bound && forall p :: p in counters ==> counters[p] <= bound
  }

  ghost predicate Sound(t: Trace, pair: Pair) {
    var s := t.store;
    && (forall p :: p in s.counters ==> CleanPair(p))
    && (if s.counters == map[] then s.file.None? else s.file == Some(FileOf(s.counters)))
    && Increasing(t.issued) && (forall i :: 0 <= i < |t.issued| ==> t.issued[i] <= Peek(s.counters, pair))
  }

  lemma RestartIsIdentity(s: Store)
    requires forall p :: p in s.counters ==> CleanPair(p)
    requires Machine(s.counters) && if s.counters == map[] then s.file.None? else s.file == Some(FileOf(s.counters))
    ensures Restarted(s.file) == Some(s)
  {
    if s.counters != map[] { RestartFindsCounters(s.counters); }
    assert Values(Entries(s.counters)) == s.counters;
    assert Values(map[]) == map[];
  }

  lemma BumpBelow(counters: Counters, p: Pair, bound: nat)
    requires Below(counters, bound) && bound + 1 < WORD
    ensures Below(Bumped(counters, p), bound + 1) && Peek(Bumped(counters, p), p) == Peek(counters, p) + 1
    ensures forall q :: q != p ==> Peek(Bumped(counters, p), q) == Peek(counters, q)
  {
    hide Wrap, Below;
    assert Peek(counters, p) <= bound by { PeekBelow(counters, p, bound); }
    WithinWord(Peek(counters, p) + 1);
    UpdateBelow(counters, p, Peek(counters, p) + 1, bound);
  }

  lemma PeekBelow(counters: Counters, p: Pair, bound: nat)
    requires Below(counters, bound)
    ensures Peek(counters, p) <= bound
  {}

  lemma UpdateBelow(counters: Counters, p: Pair, v: nat, bound: nat)
    requires Below(counters, bound) && v <= bound + 1
    ensures Below(counters[p := v], bound + 1)
  {
    var next := counters[p := v];
    assert next.Keys == counters.Keys + {p};
    assert |next.Keys| <= |counters.Keys| + 1;
  }

  lemma WithinWord(n: nat)
    requires n < WORD
    ensures Wrap(n) == n
  {}

  lemma StepIsSound(t: Trace, e: Event, pair: Pair, bound: nat)
    requires Sound(t, pair) && Below(t.store.counters, bound) && bound + 1 < WORD
    requires !e.Restart? ==> CleanPair(e.pair)
    ensures var next := Follow(t, e, pair);
            next.Some? && Sound(next.value, pair) && Below(next.value.store.counters, bound + 1)
  {
    hide FileOf, CleanPair, Restarted, Wrap;
    RestartIsIdentity(t.store);
    if !e.Restart? {
      BumpBelow(t.store.counters, e.pair, bound);
      RestartIsIdentity(Saved(Bumped(t.store.counters, e.pair)));
    }
  }

  /** Over any calls, deaths and restarts, the numbers returned for one pair strictly increase, and no restart fails. */
  lemma {:induction false} NeverReissued(t: Trace, events: seq<Event>, pair: Pair, bound: nat)
    requires Sound(t, pair) && Below(t.store.counters, bound) && bound + |events| < WORD
    requires forall i :: 0 <= i < |events| ==> !events[i].Restart? ==> CleanPair(events[i].pair)
    ensures var end := Run(t, events, pair);
            end.Some? && Increasing(end.value.issued) && Sound(end.value, pair)
    decreases |events|
  {
    if events != [] {
      hide FileOf, CleanPair, Follow, Sound, Below, After, Restarted, Increasing;
      StepIsSound(t, events[0], pair, bound);
      NeverReissued(Follow(t, events[0], pair).value, events[1..], pair, bound + 1);
    }
  }

  /** The calls for a pair that took effect: those that returned, and those that died when the new file was in place. */
  function Taken(events: seq<Event>, pair: Pair): nat {
    if events == [] then 0
    else (if events[0] == Next(pair) || events[0] == DieIssuing(pair, true) then 1 else 0) + Taken(events[1..], pair)
  }

  function Returned(events: seq<Event>, pair: Pair): nat {
    if events == [] then 0 else (if events[0] == Next(pair) then 1 else 0) + Returned(events[1..], pair)
  }

  lemma StepCounts(t: Trace, e: Event, pair: Pair, bound: nat)
    requires Sound(t, pair) && Below(t.store.counters, bound) && bound + 1 < WORD
    requires !e.Restart? ==> CleanPair(e.pair)
    ensures var next := Follow(t, e, pair);
            && next.Some?
            && Peek(next.value.store.counters, pair) == Peek(t.store.counters, pair) + Taken([e], pair)
            && |next.value.issued| == |t.issued| + Returned([e], pair)
  {
    hide FileOf, CleanPair, Restarted, Wrap, Increasing;
    RestartIsIdentity(t.store);
    if !e.Restart? {
      BumpBelow(t.store.counters, e.pair, bound);
      RestartIsIdentity(Saved(Bumped(t.store.counters, e.pair)));
    }
  }

  /** The counter of a pair counts the calls that took effect on it, so a peek tells how many numbers are gone, and the
      numbers that no caller received are those of the calls that died late. */
  lemma {:induction false} PeekCountsCalls(t: Trace, events: seq<Event>, pair: Pair, bound: nat)
    requires Sound(t, pair) && Below(t.store.counters, bound) && bound + |events| < WORD
    requires forall i :: 0 <= i < |events| ==> !events[i].Restart? ==> CleanPair(events[i].pair)
    ensures var end := Run(t, events, pair);
            && end.Some?
            && Peek(end.value.store.counters, pair) == Peek(t.store.counters, pair) + Taken(events, pair)
            && |end.value.issued| == |t.issued| + Returned(events, pair)
    decreases |events|
  {
    if events != [] {
      hide FileOf, CleanPair, Follow, Sound, Below, Peek, After, Restarted, Increasing, Wrap;
      assert [events[0]][1..] == [];
      StepIsSound(t, events[0], pair, bound);
      StepCounts(t, events[0], pair, bound);
      PeekCountsCalls(Follow(t, events[0], pair).value, events[1..], pair, bound + 1);
    }
  }

  /** A call returns the number after the pair's last one and leaves every other pair alone. */
  lemma NextIsSuccessor(t: Trace, pair: Pair, other: Pair, bound: nat)
    requires Below(t.store.counters, bound) && bound + 1 < WORD
    ensures var next := Follow(t, Next(pair), other).value;
      && Peek(next.store.counters, pair) == Peek(t.store.counters, pair) + 1
      && (other != pair ==>
            next.issued == t.issued && Peek(next.store.counters, other) == Peek(t.store.counters, other))
      && (other == pair ==> next.issued == t.issued + [Peek(t.store.counters, pair) + 1])
  {
    hide FileOf, Wrap;
    BumpBelow(t.store.counters, pair, bound);
  }

  // ----- the program -----

  class TaskSequences {
    var counters: Counters
    /** The file at the persistence path. */
    var file: Option<Bytes>

    constructor (counters: Counters, file: Option<Bytes>)
      ensures Now() == Store(counters, file)
    {
      this.counters, this.file := counters, file;
    }

    ghost function Now(): Store
      reads this
    {
      Store(counters, file)
    }

    method Persist()
      modifies this`file
      ensures file == Some(FileOf(counters))
    {
      LinesWrite();
      var text := PersistText(Counts(), Entries(counters));
      file := Some(text);
    }

    method NextSequence(signingKeyId: Bytes, workerId: Bytes) returns (next: nat)
      modifies this
      ensures After(old(Now()), Next(Pair(signingKeyId, workerId))) == Some(Now())
      ensures next == Wrap(Peek(old(counters), Pair(signingKeyId, workerId)) + 1)
    {
      var pair := Pair(signingKeyId, workerId);
      if pair !in counters { counters := counters[pair := 0]; }
      next := Wrap(counters[pair] + 1);
      counters := counters[pair := next];
      assert counters == Bumped(old(counters), pair);
      Persist();
    }

    method PeekSequence(signingKeyId: Bytes, workerId: Bytes) returns (last: nat)
      ensures last == Peek(counters, Pair(signingKeyId, workerId))
    {
      var pair := Pair(signingKeyId, workerId);
      return if pair in counters then counters[pair] else 0;
    }
  }

  /** A coordinator starting on a file. */
  method OpenSequences(file: Option<Bytes>) returns (r: Outcome<TaskSequences>)
    ensures r.Ok? <==> Restarted(file).Some?
    ensures r.Ok? ==> fresh(r.value) && r.value.Now() == Restarted(file).value
  {
    var loaded := LoadFile(Counts(), file);
    if loaded.Error? { return Error(loaded.message); }
    var store := new TaskSequences(Values(loaded.value), file);
    return Ok(store);
  }
}
