/** The bounded per-run event history and its polling subscribers. */
module EventBus {
  import opened SortedInts
  import opened ByteStrings
  import opened Fnv1a

  datatype CoordinatorEvent = CoordinatorEvent(eventId: Bytes, runId: Bytes, roundId: nat, kind: nat, clientId: Bytes,
                                               workerId: Bytes, modelVersion: Bytes, timestamp: Bytes, traceId: Bytes,
                                               reason: Bytes, metadata: map<Bytes, Bytes>)

  type Log = seq<CoordinatorEvent>

  // ----- event ids -----

  /** The id of the n-th event of a run; the 64-bit counter wraps around. */
  function EventId(runId: Bytes, n: nat): (id: Bytes)
    ensures id != []
  {
    runId + [':'] + Decimal(Wrap(n))
  }

  /** Different events have different ids, also across runs and whatever the run ids contain. */
  lemma EventIdInjective(r: Bytes, m: nat, s: Bytes, n: nat)
    requires m < WORD && n < WORD && EventId(r, m) == EventId(s, n)
    ensures r == s && m == n
  {
    var a, b := Decimal(m), Decimal(n);
    SmallRemainder(m);
    SmallRemainder(n);
    DecimalFree(m, ':');
    DecimalFree(n, ':');
    LastColon(r, a, s, b);
    LastColon(s, b, r, a);
    assert |r| == |s|;
    assert r == (r + [':'] + a)[..|r|] && s == (s + [':'] + b)[..|r|];
    assert a == (r + [':'] + a)[|r| + 1..] && b == (s + [':'] + b)[|r| + 1..];
    DecimalInjective(m, n);
  }

  lemma SmallRemainder(n: nat)
    requires n < WORD
    ensures Wrap(n) == n
  {}

  lemma LastColon(r: Bytes, a: Bytes, s: Bytes, b: Bytes)
    requires r + [':'] + a == s + [':'] + b && Free(b, ':')
    ensures |r| <= |s|
  {
    var t := r + [':'] + a;
    assert t[|r|] == ':';
    forall k | |s| < k < |t| ensures t[k] != ':' { assert t[k] == b[k - |s| - 1]; }
  }

  function Stamped(e: CoordinatorEvent, n: nat, now: Bytes): CoordinatorEvent {
    e.(eventId := EventId(e.runId, n), timestamp := if e.timestamp == [] then now else e.timestamp)
  }

  /** The events of one run's full log carry the run's ids in order. */
  ghost predicate Numbered(log: Log, runId: Bytes) {
    forall i :: 0 <= i < |log| ==> log[i].eventId == EventId(runId, i + 1)
  }

  // ----- retention -----

  /** The number of events of a log that a bounded history holds, and that it no longer holds. */
  function Held(length: nat, capacity: nat): nat { if capacity < length then capacity else length }

  function Dropped(length: nat, capacity: nat): nat { length - Held(length, capacity) }

  /** The last min(capacity, published) events. */
  function Retained(log: Log, capacity: nat): (history: Log)
    ensures |history| == Held(|log|, capacity)
  {
    log[Dropped(|log|, capacity)..]
  }

  // ----- polling -----

  /** What follows the first event with the id, or everything when no event has it. */
  function Following(history: Log, id: Bytes): Option<Log>
    decreases |history|
  {
    if history == [] then None
    else if history[0].eventId == id then Some(history[1..])
    else Following(history[1..], id)
  }

  function Polled(history: Log, afterEventId: Bytes): Log {
    if afterEventId == [] then history
    else
      var rest := Following(history, afterEventId);
      if rest.Some? then rest.value else history
  }

  // ----- the program -----

  class Bus {
    const capacityPerRun: nat
    var historyByRun: map<Bytes, Log>
    var sequenceByRun: map<Bytes, nat>
    /** All events ever published, run by run. */
    ghost var logByRun: map<Bytes, Log>

    ghost predicate Valid()
      reads this
    {
      && historyByRun.Keys == sequenceByRun.Keys == logByRun.Keys
      && forall run :: run in logByRun ==>
           Kept(run, historyByRun[run], sequenceByRun[run], logByRun[run], capacityPerRun)
    }

    ghost function LogOf(run: Bytes): Log
      reads this
    {
      if run in logByRun then logByRun[run] else []
    }

    constructor (capacityPerRun: nat)
      ensures Valid() && this.capacityPerRun == capacityPerRun && logByRun == map[]
    {
      this.capacityPerRun := capacityPerRun;
      historyByRun, sequenceByRun, logByRun := map[], map[], map[];
    }

    method Publish(event: CoordinatorEvent, now: Bytes) returns (published: CoordinatorEvent)
      requires Valid()
      modifies this
      ensures Valid() && published == Stamped(event, |old(LogOf(event.runId))| + 1, now)
      ensures published.timestamp == (if event.timestamp == [] then now else event.timestamp)
      ensures published == event.(eventId := published.eventId, timestamp := published.timestamp)
      ensures logByRun == old(logByRun)[event.runId := old(LogOf(event.runId)) + [published]]
    {
      hide EventId, Retained, Wrap, Decimal, Numbered, Kept;
      var run: Bytes := event.runId;
      ghost var log := LogOf(run);
      KeptRun(run);
      var sequence := Wrap((if run in sequenceByRun then sequenceByRun[run] else 0) + 1);
      published := event.(eventId := run + [':'] + Decimal(sequence));
      if published.timestamp == [] { published := published.(timestamp := now); }
      var history := if run in historyByRun then historyByRun[run] else [];
      KeptGrows(run, history, if run in sequenceByRun then sequenceByRun[run] else 0, log, published, capacityPerRun);
      history := DropOldest(history + [published]);
      sequenceByRun := sequenceByRun[run := sequence];
      historyByRun := historyByRun[run := history];
      logByRun := logByRun[run := log + [published]];
    }

    /** A run without events is kept as an empty one. */
    lemma KeptRun(run: Bytes)
      requires Valid()
      ensures run in historyByRun <==> run in logByRun
      ensures Kept(run, if run in historyByRun then historyByRun[run] else [],
                   if run in sequenceByRun then sequenceByRun[run] else 0, LogOf(run), capacityPerRun)
    {}

    /** The slow-subscriber policy. */
    method DropOldest(history: Log) returns (bounded: Log)
      ensures bounded == Retained(history, capacityPerRun)
    {
      bounded := history;
      while |bounded| > capacityPerRun
        invariant |bounded| <= |history| && bounded == history[|history| - |bounded|..]
        invariant |bounded| >= Held(|history|, capacityPerRun)
      {
        bounded := bounded[1..];
      }
    }

    method Poll(runId: Bytes, afterEventId: Bytes) returns (result: Log)
      requires Valid()
      ensures result == Polled(Retained(LogOf(runId), capacityPerRun), afterEventId)
    {
      result := [];
      if runId !in historyByRun { return; }
      var history := historyByRun[runId];
      var foundMarker := afterEventId == [];
      for i := 0 to |history|
        invariant foundMarker ==> Polled(history, afterEventId) == result + history[i..]
        invariant !foundMarker ==> afterEventId != [] && result == []
                                   && Following(history, afterEventId) == Following(history[i..], afterEventId)
      {
        assert history[i..][1..] == history[i + 1..];
        if foundMarker {
          result := result + [history[i]];
        } else if history[i].eventId == afterEventId {
          foundMarker := true;
        }
      }
      if !foundMarker { return history; }
    }

    method HistorySize(runId: Bytes) returns (size: nat)
      requires Valid()
      ensures size == Held(|LogOf(runId)|, capacityPerRun)
    {
      return if runId in historyByRun then |historyByRun[runId]| else 0;
    }
  }

  /** What the bus holds for a run: the numbering and the last events of its log. */
  ghost predicate Kept(run: Bytes, history: Log, sequence: nat, log: Log, capacity: nat) {
    Numbered(log, run) && sequence == Wrap(|log|) && history == Retained(log, capacity)
  }

  lemma KeptGrows(run: Bytes, history: Log, sequence: nat, log: Log, e: CoordinatorEvent, capacity: nat)
    requires Kept(run, history, sequence, log, capacity)
    requires e.eventId == run + [':'] + Decimal(Wrap(sequence + 1))
    ensures e.eventId == EventId(run, |log| + 1)
    ensures Kept(run, Retained(history + [e], capacity), Wrap(sequence + 1), log + [e], capacity)
  {
    hide EventId, Retained, Wrap, Decimal, Numbered;
    NextCounter(run, |log|);
    NumberedGrows(log, run, e);
    RetainedGrows(log, e, capacity);
  }

  lemma NextCounter(runId: Bytes, n: nat)
    ensures Wrap(0) == 0 && Wrap(Wrap(n) + 1) == Wrap(n + 1)
    ensures runId + [':'] + Decimal(Wrap(n + 1)) == EventId(runId, n + 1)
  {}

  lemma NumberedGrows(log: Log, runId: Bytes, e: CoordinatorEvent)
    requires Numbered(log, runId) && e.eventId == EventId(runId, |log| + 1)
    ensures Numbered(log + [e], runId)
  {}

  /** Bounding the history after every event is bounding the whole log. */
  lemma RetainedGrows(log: Log, e: CoordinatorEvent, capacity: nat)
    ensures Retained(Retained(log, capacity) + [e], capacity) == Retained(log + [e], capacity)
    ensures Retained([], capacity) == []
  {}

  // ----- a subscriber -----

  /** A subscriber that has seen the first n events gets exactly those after them that are still retained. */
  lemma PolledFrom(log: Log, runId: Bytes, capacity: nat, n: nat)
    requires Numbered(log, runId) && n <= |log| < WORD
    ensures Polled(Retained(log, capacity), if n == 0 then [] else EventId(runId, n))
         == log[if n < Dropped(|log|, capacity) then Dropped(|log|, capacity) else n..]
  {
    var d := Dropped(|log|, capacity);
    if n > 0 { FollowingFrom(log, runId, d, n); }
  }

  lemma {:induction false} FollowingFrom(log: Log, runId: Bytes, d: nat, n: nat)
    requires Numbered(log, runId) && d <= |log| < WORD && 0 < n <= |log|
    ensures Following(log[d..], EventId(runId, n)) == if d < n then Some(log[n..]) else None
    decreases |log| - d
  {
    if d < |log| {
      assert log[d..][1..] == log[d + 1..];
      if log[d].eventId == EventId(runId, n) { EventIdInjective(runId, d + 1, runId, n); }
      FollowingFrom(log, runId, d + 1, n);
    }
  }

  /** What happens to one run and one of its subscribers. */
  datatype Action = Publish(event: CoordinatorEvent, now: Bytes) | Poll

  /** The run's log, and what the subscriber has received and keeps as its last-seen id. */
  datatype Feed = Feed(log: Log, lastSeen: Bytes, received: Log)

  function Act(f: Feed, a: Action, runId: Bytes, capacity: nat): Feed {
    match a
    case Publish(e, now) => f.(log := f.log + [Stamped(e.(runId := runId), |f.log| + 1, now)])
    case Poll =>
      var got := Polled(Retained(f.log, capacity), f.lastSeen);
      f.(received := f.received + got, lastSeen := if got == [] then f.lastSeen else got[|got| - 1].eventId)
  }

  function Acts(f: Feed, actions: seq<Action>, runId: Bytes, capacity: nat): Feed
    decreases |actions|
  {
    if actions == [] then f else Acts(Act(f, actions[0], runId, capacity), actions[1..], runId, capacity)
  }

  /** The events published after the last poll. */
  function Pending(actions: seq<Action>, pending: nat): nat
    decreases |actions|
  {
    if actions == [] then pending
    else Pending(actions[1..], if actions[0].Poll? then 0 else pending + 1)
  }

  /** The events in excess of the capacity between polls. */
  function Lost(actions: seq<Action>, pending: nat, capacity: nat): nat
    decreases |actions|
  {
    if actions == [] then 0
    else if actions[0].Poll? then Dropped(pending, capacity) + Lost(actions[1..], 0, capacity)
    else Lost(actions[1..], pending + 1, capacity)
  }

  ghost predicate Ascending(positions: seq<nat>, bound: int) {
    Increasing(positions) && forall i :: 0 <= i < |positions| ==> positions[i] < bound
  }

  /** The received events stand at these positions of the log; the last of them is the seen-th. */
  ghost predicate Caught(f: Feed, runId: Bytes, capacity: nat, seen: nat, positions: seq<nat>) {
    && Numbered(f.log, runId) && seen <= |f.log|
    && (capacity > 0 ==> f.lastSeen == if seen == 0 then [] else EventId(runId, seen))
    && Ascending(positions, seen) && |positions| == |f.received|
    && forall k :: 0 <= k < |positions| ==> f.received[k] == f.log[positions[k]]
  }

  function FirstGot(f: Feed, seen: nat, capacity: nat): (start: nat)
    ensures seen <= |f.log| ==> start <= |f.log|
  {
    var d := Dropped(|f.log|, capacity);
    if seen < d then d else seen
  }

  lemma PollGets(f: Feed, runId: Bytes, capacity: nat, seen: nat, positions: seq<nat>)
    requires Caught(f, runId, capacity, seen, positions) && |f.log| < WORD
    ensures var next := Act(f, Poll, runId, capacity);
      && next.log == f.log && next.received == f.received + f.log[FirstGot(f, seen, capacity)..]
      && (capacity > 0 ==> next.lastSeen == if |f.log| == 0 then [] else EventId(runId, |f.log|))
  {
    hide EventId;
    if capacity > 0 { PolledFrom(f.log, runId, capacity, seen); }
  }

  lemma PollCatches(f: Feed, runId: Bytes, capacity: nat, seen: nat, positions: seq<nat>) returns (more: seq<nat>)
    requires Caught(f, runId, capacity, seen, positions) && |f.log| < WORD
    ensures Caught(Act(f, Poll, runId, capacity), runId, capacity, |f.log|, more)
    ensures |Act(f, Poll, runId, capacity).received|
         == |f.received| + (|f.log| - seen) - Dropped(|f.log| - seen, capacity)
  {
    hide EventId, Act;
    PollGets(f, runId, capacity, seen, positions);
    var start := FirstGot(f, seen, capacity);
    more := positions + seq(|f.log| - start, i requires 0 <= i < |f.log| - start => start + i);
  }

  /** A subscriber that polls with its last-seen id receives a strictly increasing part of the log, without repeats;
      exactly the events in excess of the capacity between two polls are missing. */
  lemma {:induction false} Delivery(f: Feed, actions: seq<Action>, runId: Bytes, capacity: nat, seen: nat,
                                    positions: seq<nat>) returns (all: seq<nat>)
    requires Caught(f, runId, capacity, seen, positions) && seen <= |f.log| && |f.log| + |actions| < WORD
    ensures var end := Acts(f, actions, runId, capacity);
      && |all| == |end.received| && Ascending(all, |end.log| - Pending(actions, |f.log| - seen))
      && (forall k :: 0 <= k < |all| ==> all[k] < |end.log| && end.received[k] == end.log[all[k]])
      && |end.received| - |f.received| + Lost(actions, |f.log| - seen, capacity)
      == |end.log| - seen - Pending(actions, |f.log| - seen)
    decreases |actions|
  {
    hide Caught, Act, EventId, Dropped, Ascending;
    if actions == [] {
      all := positions;
      CaughtMeans(f, runId, capacity, seen, positions);
    } else if actions[0].Poll? {
      var more := PollCatches(f, runId, capacity, seen, positions);
      PollKeepsLog(f, runId, capacity);
      all := Delivery(Act(f, Poll, runId, capacity), actions[1..], runId, capacity, |f.log|, more);
    } else {
      PublishCatches(f, actions[0], runId, capacity, seen, positions);
      all := Delivery(Act(f, actions[0], runId, capacity), actions[1..], runId, capacity, seen, positions);
    }
  }

  lemma CaughtMeans(f: Feed, runId: Bytes, capacity: nat, seen: nat, positions: seq<nat>)
    requires Caught(f, runId, capacity, seen, positions)
    ensures seen <= |f.log| && |positions| == |f.received| && Ascending(positions, seen)
    ensures forall k :: 0 <= k < |positions| ==> positions[k] < |f.log| && f.received[k] == f.log[positions[k]]
  {}

  lemma PollKeepsLog(f: Feed, runId: Bytes, capacity: nat)
    ensures Act(f, Poll, runId, capacity).log == f.log
  {}

  lemma PublishCatches(f: Feed, a: Action, runId: Bytes, capacity: nat, seen: nat, positions: seq<nat>)
    requires Caught(f, runId, capacity, seen, positions) && a.Publish?
    ensures var next := Act(f, a, runId, capacity);
            Caught(next, runId, capacity, seen, positions) && |next.log| == |f.log| + 1 && next.received == f.received
  {
    hide EventId;
  }

  /** A subscriber from the beginning misses nothing exactly when at most capacity events come between its polls: then
      it has received the log up to its last poll. */
  lemma CompleteDelivery(actions: seq<Action>, runId: Bytes, capacity: nat)
    requires |actions| < WORD
    ensures var end, pending := Acts(Feed([], [], []), actions, runId, capacity), Pending(actions, 0);
            && pending <= |end.log|
            && (end.received == end.log[..|end.log| - pending] <==> Lost(actions, 0, capacity) == 0)
  {
    hide Acts, Pending, Lost;
    var all := Delivery(Feed([], [], []), actions, runId, capacity, 0, []);
    var end, pending := Acts(Feed([], [], []), actions, runId, capacity), Pending(actions, 0);
    assert |all| + Lost(actions, 0, capacity) == |end.log| - pending;
    if Lost(actions, 0, capacity) == 0 {
      AllPositions(all);
      assert end.received == end.log[..|all|];
    }
  }

  /** As many increasing positions as there are: every one. */
  lemma AllPositions(positions: seq<nat>)
    requires Ascending(positions, |positions|)
    ensures forall k :: 0 <= k < |positions| ==> positions[k] == k
  {
    forall k | 0 <= k < |positions| ensures positions[k] == k {
      AtLeastIndex(positions, k);
      AtMostIndex(positions, k);
    }
  }

  lemma {:induction false} AtLeastIndex(positions: seq<nat>, k: nat)
    requires Ascending(positions, |positions|) && k < |positions|
    ensures positions[k] >= k
  {
    if k > 0 { AtLeastIndex(positions, k - 1); }
  }

  lemma {:induction false} AtMostIndex(positions: seq<nat>, k: nat)
    requires Ascending(positions, |positions|) && k < |positions|
    ensures positions[k] <= k
    decreases |positions| - k
  {
    if k + 1 < |positions| { AtMostIndex(positions, k + 1); }
  }
}
