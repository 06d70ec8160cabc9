/** The text files of the persistent stores: a line per record with tab-separated fields, in a checksum frame. */
module RecordStore {
  import opened SortedInts
  import opened ByteStrings
  import opened KeyOrder
  import opened Fnv1a
  import opened ChecksumFrame

  /** What one store writes. A counted store announces its number of records and keeps the first of two records with
      the same key; an uncounted one keeps the last. */
  datatype Layout<!K, !R> = Layout(counted: bool, less: Order<K>, key: R -> K, encode: R -> seq<Bytes>,
                                   decode: seq<Bytes> -> Outcome<R>)

  const COUNT: Bytes := "record_count="
  const RECORD: Bytes := "record="

  // ----- writing -----

  /** Every record has fields to write. */
  ghost predicate Writes<K(!new), R(!new)>(layout: Layout<K, R>) {
    forall r :: layout.encode(r) != []
  }

  function RecordLine<K, R>(layout: Layout<K, R>, r: R): Bytes
    requires layout.encode(r) != []
  {
    RECORD + Joined(layout.encode(r), '\t')
  }

  function RecordLines<K(!new), R(!new)>(layout: Layout<K, R>, rs: seq<R>): (lines: seq<Bytes>)
    requires Writes(layout)
    ensures |lines| == |rs|
  {
    if rs == [] then [] else [RecordLine(layout, rs[0])] + RecordLines(layout, rs[1..])
  }

  function Lines<K(!new), R(!new)>(layout: Layout<K, R>, rs: seq<R>): seq<Bytes>
    requires Writes(layout)
  {
    (if layout.counted then [COUNT + Decimal(|rs|)] else []) + RecordLines(layout, rs)
  }

  function Body<K(!new), R(!new)>(layout: Layout<K, R>, rs: seq<R>): Bytes
    requires Writes(layout)
  {
    Terminated(Lines(layout, rs), '\n')
  }

  /** The records in key order. */
  ghost function InOrder<K(!new), R>(layout: Layout<K, R>, m: map<K, R>): (rs: seq<R>)
    requires StrictTotal(layout.less)
    ensures |rs| == |m|
    ensures forall i :: 0 <= i < |rs| ==>
      Sorted(layout.less, m.Keys)[i] in m && rs[i] == m[Sorted(layout.less, m.Keys)[i]]
  {
    var keys := Sorted(layout.less, m.Keys);
    seq(|keys|, i requires 0 <= i < |keys| => m[keys[i]])
  }

  /** persist: the bytes that go through the temporary file into place. */
  ghost function Persisted<K(!new), R(!new)>(layout: Layout<K, R>, m: map<K, R>): Bytes
    requires StrictTotal(layout.less) && Writes(layout)
  {
    FnvIsDigest();
    Seal(Fnv, Body(layout, InOrder(layout, m)))
  }

  // ----- reading -----

  datatype Progress<!K, +R> = Progress(count: Option<nat>, found: nat, records: map<K, R>)

  function TakeLine<K, R>(layout: Layout<K, R>, p: Progress<K, R>, line: Bytes): Outcome<Progress<K, R>> {
    if line == [] then Ok(p)
    else if layout.counted && COUNT <= line then
      var n := ParseUnsigned(line[|COUNT|..], WORD);
      if n.Error? then Error(n.message) else Ok(p.(count := Some(n.value)))
    else if RECORD <= line then
      var r := layout.decode(Split(line[|RECORD|..], '\t'));
      if r.Error? then Error(r.message)
      else
        var k := layout.key(r.value);
        Ok(p.(found := p.found + 1,
              records := if layout.counted && k in p.records then p.records else p.records[k := r.value]))
    else Ok(p)
  }

  function TakeLines<K, R>(layout: Layout<K, R>, p: Progress<K, R>, lines: seq<Bytes>): Outcome<Progress<K, R>>
    decreases |lines|
  {
    if lines == [] then Ok(p)
    else
      var next := TakeLine(layout, p, lines[0]);
      if next.Error? then next else TakeLines(layout, next.value, lines[1..])
  }

  /** The checks after the last line. */
  function Finish<K, R>(layout: Layout<K, R>, p: Outcome<Progress<K, R>>): Outcome<map<K, R>> {
    if p.Error? then Error(p.message)
    else if layout.counted && p.value.count.None? then Error("file missing record_count")
    else if layout.counted && p.value.found != p.value.count.value then Error("file truncated: wrong record count")
    else Ok(p.value.records)
  }

  function LoadBody<K, R>(layout: Layout<K, R>, body: Bytes): Outcome<map<K, R>> {
    Finish(layout, TakeLines(layout, Progress(None, 0, map[]), Split(body, '\n')))
  }

  /** A store constructor: no file is an empty store. */
  function Load<K, R>(layout: Layout<K, R>, disk: Option<Bytes>): Outcome<map<K, R>> {
    if disk.None? then Ok(map[])
    else
      var body := Open(Fnv, disk.value);
      if body.Error? then Error(body.message) else LoadBody(layout, body.value)
  }

  // ----- the loops -----

  function Ended(line: Bytes): Bytes { line + ['\n'] }

  method PersistText<K(!new,==), R(!new)>(layout: Layout<K, R>, m: map<K, R>) returns (file: Bytes)
    requires StrictTotal(layout.less) && Writes(layout)
    ensures file == Persisted(layout, m)
  {
    hide Open, Body, InOrder;
    FnvIsDigest();
    var body := BodyText(layout, m);
    file := Seal(Fnv, body);
  }

  method BodyText<K(!new,==), R(!new)>(layout: Layout<K, R>, m: map<K, R>) returns (body: Bytes)
    requires StrictTotal(layout.less) && Writes(layout)
    ensures body == Body(layout, InOrder(layout, m))
  {
    var keys := SortedKeys(layout.less, m.Keys);
    ghost var rs := InOrder(layout, m);
    body := if layout.counted then COUNT + Decimal(|m|) + ['\n'] else [];
    HeaderText(layout, rs);
    hide StrictTotal, RecordLine, RecordLines, Sorted, Ended;
    for i := 0 to |keys|
      invariant Body(layout, rs) == body + Terminated(RecordLines(layout, rs[i..]), '\n')
    {
      AppendLine(layout, rs, i, body);
      body := body + Ended(RecordLine(layout, m[keys[i]]));
    }
    NoMoreLines(layout, rs[|keys|..]);
  }

  lemma NoMoreLines<K(!new), R(!new)>(layout: Layout<K, R>, rs: seq<R>)
    requires Writes(layout) && rs == []
    ensures Terminated(RecordLines(layout, rs), '\n') == []
  {}

  lemma AppendLine<K(!new), R(!new)>(layout: Layout<K, R>, rs: seq<R>, i: nat, body: Bytes)
    requires i < |rs| && Writes(layout)
    ensures body + Terminated(RecordLines(layout, rs[i..]), '\n')
         == body + Ended(RecordLine(layout, rs[i])) + Terminated(RecordLines(layout, rs[i + 1..]), '\n')
  {
    assert rs[i..][1..] == rs[i + 1..];
    var rest := RecordLines(layout, rs[i + 1..]);
    assert RecordLines(layout, rs[i..]) == [RecordLine(layout, rs[i])] + rest;
    assert ([RecordLine(layout, rs[i])] + rest)[1..] == rest;
    assert Terminated([RecordLine(layout, rs[i])] + rest, '\n')
        == RecordLine(layout, rs[i]) + ['\n'] + Terminated(rest, '\n');
  }

  lemma HeaderText<K(!new), R(!new)>(layout: Layout<K, R>, rs: seq<R>)
    requires Writes(layout)
    ensures Body(layout, rs) == (if layout.counted then COUNT + Decimal(|rs|) + ['\n'] else [])
                                + Terminated(RecordLines(layout, rs), '\n')
  {
    if layout.counted {
      assert Lines(layout, rs)[1..] == RecordLines(layout, rs);
    } else {
      assert Lines(layout, rs) == RecordLines(layout, rs);
    }
  }

  method LoadFile<K(==), R>(layout: Layout<K, R>, disk: Option<Bytes>) returns (r: Outcome<map<K, R>>)
    ensures r == Load(layout, disk)
  {
    if disk.None? { return Ok(map[]); }
    var body := Open(Fnv, disk.value);
    if body.Error? { return Error(body.message); }
    var lines := SplitText(body.value, '\n');
    var p := Progress(None, 0, map[]);
    for i := 0 to |lines|
      invariant TakeLines(layout, p, lines[i..]) == TakeLines(layout, Progress(None, 0, map[]), lines)
    {
      assert lines[i..][1..] == lines[i + 1..];
      var next := TakeLine(layout, p, lines[i]);
      if next.Error? { return Error(next.message); }
      p := next.value;
    }
    r := Finish(layout, Ok(p));
  }

  // ----- what is written is what is read -----

  predicate SafeField(s: Bytes) {
    Free(s, '\t') && Free(s, '\n')
  }

  ghost predicate TextSafe(fields: seq<Bytes>) {
    forall i :: 0 <= i < |fields| ==> SafeField(fields[i])
  }

  ghost predicate Readable<K, R>(layout: Layout<K, R>, r: R) {
    layout.encode(r) != [] && TextSafe(layout.encode(r)) && layout.decode(DropEmptyLast(layout.encode(r))) == Ok(r)
  }

  lemma LineRoundTrip<K, R>(layout: Layout<K, R>, p: Progress<K, R>, r: R)
    requires Readable(layout, r) && (layout.key(r) in p.records ==> p.records[layout.key(r)] == r)
    ensures TakeLine(layout, p, RecordLine(layout, r))
         == Ok(p.(found := p.found + 1, records := p.records[layout.key(r) := r]))
  {
    var line := RecordLine(layout, r);
    assert line[6] == '=' && line[..|RECORD|] == RECORD && line[|RECORD|..] == Joined(layout.encode(r), '\t');
    assert COUNT[6] == '_';
    SplitJoined(layout.encode(r), '\t');
    assert layout.key(r) in p.records ==> p.records[layout.key(r) := r] == p.records;
  }

  ghost predicate Within<K, R>(small: map<K, R>, big: map<K, R>) {
    forall k :: k in small ==> k in big && small[k] == big[k]
  }

  lemma {:induction false} TakeRecords<K(!new), R(!new)>(layout: Layout<K, R>, m: map<K, R>, p: Progress<K, R>,
                                                         rs: seq<R>)
    requires Writes(layout) && Within(p.records, m)
    requires forall i :: 0 <= i < |rs| ==>
      Readable(layout, rs[i]) && layout.key(rs[i]) in m && m[layout.key(rs[i])] == rs[i]
    ensures var r := TakeLines(layout, p, RecordLines(layout, rs));
            && r.Ok? && r.value.count == p.count && r.value.found == p.found + |rs| && Within(r.value.records, m)
            && (forall k :: k in p.records ==> k in r.value.records)
            && forall i :: 0 <= i < |rs| ==> layout.key(rs[i]) in r.value.records
    decreases |rs|
  {
    if rs != [] {
      var next := p.(found := p.found + 1, records := p.records[layout.key(rs[0]) := rs[0]]);
      LineRoundTrip(layout, p, rs[0]);
      TakeRecords(layout, m, next, rs[1..]);
      assert RecordLines(layout, rs)[1..] == RecordLines(layout, rs[1..]);
      forall i | 0 <= i < |rs|
        ensures layout.key(rs[i]) in TakeLines(layout, p, RecordLines(layout, rs)).value.records
      {
        if i > 0 { assert rs[i] == rs[1..][i - 1]; }
      }
    }
  }

  /** A store that its file can hold: records under their own keys, readable, and at least one if uncounted. */
  ghost predicate Storable<K, R>(layout: Layout<K, R>, m: map<K, R>) {
    && |m| < WORD && (layout.counted || m != map[])
    && forall k :: k in m ==> layout.key(m[k]) == k && Readable(layout, m[k])
  }

  lemma CountLine<K, R>(layout: Layout<K, R>, p: Progress<K, R>, n: nat)
    requires layout.counted && n < WORD
    ensures TakeLine(layout, p, COUNT + Decimal(n)) == Ok(p.(count := Some(n)))
  {
    var line := COUNT + Decimal(n);
    assert line[..|COUNT|] == COUNT && line[|COUNT|..] == Decimal(n);
    UnsignedRoundTrip(n, WORD);
  }

  lemma Listed<K(!new), R>(layout: Layout<K, R>, m: map<K, R>, k: K) returns (i: nat)
    requires StrictTotal(layout.less) && k in m
    ensures i < |m| && InOrder(layout, m)[i] == m[k]
  {
    var keys := Sorted(layout.less, m.Keys);
    assert k in keys;
    i :| 0 <= i < |keys| && keys[i] == k;
  }

  lemma ListedRecords<K(!new), R(!new)>(layout: Layout<K, R>, m: map<K, R>)
    requires StrictTotal(layout.less) && Storable(layout, m)
    ensures forall i :: 0 <= i < |m| ==>
      var r := InOrder(layout, m)[i];
      Readable(layout, r) && layout.key(r) in m && m[layout.key(r)] == r
  {}

  lemma RecordsRoundTrip<K(!new), R(!new)>(layout: Layout<K, R>, m: map<K, R>, p: Progress<K, R>)
    requires StrictTotal(layout.less) && Writes(layout) && Storable(layout, m) && p.records == map[]
    ensures TakeLines(layout, p, RecordLines(layout, InOrder(layout, m))) == Ok(Progress(p.count, p.found + |m|, m))
  {
    hide InOrder, TakeLine, TakeLines, RecordLines, Readable, StrictTotal;
    var rs := InOrder(layout, m);
    ListedRecords(layout, m);
    TakeRecords(layout, m, p, rs);
    var end := TakeLines(layout, p, RecordLines(layout, rs)).value;
    forall k | k in m ensures k in end.records {
      var i := Listed(layout, m, k);
      assert layout.key(rs[i]) in end.records;
    }
    assert forall k :: k in end.records ==> k in m && end.records[k] == m[k];
    assert end.records == m;
  }

  lemma LinesRoundTrip<K(!new), R(!new)>(layout: Layout<K, R>, m: map<K, R>)
    requires StrictTotal(layout.less) && Writes(layout) && Storable(layout, m)
    ensures Finish(layout, TakeLines(layout, Progress(None, 0, map[]), Lines(layout, InOrder(layout, m)))) == Ok(m)
  {
    hide InOrder, RecordLines, Readable, StrictTotal, TakeLine;
    var rs, start := InOrder(layout, m), Progress(None, 0, map[]);
    if layout.counted {
      CountLine(layout, start, |m|);
      RecordsRoundTrip(layout, m, start.(count := Some(|m|)));
      assert Lines(layout, rs)[1..] == RecordLines(layout, rs);
    } else {
      RecordsRoundTrip(layout, m, start);
      assert Lines(layout, rs) == RecordLines(layout, rs);
    }
  }

  // ----- the shape of a body -----

  /** A line that can start neither a checksum line nor break in two. */
  ghost predicate PlainLine(line: Bytes) { line != [] && line[0] == 'r' && Free(line, '\n') }

  lemma LinesArePlain<K(!new), R(!new)>(layout: Layout<K, R>, rs: seq<R>)
    requires Writes(layout) && forall i :: 0 <= i < |rs| ==> Readable(layout, rs[i])
    ensures forall i :: 0 <= i < |Lines(layout, rs)| ==> PlainLine(Lines(layout, rs)[i])
  {
    DecimalFree(|rs|, '\n');
    assert Free(COUNT, '\n') && PlainLine(COUNT + Decimal(|rs|));
    RecordLinesArePlain(layout, rs);
  }

  lemma {:induction false} RecordLinesArePlain<K(!new), R(!new)>(layout: Layout<K, R>, rs: seq<R>)
    requires Writes(layout) && forall i :: 0 <= i < |rs| ==> Readable(layout, rs[i])
    ensures forall i :: 0 <= i < |rs| ==> PlainLine(RecordLines(layout, rs)[i])
  {
    if rs != [] {
      RecordLinesArePlain(layout, rs[1..]);
      JoinedFree(layout.encode(rs[0]), '\t', '\n');
      assert Free(RECORD, '\n');
    }
  }

  lemma {:induction false} PlainLinesHaveNoMarker(lines: seq<Bytes>)
    requires forall i :: 0 <= i < |lines| ==> PlainLine(lines[i])
    ensures var body := Terminated(lines, '\n');
            && (lines != [] ==> EndsLine(body) && body[0] == 'r')
            && forall j :: 0 <= j < |body| - 1 && body[j] == '\n' ==> body[j + 1] == 'r'
  {
    if lines != [] {
      PlainLinesHaveNoMarker(lines[1..]);
      var line, rest := lines[0], Terminated(lines[1..], '\n');
      var body := line + ['\n'] + rest;
      assert forall j :: |line| < j < |body| ==> body[j] == rest[j - |line| - 1];
      assert lines[1..] == [] ==> rest == [];
    }
  }

  lemma BodyShape<K(!new), R(!new)>(layout: Layout<K, R>, rs: seq<R>)
    requires Writes(layout) && (layout.counted || rs != []) && forall i :: 0 <= i < |rs| ==> Readable(layout, rs[i])
    ensures EndsLine(Body(layout, rs)) && NoMarker(Body(layout, rs))
  {
    LinesArePlain(layout, rs);
    PlainLinesHaveNoMarker(Lines(layout, rs));
    var body := Body(layout, rs);
    forall j | OccursAt(body, j) ensures false { MarkerEquals(body, j); }
  }

  // ----- the file theorems -----

  lemma LoadSealed<K(!new), R(!new)>(layout: Layout<K, R>, m: map<K, R>)
    requires StrictTotal(layout.less) && Writes(layout) && Storable(layout, m)
    ensures LoadBody(layout, Body(layout, InOrder(layout, m))) == Ok(m)
    ensures EndsLine(Body(layout, InOrder(layout, m))) && NoMarker(Body(layout, InOrder(layout, m)))
  {
    var rs := InOrder(layout, m);
    BodyShape(layout, rs);
    LinesArePlain(layout, rs);
    SplitTerminated(Lines(layout, rs), '\n');
    LinesRoundTrip(layout, m);
  }

  /** Loading what was persisted gives the same store. */
  lemma LoadPersisted<K(!new), R(!new)>(layout: Layout<K, R>, m: map<K, R>)
    requires StrictTotal(layout.less) && Writes(layout) && Storable(layout, m)
    ensures Load(layout, Some(Persisted(layout, m))) == Ok(m)
  {
    LoadSealed(layout, m);
    FnvIsDigest();
    OpenSealed(Fnv, Body(layout, InOrder(layout, m)));
  }

  lemma LoadOpens<K, R>(layout: Layout<K, R>, file: Bytes)
    ensures Open(Fnv, file).Error? ==> Load(layout, Some(file)).Error?
    ensures Open(Fnv, file).Ok? ==> Load(layout, Some(file)) == LoadBody(layout, Open(Fnv, file).value)
  {}

  /** A truncated file is rejected unless only the final newline is missing, and then nothing is lost. */
  lemma LoadTruncated<K(!new), R(!new)>(layout: Layout<K, R>, m: map<K, R>, k: nat)
    requires StrictTotal(layout.less) && Writes(layout) && Storable(layout, m) && k < |Persisted(layout, m)|
    ensures var r := Load(layout, Some(Persisted(layout, m)[..k]));
            if k == |Persisted(layout, m)| - 1 then r == Ok(m) else r.Error?
  {
    hide Seal, Open, LoadBody, Load, Body, InOrder, Storable, SixteenDigits, DetectsSubstitution, EndsLine, NoMarker;
    LoadSealed(layout, m);
    FnvIsDigest();
    OpenPrefix(Fnv, Body(layout, InOrder(layout, m)), k);
    LoadOpens(layout, Persisted(layout, m)[..k]);
  }

  /** A file with one byte replaced is rejected unless its final newline became a carriage return. */
  lemma LoadCorrupted<K(!new), R(!new)>(layout: Layout<K, R>, m: map<K, R>, p: nat, c: Byte)
    requires StrictTotal(layout.less) && Writes(layout) && Storable(layout, m)
    requires p < |Persisted(layout, m)| && c != Persisted(layout, m)[p]
    ensures var r := Load(layout, Some(Persisted(layout, m)[p := c]));
            if p == |Persisted(layout, m)| - 1 && c == '\r' then r == Ok(m) else r.Error?
  {
    hide Seal, Open, LoadBody, Load, Body, InOrder, Storable, SixteenDigits, DetectsSubstitution, EndsLine, NoMarker;
    LoadSealed(layout, m);
    FnvIsDigest();
    OpenSubstituted(Fnv, Body(layout, InOrder(layout, m)), p, c);
    LoadOpens(layout, Persisted(layout, m)[p := c]);
  }

  /** An uncounted store without records writes a file that no constructor accepts. */
  lemma EmptyBodyDoesNotLoad<K(!new), R(!new)>(layout: Layout<K, R>)
    requires StrictTotal(layout.less) && Writes(layout) && !layout.counted
    ensures Load(layout, Some(Persisted(layout, map[]))).Error?
  {
    FnvIsDigest();
    var body := Body(layout, InOrder(layout, map[]));
    assert body == [];
    SealedEmptyDoesNotOpen(Fnv);
  }

  // ----- where loaded records come from -----

  ghost predicate FromFields<K, R>(layout: Layout<K, R>, k: K, r: R) {
    exists fields :: TextSafe(fields) && layout.decode(fields) == Ok(r) && layout.key(r) == k
  }

  lemma SplitSafe(line: Bytes)
    requires Free(line, '\n')
    ensures TextSafe(Split(line, '\t'))
  {
    SplitFree(line, '\t');
    SplitKeepsFree(line, '\t', '\n');
  }

  lemma TakenLine<K, R>(layout: Layout<K, R>, p: Progress<K, R>, line: Bytes, k: K)
    requires Free(line, '\n') && (k in p.records ==> FromFields(layout, k, p.records[k]))
    requires TakeLine(layout, p, line).Ok? && k in TakeLine(layout, p, line).value.records
    ensures FromFields(layout, k, TakeLine(layout, p, line).value.records[k])
  {
    if RECORD <= line { SplitSafe(line[|RECORD|..]); }
  }

  lemma {:induction false} TakenFromFields<K, R>(layout: Layout<K, R>, p: Progress<K, R>, lines: seq<Bytes>, k: K)
    requires forall i :: 0 <= i < |lines| ==> Free(lines[i], '\n')
    requires k in p.records ==> FromFields(layout, k, p.records[k])
    requires TakeLines(layout, p, lines).Ok? && k in TakeLines(layout, p, lines).value.records
    ensures FromFields(layout, k, TakeLines(layout, p, lines).value.records[k])
    decreases |lines|
  {
    if lines != [] {
      var next := TakeLine(layout, p, lines[0]).value;
      if k in next.records { TakenLine(layout, p, lines[0], k); }
      TakenFromFields(layout, next, lines[1..], k);
    }
  }

  /** Every loaded record was decoded from fields without tabs and newlines, and lies under its own key. */
  lemma LoadedFromFields<K, R>(layout: Layout<K, R>, disk: Option<Bytes>, k: K)
    requires Load(layout, disk).Ok? && k in Load(layout, disk).value
    ensures FromFields(layout, k, Load(layout, disk).value[k])
  {
    hide Open, TakeLine, TakeLines, FromFields;
    var body := Open(Fnv, disk.value).value;
    SplitFree(body, '\n');
    TakenFromFields(layout, Progress(None, 0, map[]), Split(body, '\n'), k);
  }
}
