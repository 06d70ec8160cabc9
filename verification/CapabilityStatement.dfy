/** Signed capability statements: the canonical payload, its unique readability, and verification. */
module CapabilityStatement {
  import opened SortedInts
  import opened ByteStrings
  import opened Fnv1a
  import opened JsonStrings

  // ----- printing -----

  datatype Json = Text(text: Bytes) | Whole(n: nat) | Real(x: real) | Flag(flag: bool) | Texts(texts: seq<Bytes>)

  datatype Member = Member(name: Bytes, value: Json)

  predicate LooksReal(s: Bytes) { exists i :: 0 <= i < |s| && s[i] in ".eEnN" }

  /** json_double. */
  function JsonDouble(d: DoubleText, x: real): Bytes {
    d.text(x) + if LooksReal(d.text(x)) then [] else ['.', '0']
  }

  /** What canonical payloads need of printed doubles: they can be read back, also with the appended fraction, they
      do not start like another kind of value, and they hold no comma. */
  ghost predicate JsonDoubles(d: DoubleText) {
    forall x :: d.isDouble(x) ==>
      && d.read(JsonDouble(d, x)) == Ok(x) && NumberLike(JsonDouble(d, x))
  }

  predicate NumberLike(s: Bytes) { s != [] && s[0] !in "\"[tf" && Free(s, ',') && Free(s, '}') }

  function Quoted(s: Bytes): Bytes { ['"'] + Escaped(s) + ['"'] }

  /** json_string_array without its opening bracket. */
  function TextsTail(texts: seq<Bytes>, first: bool): Bytes {
    if texts == [] then [']'] else (if first then [] else [',']) + Quoted(texts[0]) + TextsTail(texts[1..], false)
  }

  function JsonBool(b: bool): Bytes { if b then "true" else "false" }

  function ValueText(d: DoubleText, v: Json): Bytes {
    match v
    case Text(s) => Quoted(s)
    case Whole(n) => Decimal(n)
    case Real(x) => JsonDouble(d, x)
    case Flag(b) => JsonBool(b)
    case Texts(ss) => ['['] + TextsTail(ss, true)
  }

  function MemberText(d: DoubleText, m: Member): Bytes {
    ['"'] + m.name + ['"', ':'] + ValueText(d, m.value)
  }

  function MembersText(d: DoubleText, ms: seq<Member>): Bytes
    requires ms != []
  {
    if |ms| == 1 then MemberText(d, ms[0]) + ['}'] else MemberText(d, ms[0]) + [','] + MembersText(d, ms[1..])
  }

  function ObjectText(d: DoubleText, ms: seq<Member>): Bytes
    requires ms != []
  {
    ['{'] + MembersText(d, ms)
  }

  // ----- reading -----

  function TextOf(cps: seq<nat>): Option<Bytes> {
    if Scalars(cps) then Some(Utf8Text(cps)) else None
  }

  /** A string literal at the front. */
  function ReadQuoted(t: Bytes): (r: Option<(Bytes, Bytes)>) {
    if t == [] || t[0] != '"' then None
    else
      var r := ReadString(t[1..]);
      if r.None? || TextOf(r.value.0).None? then None else Some((TextOf(r.value.0).value, r.value.1))
  }

  function ReadTexts(t: Bytes, first: bool, fuel: nat): Option<(seq<Bytes>, Bytes)>
    decreases fuel
  {
    if t == [] || fuel == 0 then None
    else if t[0] == ']' then Some(([], t[1..]))
    else if !first && t[0] != ',' then None
    else
      var r := ReadQuoted(if first then t else t[1..]);
      if r.None? then None
      else
        var rest := ReadTexts(r.value.1, false, fuel - 1);
        if rest.None? then None else Some(([r.value.0] + rest.value.0, rest.value.1))
  }

  /** The length of the text before the next comma or closing brace. */
  function TokenLength(t: Bytes): (n: nat)
    ensures n <= |t| && forall i :: 0 <= i < n ==> t[i] != ',' && t[i] != '}'
    ensures n < |t| ==> t[n] == ',' || t[n] == '}'
  {
    if t == [] || t[0] == ',' || t[0] == '}' then 0 else 1 + TokenLength(t[1..])
  }

  function ReadValue(d: DoubleText, t: Bytes): Option<(Json, Bytes)> {
    if t == [] then None
    else if t[0] == '"' then
      var r := ReadQuoted(t);
      if r.None? then None else Some((Text(r.value.0), r.value.1))
    else if t[0] == '[' then
      var r := ReadTexts(t[1..], true, |t|);
      if r.None? then None else Some((Texts(r.value.0), r.value.1))
    else if t[0] == 't' then if "true" <= t then Some((Flag(true), t[4..])) else None
    else if t[0] == 'f' then if "false" <= t then Some((Flag(false), t[5..])) else None
    else
      var n := TokenLength(t);
      if n > 0 && AllDigits(t[..n]) then Some((Whole(Number(t[..n])), t[n..]))
      else
        var x := d.read(t[..n]);
        if x.Error? then None else Some((Real(x.value), t[n..]))
  }

  /** A quoted name without escapes, a colon and a value. */
  function ReadMember(d: DoubleText, t: Bytes): Option<(Member, Bytes)> {
    if t == [] || t[0] != '"' then None
    else
      var i := IndexOf(t[1..], '"');
      if |t| < i + 3 || t[i + 2] != ':' then None
      else
        var v := ReadValue(d, t[i + 3..]);
        if v.None? then None else Some((Member(t[1..i + 1], v.value.0), v.value.1))
  }

  function ReadMembers(d: DoubleText, t: Bytes, fuel: nat): Option<seq<Member>>
    decreases fuel
  {
    var m := ReadMember(d, t);
    if fuel == 0 || m.None? || m.value.1 == [] then None
    else if m.value.1 == ['}'] then Some([m.value.0])
    else if m.value.1[0] != ',' then None
    else
      var rest := ReadMembers(d, m.value.1[1..], fuel - 1);
      if rest.None? then None else Some([m.value.0] + rest.value)
  }

  function ReadObject(d: DoubleText, t: Bytes): Option<seq<Member>> {
    if t == [] || t[0] != '{' then None else ReadMembers(d, t[1..], |t|)
  }

  // ----- the object round trip -----

  ghost predicate ProperValue(d: DoubleText, v: Json) {
    match v
    case Text(s) => WellFormed(s)
    case Real(x) => d.isDouble(x)
    case Texts(ss) => forall i :: 0 <= i < |ss| ==> WellFormed(ss[i])
    case _ => true
  }

  ghost predicate ProperMember(d: DoubleText, m: Member) { Free(m.name, '"') && ProperValue(d, m.value) }

  lemma QuotedRoundTrip(s: Bytes, rest: Bytes)
    requires WellFormed(s)
    ensures ReadQuoted(Quoted(s) + rest) == Some((s, rest))
  {
    hide Escaped, ReadString;
    var cps :| Scalars(cps) && Utf8Text(cps) == s;
    RoundTrip(cps, rest);
    var t := Quoted(s) + rest;
    assert t[0] == '"' && t[1..] == Escaped(s) + ['"'] + rest;
  }

  /** A literal reads back as the text it was printed from exactly when that text is well-formed UTF-8. */
  lemma ReadsBackExactly(s: Bytes)
    ensures ReadQuoted(Quoted(s)) == Some((s, [])) <==> WellFormed(s)
  {
    hide Escaped, ReadString;
    assert Quoted(s) + [] == Quoted(s);
    if WellFormed(s) { QuotedRoundTrip(s, []); }
  }

  lemma {:induction false} TextsRoundTrip(ss: seq<Bytes>, first: bool, rest: Bytes, fuel: nat)
    requires fuel > |ss| && forall i :: 0 <= i < |ss| ==> WellFormed(ss[i])
    ensures ReadTexts(TextsTail(ss, first) + rest, first, fuel) == Some((ss, rest))
    decreases |ss|
  {
    if ss == [] {
      assert TextsTail(ss, first) + rest == [']'] + rest;
    } else {
      hide ReadTexts, TextsTail, WellFormed;
      var after := TextsTail(ss[1..], false) + rest;
      TextsRoundTrip(ss[1..], false, rest, fuel - 1);
      TextsJoin(ss, first, rest);
      ReadsOneText(ss, first, after, rest, fuel);
    }
  }

  lemma ReadsOneText(ss: seq<Bytes>, first: bool, after: Bytes, rest: Bytes, fuel: nat)
    requires ss != [] && fuel > 1 && WellFormed(ss[0]) && ReadTexts(after, false, fuel - 1) == Some((ss[1..], rest))
    ensures ReadTexts((if first then [] else [',']) + (Quoted(ss[0]) + after), first, fuel) == Some((ss, rest))
  {
    hide ReadQuoted, Quoted, WellFormed;
    QuotedRoundTrip(ss[0], after);
    var t := (if first then [] else [',']) + (Quoted(ss[0]) + after);
    TextsStep(ss, first, after, t);
    assert [ss[0]] + ss[1..] == ss;
  }

  lemma TextsJoin(ss: seq<Bytes>, first: bool, rest: Bytes)
    requires ss != []
    ensures TextsTail(ss, first) + rest
         == (if first then [] else [',']) + (Quoted(ss[0]) + (TextsTail(ss[1..], false) + rest))
  {
    TextsUnfold(ss, first);
    hide Quoted, TextsTail;
    Reassociate(if first then [] else [','], Quoted(ss[0]), TextsTail(ss[1..], false), rest);
  }

  lemma TextsUnfold(ss: seq<Bytes>, first: bool)
    requires ss != []
    ensures TextsTail(ss, first) == (if first then [] else [',']) + Quoted(ss[0]) + TextsTail(ss[1..], false)
  {
    hide Quoted;
  }

  lemma Reassociate(a: Bytes, b: Bytes, c: Bytes, d: Bytes)
    ensures (a + b + c) + d == a + (b + (c + d))
  {}

  lemma TextsStep(ss: seq<Bytes>, first: bool, after: Bytes, t: Bytes)
    requires ss != [] && t == (if first then [] else [',']) + (Quoted(ss[0]) + after)
    ensures t != [] && t[0] == (if first then '"' else ',')
    ensures (if first then t else t[1..]) == Quoted(ss[0]) + after
  {
    QuotedStart(ss[0]);
  }

  lemma QuotedStart(s: Bytes)
    ensures Quoted(s) != [] && Quoted(s)[0] == '"'
  {}

  lemma {:induction false} TextsTailLength(ss: seq<Bytes>, first: bool)
    ensures |TextsTail(ss, first)| > |ss|
  {
    if ss != [] {
      TextsTailLength(ss[1..], false);
      QuotedStart(ss[0]);
    }
  }

  lemma {:induction false} TokenOf(token: Bytes, rest: Bytes)
    requires Free(token, ',') && Free(token, '}') && rest != [] && (rest[0] == ',' || rest[0] == '}')
    ensures TokenLength(token + rest) == |token|
  {
    var t := token + rest;
    var n := TokenLength(t);
    assert t[|token|] == rest[0];
    assert forall k :: 0 <= k < |token| ==> t[k] == token[k];
  }

  lemma NumberRoundTrip(d: DoubleText, token: Bytes, rest: Bytes)
    requires NumberLike(token) && rest != [] && (rest[0] == ',' || rest[0] == '}')
    ensures ReadValue(d, token + rest) ==
      if AllDigits(token) then Some((Whole(Number(token)), rest))
      else if d.read(token).Error? then None else Some((Real(d.read(token).value), rest))
  {
    TokenOf(token, rest);
    var t := token + rest;
    assert t[..|token|] == token && t[|token|..] == rest && t[0] == token[0];
  }

  lemma JsonDoubleIsReal(d: DoubleText, x: real)
    ensures LooksReal(JsonDouble(d, x)) && !AllDigits(JsonDouble(d, x))
  {
    var s, text := JsonDouble(d, x), d.text(x);
    if LooksReal(text) {
      var i :| 0 <= i < |text| && text[i] in ".eEnN";
      assert s[i] == text[i];
    } else {
      assert s[|text|] == '.';
    }
  }

  lemma ValueRoundTrip(d: DoubleText, v: Json, rest: Bytes)
    requires JsonDoubles(d) && ProperValue(d, v) && rest != [] && (rest[0] == ',' || rest[0] == '}')
    ensures ReadValue(d, ValueText(d, v) + rest) == Some((v, rest))
  {
    match v
    case Text(s) =>
      QuotedRoundTrip(s, rest);
      QuotedStart(s);
    case Whole(n) => WholeRoundTrip(d, n, rest);
    case Real(x) =>
      JsonDoubleIsReal(d, x);
      NumberRoundTrip(d, JsonDouble(d, x), rest);
    case Flag(b) => FlagRoundTrip(d, b, rest);
    case Texts(ss) => ArrayRoundTrip(d, ss, rest);
  }

  lemma WholeRoundTrip(d: DoubleText, n: nat, rest: Bytes)
    requires rest != [] && (rest[0] == ',' || rest[0] == '}')
    ensures ReadValue(d, Decimal(n) + rest) == Some((Whole(n), rest))
  {
    DecimalFree(n, ',');
    DecimalFree(n, '}');
    assert IsDigit(Decimal(n)[0]);
    NumberRoundTrip(d, Decimal(n), rest);
    NumberOfDecimal(n);
  }

  lemma FlagRoundTrip(d: DoubleText, b: bool, rest: Bytes)
    ensures ReadValue(d, ValueText(d, Flag(b)) + rest) == Some((Flag(b), rest))
  {
    var t := ValueText(d, Flag(b)) + rest;
    assert b ==> t[..4] == "true" && t[4..] == rest;
    assert !b ==> t[..5] == "false" && t[5..] == rest;
  }

  lemma ArrayRoundTrip(d: DoubleText, ss: seq<Bytes>, rest: Bytes)
    requires forall i :: 0 <= i < |ss| ==> WellFormed(ss[i])
    ensures ReadValue(d, ValueText(d, Texts(ss)) + rest) == Some((Texts(ss), rest))
  {
    hide WellFormed;
    var t := ValueText(d, Texts(ss)) + rest;
    TextsTailLength(ss, true);
    TextsRoundTrip(ss, true, rest, |t|);
    assert t[0] == '[' && t[1..] == TextsTail(ss, true) + rest;
  }

  lemma MemberRoundTrip(d: DoubleText, m: Member, rest: Bytes)
    requires JsonDoubles(d) && ProperMember(d, m) && rest != [] && (rest[0] == ',' || rest[0] == '}')
    ensures ReadMember(d, MemberText(d, m) + rest) == Some((m, rest))
  {
    hide ReadValue, ValueText, JsonDoubles, ProperValue;
    var t, after := MemberText(d, m) + rest, [':'] + ValueText(d, m.value) + rest;
    assert t[1..] == m.name + ['"'] + after;
    IndexOfConcat(m.name, '"', after);
    ValueRoundTrip(d, m.value, rest);
    assert t[|m.name| + 3..] == ValueText(d, m.value) + rest && t[1..|m.name| + 1] == m.name;
  }

  lemma {:induction false} MembersRoundTrip(d: DoubleText, ms: seq<Member>, fuel: nat)
    requires JsonDoubles(d) && ms != [] && fuel >= |ms| && forall i :: 0 <= i < |ms| ==> ProperMember(d, ms[i])
    ensures ReadMembers(d, MembersText(d, ms), fuel) == Some(ms)
    decreases |ms|
  {
    hide ReadMember, MemberText, JsonDoubles, ProperMember;
    if |ms| == 1 {
      MemberRoundTrip(d, ms[0], ['}']);
      assert MembersText(d, ms) == MemberText(d, ms[0]) + ['}'] && [ms[0]] == ms;
    } else {
      var after := [','] + MembersText(d, ms[1..]);
      assert MembersText(d, ms) == MemberText(d, ms[0]) + after;
      MemberRoundTrip(d, ms[0], after);
      MembersLength(d, ms[1..]);
      assert after[1..] == MembersText(d, ms[1..]);
      MembersRoundTrip(d, ms[1..], fuel - 1);
      assert [ms[0]] + ms[1..] == ms;
    }
  }

  lemma {:induction false} MembersLength(d: DoubleText, ms: seq<Member>)
    requires ms != []
    ensures |MembersText(d, ms)| >= |ms|
  {
    if |ms| > 1 { MembersLength(d, ms[1..]); }
  }

  /** Reading a printed object gives back its members, in order, names and values. */
  lemma ObjectRoundTrip(d: DoubleText, ms: seq<Member>)
    requires JsonDoubles(d) && ms != [] && forall i :: 0 <= i < |ms| ==> ProperMember(d, ms[i])
    ensures ReadObject(d, ObjectText(d, ms)) == Some(ms)
  {
    MembersLength(d, ms);
    assert ObjectText(d, ms)[1..] == MembersText(d, ms);
    MembersRoundTrip(d, ms, |ObjectText(d, ms)|);
  }

  // ----- the statement -----

  datatype Statement = Statement(
    schemaVersion: nat, workerId: Bytes, softwareVersion: Bytes, buildId: Bytes, supportedAlgorithms: seq<Bytes>,
    supportedPrivacyModes: seq<Bytes>, opacusVersion: Bytes, secureRandomAvailable: bool,
    supportedAccountants: seq<Bytes>, supportedClippingModes: seq<Bytes>, supportedModels: seq<Bytes>,
    supportedModelSchemaHashes: seq<Bytes>, maximumTaskBytes: nat, maximumPrivateBatchSize: nat, cpuCount: nat,
    gpuAvailable: bool, gpuCount: nat, issuedAt: real, expiresAt: real, nonce: Bytes, signingKeyId: Bytes,
    signingPublicKey: Bytes, payloadHash: Bytes, signature: Bytes)

  /** The fields that the payload covers. */
  function SignedPart(s: Statement): Statement {
    s.(signingPublicKey := [], payloadHash := [], signature := [])
  }

  // Field names in alphabetical order.
  const BUILD_ID: Bytes := "build_id"
  const CPU_COUNT: Bytes := "cpu_count"
  const EXPIRES_AT: Bytes := "expires_at"
  const GPU_AVAILABLE: Bytes := "gpu_available"
  const GPU_COUNT: Bytes := "gpu_count"
  const ISSUED_AT: Bytes := "issued_at"
  const MAXIMUM_PRIVATE_BATCH_SIZE: Bytes := "maximum_private_batch_size"
  const MAXIMUM_TASK_BYTES: Bytes := "maximum_task_bytes"
  const NONCE: Bytes := "nonce"
  const OPACUS_VERSION: Bytes := "opacus_version"
  const SCHEMA_VERSION: Bytes := "schema_version"
  const SECURE_RANDOM_AVAILABLE: Bytes := "secure_random_available"
  const SIGNING_KEY_ID: Bytes := "signing_key_id"
  const SOFTWARE_VERSION: Bytes := "software_version"
  const SUPPORTED_ACCOUNTANTS: Bytes := "supported_accountants"
  const SUPPORTED_ALGORITHMS: Bytes := "supported_algorithms"
  const SUPPORTED_CLIPPING_MODES: Bytes := "supported_clipping_modes"
  const SUPPORTED_MODEL_SCHEMA_HASHES: Bytes := "supported_model_schema_hashes"
  const SUPPORTED_MODELS: Bytes := "supported_models"
  const SUPPORTED_PRIVACY_MODES: Bytes := "supported_privacy_modes"
  const WORKER_ID: Bytes := "worker_id"

  function Members(s: Statement): (ms: seq<Member>)
    ensures |ms| == 21
  {
    [Member(BUILD_ID, Text(s.buildId)), Member(CPU_COUNT, Whole(s.cpuCount)),
     Member(EXPIRES_AT, Real(s.expiresAt)), Member(GPU_AVAILABLE, Flag(s.gpuAvailable)),
     Member(GPU_COUNT, Whole(s.gpuCount)), Member(ISSUED_AT, Real(s.issuedAt)),
     Member(MAXIMUM_PRIVATE_BATCH_SIZE, Whole(s.maximumPrivateBatchSize)),
     Member(MAXIMUM_TASK_BYTES, Whole(s.maximumTaskBytes)), Member(NONCE, Text(s.nonce)),
     Member(OPACUS_VERSION, Text(s.opacusVersion)), Member(SCHEMA_VERSION, Whole(s.schemaVersion)),
     Member(SECURE_RANDOM_AVAILABLE, Flag(s.secureRandomAvailable)),
     Member(SIGNING_KEY_ID, Text(s.signingKeyId)), Member(SOFTWARE_VERSION, Text(s.softwareVersion)),
     Member(SUPPORTED_ACCOUNTANTS, Texts(s.supportedAccountants)),
     Member(SUPPORTED_ALGORITHMS, Texts(s.supportedAlgorithms)),
     Member(SUPPORTED_CLIPPING_MODES, Texts(s.supportedClippingModes)),
     Member(SUPPORTED_MODEL_SCHEMA_HASHES, Texts(s.supportedModelSchemaHashes)),
     Member(SUPPORTED_MODELS, Texts(s.supportedModels)),
     Member(SUPPORTED_PRIVACY_MODES, Texts(s.supportedPrivacyModes)), Member(WORKER_ID, Text(s.workerId))]
  }

  /** canonical_capability_payload_json. */
  function Payload(d: DoubleText, s: Statement): Bytes { ObjectText(d, Members(s)) }

  // ----- the printer -----

  /** The text after the first k members. */
  ghost predicate Printed(d: DoubleText, ms: seq<Member>, k: nat, out: Bytes) {
    if k < |ms| then out + MembersText(d, ms[k..]) == ObjectText(d, ms) else ms != [] && out == ObjectText(d, ms)
  }

  method JsonStringArray(values: seq<Bytes>) returns (out: Bytes)
    ensures out == ['['] + TextsTail(values, true)
  {
    out := ['['];
    for i := 0 to |values|
      invariant ['['] + TextsTail(values, true) == out + TextsTail(values[i..], i == 0)
    {
      ghost var before := out;
      assert values[i..][1..] == values[i + 1..];
      if i > 0 { out := out + [',']; }
      var item := JsonEscapeString(values[i]);
      ArrayStep(values[i..], i == 0, before);
      out := out + item;
    }
    assert values[|values|..] == [];
    out := out + [']'];
  }

  lemma ArrayStep(values: seq<Bytes>, first: bool, out: Bytes)
    requires values != []
    ensures out + TextsTail(values, first)
         == (if first then out else out + [',']) + Quoted(values[0]) + TextsTail(values[1..], false)
  {
    hide Quoted;
    var item, tail := Quoted(values[0]), TextsTail(values[1..], false);
    assert out + ([','] + item + tail) == out + [','] + item + tail;
    assert out + ([] + item + tail) == out + item + tail;
  }

  /** One member and the comma or brace after it. */
  method PutMember(d: DoubleText, ghost ms: seq<Member>, k: nat, out: Bytes, name: Bytes, value: Bytes, last: bool)
    returns (more: Bytes)
    requires k < |ms| && Printed(d, ms, k, out) && ms[k].name == name && value == ValueText(d, ms[k].value)
    requires last <==> k + 1 == |ms|
    ensures Printed(d, ms, k + 1, more)
  {
    more := out + (['"'] + name + ['"', ':'] + value);
    assert MemberText(d, ms[k]) == ['"'] + name + ['"', ':'] + value;
    PrintStep(d, ms, k, out);
    more := more + if last then ['}'] else [','];
  }

  lemma PrintStep(d: DoubleText, ms: seq<Member>, k: nat, out: Bytes)
    requires k < |ms| && Printed(d, ms, k, out)
    ensures Printed(d, ms, k + 1, out + MemberText(d, ms[k]) + if k + 1 == |ms| then ['}'] else [','])
  {
    var rest := ms[k..];
    if |rest| > 1 {
      assert rest[1..] == ms[k + 1..];
      var text, after := MemberText(d, ms[k]), MembersText(d, ms[k + 1..]);
      assert MembersText(d, rest) == text + [','] + after;
      assert out + (text + [','] + after) == (out + text + [',']) + after;
    }
  }

  /** The stream of canonical_capability_payload_json. */
  method CanonicalPayload(d: DoubleText, s: Statement) returns (out: Bytes)
    ensures out == Payload(d, s)
  {
    ghost var ms := Members(s);
    assert ms[0..] == ms;
    hide MembersText, ObjectText, JsonDouble, Quoted, TextsTail, Decimal;
    out := ['{'];
    StartsPrinted(d, ms);
    out := PutFirstSeven(d, s, out);
    out := PutNextSeven(d, s, out);
    out := PutLastSeven(d, s, out);
  }

  lemma StartsPrinted(d: DoubleText, ms: seq<Member>)
    requires ms != []
    ensures Printed(d, ms, 0, ['{'])
  {
    assert ms[0..] == ms;
  }

  method PutText(d: DoubleText, ghost ms: seq<Member>, k: nat, out: Bytes, name: Bytes, value: Bytes)
    returns (more: Bytes)
    requires k < |ms| == 21 && Printed(d, ms, k, out) && ms[k] == Member(name, Text(value))
    ensures Printed(d, ms, k + 1, more)
  {
    var text := JsonEscapeString(value);
    more := PutMember(d, ms, k, out, name, text, k == 20);
  }

  method PutWhole(d: DoubleText, ghost ms: seq<Member>, k: nat, out: Bytes, name: Bytes, value: nat)
    returns (more: Bytes)
    requires k < |ms| == 21 && Printed(d, ms, k, out) && ms[k] == Member(name, Whole(value))
    ensures Printed(d, ms, k + 1, more)
  {
    var text := Decimal(value);
    more := PutMember(d, ms, k, out, name, text, k == 20);
  }

  method PutReal(d: DoubleText, ghost ms: seq<Member>, k: nat, out: Bytes, name: Bytes, value: real)
    returns (more: Bytes)
    requires k < |ms| == 21 && Printed(d, ms, k, out) && ms[k] == Member(name, Real(value))
    ensures Printed(d, ms, k + 1, more)
  {
    var text := JsonDouble(d, value);
    more := PutMember(d, ms, k, out, name, text, k == 20);
  }

  method PutFlag(d: DoubleText, ghost ms: seq<Member>, k: nat, out: Bytes, name: Bytes, value: bool)
    returns (more: Bytes)
    requires k < |ms| == 21 && Printed(d, ms, k, out) && ms[k] == Member(name, Flag(value))
    ensures Printed(d, ms, k + 1, more)
  {
    var text := JsonBool(value);
    more := PutMember(d, ms, k, out, name, text, k == 20);
  }

  method PutTexts(d: DoubleText, ghost ms: seq<Member>, k: nat, out: Bytes, name: Bytes, value: seq<Bytes>)
    returns (more: Bytes)
    requires k < |ms| == 21 && Printed(d, ms, k, out) && ms[k] == Member(name, Texts(value))
    ensures Printed(d, ms, k + 1, more)
  {
    var text := JsonStringArray(value);
    more := PutMember(d, ms, k, out, name, text, k == 20);
  }

  lemma FirstMembers(s: Statement)
    ensures var ms := Members(s);
            && ms[0] == Member(BUILD_ID, Text(s.buildId))
            && ms[1] == Member(CPU_COUNT, Whole(s.cpuCount))
            && ms[2] == Member(EXPIRES_AT, Real(s.expiresAt))
            && ms[3] == Member(GPU_AVAILABLE, Flag(s.gpuAvailable))
            && ms[4] == Member(GPU_COUNT, Whole(s.gpuCount))
            && ms[5] == Member(ISSUED_AT, Real(s.issuedAt))
            && ms[6] == Member(MAXIMUM_PRIVATE_BATCH_SIZE, Whole(s.maximumPrivateBatchSize))
  {}

  method PutFirstSeven(d: DoubleText, s: Statement, out: Bytes) returns (more: Bytes)
    requires Printed(d, Members(s), 0, out)
    ensures Printed(d, Members(s), 7, more)
  {
    hide Members, Printed;
    FirstMembers(s);
    ghost var ms := Members(s);
    more := PutText(d, ms, 0, out, BUILD_ID, s.buildId);
    more := PutWhole(d, ms, 1, more, CPU_COUNT, s.cpuCount);
    more := PutReal(d, ms, 2, more, EXPIRES_AT, s.expiresAt);
    more := PutFlag(d, ms, 3, more, GPU_AVAILABLE, s.gpuAvailable);
    more := PutWhole(d, ms, 4, more, GPU_COUNT, s.gpuCount);
    more := PutReal(d, ms, 5, more, ISSUED_AT, s.issuedAt);
    more := PutWhole(d, ms, 6, more, MAXIMUM_PRIVATE_BATCH_SIZE, s.maximumPrivateBatchSize);
  }

  lemma NextMembers(s: Statement)
    ensures var ms := Members(s);
            && ms[7] == Member(MAXIMUM_TASK_BYTES, Whole(s.maximumTaskBytes))
            && ms[8] == Member(NONCE, Text(s.nonce))
            && ms[9] == Member(OPACUS_VERSION, Text(s.opacusVersion))
            && ms[10] == Member(SCHEMA_VERSION, Whole(s.schemaVersion))
            && ms[11] == Member(SECURE_RANDOM_AVAILABLE, Flag(s.secureRandomAvailable))
            && ms[12] == Member(SIGNING_KEY_ID, Text(s.signingKeyId))
            && ms[13] == Member(SOFTWARE_VERSION, Text(s.softwareVersion))
  {}

  method PutNextSeven(d: DoubleText, s: Statement, out: Bytes) returns (more: Bytes)
    requires Printed(d, Members(s), 7, out)
    ensures Printed(d, Members(s), 14, more)
  {
    hide Members, Printed;
    NextMembers(s);
    ghost var ms := Members(s);
    more := PutWhole(d, ms, 7, out, MAXIMUM_TASK_BYTES, s.maximumTaskBytes);
    more := PutText(d, ms, 8, more, NONCE, s.nonce);
    more := PutText(d, ms, 9, more, OPACUS_VERSION, s.opacusVersion);
    more := PutWhole(d, ms, 10, more, SCHEMA_VERSION, s.schemaVersion);
    more := PutFlag(d, ms, 11, more, SECURE_RANDOM_AVAILABLE, s.secureRandomAvailable);
    more := PutText(d, ms, 12, more, SIGNING_KEY_ID, s.signingKeyId);
    more := PutText(d, ms, 13, more, SOFTWARE_VERSION, s.softwareVersion);
  }

  lemma LastMembers(s: Statement)
    ensures var ms := Members(s);
            && ms[14] == Member(SUPPORTED_ACCOUNTANTS, Texts(s.supportedAccountants))
            && ms[15] == Member(SUPPORTED_ALGORITHMS, Texts(s.supportedAlgorithms))
            && ms[16] == Member(SUPPORTED_CLIPPING_MODES, Texts(s.supportedClippingModes))
            && ms[17] == Member(SUPPORTED_MODEL_SCHEMA_HASHES, Texts(s.supportedModelSchemaHashes))
            && ms[18] == Member(SUPPORTED_MODELS, Texts(s.supportedModels))
            && ms[19] == Member(SUPPORTED_PRIVACY_MODES, Texts(s.supportedPrivacyModes))
            && ms[20] == Member(WORKER_ID, Text(s.workerId))
  {}

  method PutLastSeven(d: DoubleText, s: Statement, out: Bytes) returns (more: Bytes)
    requires Printed(d, Members(s), 14, out)
    ensures Printed(d, Members(s), 21, more)
  {
    hide Members, Printed;
    LastMembers(s);
    ghost var ms := Members(s);
    more := PutTexts(d, ms, 14, out, SUPPORTED_ACCOUNTANTS, s.supportedAccountants);
    more := PutTexts(d, ms, 15, more, SUPPORTED_ALGORITHMS, s.supportedAlgorithms);
    more := PutTexts(d, ms, 16, more, SUPPORTED_CLIPPING_MODES, s.supportedClippingModes);
    more := PutTexts(d, ms, 17, more, SUPPORTED_MODEL_SCHEMA_HASHES, s.supportedModelSchemaHashes);
    more := PutTexts(d, ms, 18, more, SUPPORTED_MODELS, s.supportedModels);
    more := PutTexts(d, ms, 19, more, SUPPORTED_PRIVACY_MODES, s.supportedPrivacyModes);
    more := PutText(d, ms, 20, more, WORKER_ID, s.workerId);
  }

  /** The members come in alphabetical order of their names, as a JSON encoder with sorted keys puts them. */
  lemma NamesAscend(s: Statement, i: nat)
    requires i < 20
    ensures Less(Members(s)[i].name, Members(s)[i + 1].name)
  {
    hide Less;
    FirstMembers(s);
    NextMembers(s);
    LastMembers(s);
    hide Members;
    FirstNamesAscend();
    NextNamesAscend();
    LastNamesAscend();
  }

  lemma FirstNamesAscend()
    ensures Less(BUILD_ID, CPU_COUNT)
    ensures Less(CPU_COUNT, EXPIRES_AT)
    ensures Less(EXPIRES_AT, GPU_AVAILABLE)
    ensures Less(GPU_AVAILABLE, GPU_COUNT)
    ensures Less(GPU_COUNT, ISSUED_AT)
    ensures Less(ISSUED_AT, MAXIMUM_PRIVATE_BATCH_SIZE)
    ensures Less(MAXIMUM_PRIVATE_BATCH_SIZE, MAXIMUM_TASK_BYTES)
    ensures Less(MAXIMUM_TASK_BYTES, NONCE)
  {
    hide Less;
    assert Less(BUILD_ID, CPU_COUNT) by { LessAt(BUILD_ID, CPU_COUNT, 0); }
    assert Less(CPU_COUNT, EXPIRES_AT) by { LessAt(CPU_COUNT, EXPIRES_AT, 0); }
    assert Less(EXPIRES_AT, GPU_AVAILABLE) by { LessAt(EXPIRES_AT, GPU_AVAILABLE, 0); }
    assert Less(GPU_AVAILABLE, GPU_COUNT) by { LessAt(GPU_AVAILABLE, GPU_COUNT, 4); }
    assert Less(GPU_COUNT, ISSUED_AT) by { LessAt(GPU_COUNT, ISSUED_AT, 0); }
    assert Less(ISSUED_AT, MAXIMUM_PRIVATE_BATCH_SIZE) by { LessAt(ISSUED_AT, MAXIMUM_PRIVATE_BATCH_SIZE, 0); }
    assert Less(MAXIMUM_PRIVATE_BATCH_SIZE, MAXIMUM_TASK_BYTES)
      by { LessAt(MAXIMUM_PRIVATE_BATCH_SIZE, MAXIMUM_TASK_BYTES, 8); }
    assert Less(MAXIMUM_TASK_BYTES, NONCE) by { LessAt(MAXIMUM_TASK_BYTES, NONCE, 0); }
  }

  lemma NextNamesAscend()
    ensures Less(NONCE, OPACUS_VERSION)
    ensures Less(OPACUS_VERSION, SCHEMA_VERSION)
    ensures Less(SCHEMA_VERSION, SECURE_RANDOM_AVAILABLE)
    ensures Less(SECURE_RANDOM_AVAILABLE, SIGNING_KEY_ID)
    ensures Less(SIGNING_KEY_ID, SOFTWARE_VERSION)
    ensures Less(SOFTWARE_VERSION, SUPPORTED_ACCOUNTANTS)
  {
    hide Less;
    assert Less(NONCE, OPACUS_VERSION) by { LessAt(NONCE, OPACUS_VERSION, 0); }
    assert Less(OPACUS_VERSION, SCHEMA_VERSION) by { LessAt(OPACUS_VERSION, SCHEMA_VERSION, 0); }
    assert Less(SCHEMA_VERSION, SECURE_RANDOM_AVAILABLE) by { LessAt(SCHEMA_VERSION, SECURE_RANDOM_AVAILABLE, 1); }
    assert Less(SECURE_RANDOM_AVAILABLE, SIGNING_KEY_ID) by { LessAt(SECURE_RANDOM_AVAILABLE, SIGNING_KEY_ID, 1); }
    assert Less(SIGNING_KEY_ID, SOFTWARE_VERSION) by { LessAt(SIGNING_KEY_ID, SOFTWARE_VERSION, 1); }
    assert Less(SOFTWARE_VERSION, SUPPORTED_ACCOUNTANTS) by { LessAt(SOFTWARE_VERSION, SUPPORTED_ACCOUNTANTS, 1); }
  }

  lemma LastNamesAscend()
    ensures Less(SUPPORTED_ACCOUNTANTS, SUPPORTED_ALGORITHMS)
    ensures Less(SUPPORTED_ALGORITHMS, SUPPORTED_CLIPPING_MODES)
    ensures Less(SUPPORTED_CLIPPING_MODES, SUPPORTED_MODEL_SCHEMA_HASHES)
    ensures Less(SUPPORTED_MODEL_SCHEMA_HASHES, SUPPORTED_MODELS)
    ensures Less(SUPPORTED_MODELS, SUPPORTED_PRIVACY_MODES)
    ensures Less(SUPPORTED_PRIVACY_MODES, WORKER_ID)
  {
    hide Less;
    assert Less(SUPPORTED_ACCOUNTANTS, SUPPORTED_ALGORITHMS)
      by { LessAt(SUPPORTED_ACCOUNTANTS, SUPPORTED_ALGORITHMS, 11); }
    assert Less(SUPPORTED_ALGORITHMS, SUPPORTED_CLIPPING_MODES)
      by { LessAt(SUPPORTED_ALGORITHMS, SUPPORTED_CLIPPING_MODES, 10); }
    assert Less(SUPPORTED_CLIPPING_MODES, SUPPORTED_MODEL_SCHEMA_HASHES)
      by { LessAt(SUPPORTED_CLIPPING_MODES, SUPPORTED_MODEL_SCHEMA_HASHES, 10); }
    assert Less(SUPPORTED_MODEL_SCHEMA_HASHES, SUPPORTED_MODELS)
      by { LessAt(SUPPORTED_MODEL_SCHEMA_HASHES, SUPPORTED_MODELS, 15); }
    assert Less(SUPPORTED_MODELS, SUPPORTED_PRIVACY_MODES) by { LessAt(SUPPORTED_MODELS, SUPPORTED_PRIVACY_MODES, 10); }
    assert Less(SUPPORTED_PRIVACY_MODES, WORKER_ID) by { LessAt(SUPPORTED_PRIVACY_MODES, WORKER_ID, 0); }
  }

  // ----- unique readability -----

  ghost predicate ProperTexts(ss: seq<Bytes>) { forall i :: 0 <= i < |ss| ==> WellFormed(ss[i]) }

  /** Text fields in well-formed UTF-8 and times that doubles can hold. */
  ghost predicate ProperStatement(d: DoubleText, s: Statement) {
    && WellFormed(s.buildId) && WellFormed(s.nonce) && WellFormed(s.opacusVersion) && WellFormed(s.signingKeyId)
    && WellFormed(s.softwareVersion) && WellFormed(s.workerId)
    && ProperTexts(s.supportedAccountants) && ProperTexts(s.supportedAlgorithms)
    && ProperTexts(s.supportedClippingModes) && ProperTexts(s.supportedModelSchemaHashes)
    && ProperTexts(s.supportedModels) && ProperTexts(s.supportedPrivacyModes)
    && d.isDouble(s.issuedAt) && d.isDouble(s.expiresAt)
  }

  lemma MembersAreProper(d: DoubleText, s: Statement, i: nat)
    requires ProperStatement(d, s) && i < 21
    ensures ProperMember(d, Members(s)[i])
  {
    hide WellFormed;
    ValuesAreProper(d, s, i);
    NamesAreFree(s, i);
  }

  lemma ValuesAreProper(d: DoubleText, s: Statement, i: nat)
    requires ProperStatement(d, s) && i < 21
    ensures ProperValue(d, Members(s)[i].value)
  {
    hide WellFormed;
  }

  lemma NamesAreFree(s: Statement, i: nat)
    requires i < 21
    ensures Free(Members(s)[i].name, '"')
  {
    hide Free;
    FirstNames();
    MiddleNames();
    LastNames();
  }

  lemma FirstNames()
    ensures Free(BUILD_ID, '"') && Free(CPU_COUNT, '"') && Free(EXPIRES_AT, '"') && Free(GPU_AVAILABLE, '"')
    ensures Free(GPU_COUNT, '"') && Free(ISSUED_AT, '"') && Free(MAXIMUM_PRIVATE_BATCH_SIZE, '"')
  {}

  lemma MiddleNames()
    ensures Free(MAXIMUM_TASK_BYTES, '"') && Free(NONCE, '"') && Free(OPACUS_VERSION, '"')
    ensures Free(SCHEMA_VERSION, '"') && Free(SECURE_RANDOM_AVAILABLE, '"') && Free(SIGNING_KEY_ID, '"')
    ensures Free(SOFTWARE_VERSION, '"')
  {}

  lemma LastNames()
    ensures Free(SUPPORTED_ACCOUNTANTS, '"') && Free(SUPPORTED_ALGORITHMS, '"')
    ensures Free(SUPPORTED_CLIPPING_MODES, '"') && Free(SUPPORTED_MODEL_SCHEMA_HASHES, '"')
    ensures Free(SUPPORTED_MODELS, '"') && Free(SUPPORTED_PRIVACY_MODES, '"') && Free(WORKER_ID, '"')
  {}

  /** The members determine the covered fields. */
  lemma MembersInjective(a: Statement, b: Statement)
    requires Members(a) == Members(b)
    ensures SignedPart(a) == SignedPart(b)
  {
    var ms, ns := Members(a), Members(b);
    assert forall i :: 0 <= i < 21 ==> ms[i] == ns[i];
    assert ms[0] == ns[0] && ms[1] == ns[1] && ms[2] == ns[2] && ms[3] == ns[3] && ms[4] == ns[4] && ms[5] == ns[5];
    assert ms[6] == ns[6] && ms[7] == ns[7] && ms[8] == ns[8] && ms[9] == ns[9] && ms[10] == ns[10];
    assert ms[11] == ns[11] && ms[12] == ns[12] && ms[13] == ns[13] && ms[14] == ns[14] && ms[15] == ns[15];
    assert ms[16] == ns[16] && ms[17] == ns[17] && ms[18] == ns[18] && ms[19] == ns[19] && ms[20] == ns[20];
  }

  /** The canonical payload reads back as its members. */
  lemma PayloadRoundTrip(d: DoubleText, s: Statement)
    requires JsonDoubles(d) && ProperStatement(d, s)
    ensures ReadObject(d, Payload(d, s)) == Some(Members(s))
  {
    forall i | 0 <= i < 21 ensures ProperMember(d, Members(s)[i]) { MembersAreProper(d, s, i); }
    hide Members, JsonDoubles, ProperMember;
    ObjectRoundTrip(d, Members(s));
  }

  /** Equal canonical payloads mean equal covered fields. */
  lemma PayloadInjective(d: DoubleText, a: Statement, b: Statement)
    requires JsonDoubles(d) && ProperStatement(d, a) && ProperStatement(d, b) && Payload(d, a) == Payload(d, b)
    ensures SignedPart(a) == SignedPart(b)
  {
    hide Members, Payload, ReadObject;
    PayloadRoundTrip(d, a);
    PayloadRoundTrip(d, b);
    MembersInjective(a, b);
  }

  // ----- hexadecimal -----

  function HexEncode(data: Bytes): Bytes {
    if data == [] then []
    else [HexDigit(data[0] as int / 16 % 16), HexDigit(data[0] as int % 16)] + HexEncode(data[1..])
  }

  function HexDecode(hex: Bytes): Option<Bytes> {
    if hex == [] then Some([])
    else if |hex| == 1 then None
    else
      var high, low, rest := HexValue(hex[0]), HexValue(hex[1]), HexDecode(hex[2..]);
      if high.None? || low.None? || rest.None? then None
      else Some([ByteOf(high.value * 16 + low.value)] + rest.value)
  }

  /** Decoding undoes encoding, and succeeds exactly on an even number of hexadecimal digits. */
  lemma {:induction false} HexRoundTrip(data: Bytes)
    ensures HexDecode(HexEncode(data)) == Some(data)
  {
    if data != [] {
      var n := data[0] as int;
      HexRoundTrip(data[1..]);
      HexValueOfDigit(n / 16 % 16);
      HexValueOfDigit(n % 16);
      var hex := HexEncode(data);
      assert hex[2..] == HexEncode(data[1..]) && hex[0] == HexDigit(n / 16 % 16) && hex[1] == HexDigit(n % 16);
      assert ByteOf(n / 16 % 16 * 16 + n % 16) == data[0];
      assert [data[0]] + data[1..] == data;
    }
  }

  /** Encoded bytes have lower-case digits. */
  lemma {:induction false} HexEncodeIsLowerCase(data: Bytes)
    ensures forall i :: 0 <= i < |HexEncode(data)| ==> LowerHex(HexEncode(data)[i])
  {
    if data != [] {
      HexEncodeIsLowerCase(data[1..]);
      DigitIsLowerCase(data[0] as int / 16 % 16);
      DigitIsLowerCase(data[0] as int % 16);
    }
  }

  lemma {:induction false} HexDecodes(hex: Bytes)
    ensures HexDecode(hex).Some? <==> |hex| % 2 == 0 && forall i :: 0 <= i < |hex| ==> HexValue(hex[i]).Some?
    ensures HexDecode(hex).Some? ==> |hex| == 2 * |HexDecode(hex).value|
    decreases |hex|
  {
    if |hex| > 1 {
      HexDecodes(hex[2..]);
      assert hex == [hex[0], hex[1]] + hex[2..];
    }
  }

  method DecodeHex(hex: Bytes) returns (r: Option<Bytes>)
    ensures r == HexDecode(hex)
  {
    if |hex| % 2 != 0 {
      HexDecodes(hex);
      return None;
    }
    var bytes: Bytes := [];
    var i := 0;
    PrependNothing(HexDecode(hex));
    assert hex[0..] == hex;
    while i < |hex|
      invariant i <= |hex| && i % 2 == 0
      invariant HexDecode(hex) == Prepended(bytes, HexDecode(hex[i..]))
    {
      assert hex[i..][2..] == hex[i + 2..];
      var high, low := HexValue(hex[i]), HexValue(hex[i + 1]);
      if high.None? || low.None? { return None; }
      PrependAppend(bytes, ByteOf(high.value * 16 + low.value), HexDecode(hex[i + 2..]));
      bytes := bytes + [ByteOf(high.value * 16 + low.value)];
      i := i + 2;
    }
    assert hex[i..] == [] && bytes + [] == bytes;
    return Some(bytes);
  }

  function Prepended(front: Bytes, rest: Option<Bytes>): Option<Bytes> {
    if rest.None? then None else Some(front + rest.value)
  }

  lemma PrependNothing(rest: Option<Bytes>)
    ensures Prepended([], rest) == rest
  {
    if rest.Some? { assert [] + rest.value == rest.value; }
  }

  lemma PrependAppend(front: Bytes, b: Byte, rest: Option<Bytes>)
    ensures Prepended(front, Prepended([b], rest)) == Prepended(front + [b], rest)
  {
    if rest.Some? { assert front + ([b] + rest.value) == (front + [b]) + rest.value; }
  }

  method EncodeHex(data: Bytes) returns (out: Bytes)
    ensures out == HexEncode(data)
  {
    hide HexDigit;
    out := [];
    for i := 0 to |data|
      invariant HexEncode(data) == out + HexEncode(data[i..])
    {
      hide HexEncode;
      HexEncodeStep(data, i, out);
      out := out + [HexDigit(data[i] as int / 16 % 16)];
      out := out + [HexDigit(data[i] as int % 16)];
    }
  }

  lemma HexEncodeStep(data: Bytes, i: nat, out: Bytes)
    requires i < |data|
    ensures out + HexEncode(data[i..])
         == out + [HexDigit(data[i] as int / 16 % 16)] + [HexDigit(data[i] as int % 16)] + HexEncode(data[i + 1..])
  {
    hide HexDigit;
    assert data[i..][1..] == data[i + 1..];
  }

  // ----- verification -----

  /** SHA-256 and the Ed25519 check, which the model does not look into. */
  datatype Crypto = Crypto(sha256: Bytes -> Bytes, checks: (Bytes, Bytes, Bytes) -> bool)

  datatype Verdict = Valid | HashMismatch | NotHex | InvalidSignature | HasExpired

  function Ed25519(crypto: Crypto, publicKey: Bytes, signature: Bytes, message: Bytes): bool {
    |publicKey| == 32 && |signature| == 64 && crypto.checks(publicKey, signature, message)
  }

  /** verify_capability_statement. */
  method VerifyStatement(d: DoubleText, crypto: Crypto, s: Statement, now: real) returns (v: Verdict)
    ensures v == Verify(d, crypto, s, now)
  {
    hide Payload;
    var canonical := CanonicalPayload(d, s);
    var hash := EncodeHex(crypto.sha256(canonical));
    if hash != s.payloadHash { return HashMismatch; }
    var key := DecodeHex(s.signingPublicKey);
    var signature := DecodeHex(s.signature);
    if key.None? || signature.None? { return NotHex; }
    if !Ed25519(crypto, key.value, signature.value, canonical) { return InvalidSignature; }
    if s.expiresAt <= 0.0 || now >= s.expiresAt { return HasExpired; }
    return Valid;
  }

  function Verify(d: DoubleText, crypto: Crypto, s: Statement, now: real): Verdict {
    var canonical := Payload(d, s);
    if HexEncode(crypto.sha256(canonical)) != s.payloadHash then HashMismatch
    else
      var key, signature := HexDecode(s.signingPublicKey), HexDecode(s.signature);
      if key.None? || signature.None? then NotHex
      else if !Ed25519(crypto, key.value, signature.value, canonical) then InvalidSignature
      else if s.expiresAt <= 0.0 || now >= s.expiresAt then HasExpired
      else Valid
  }

  /** n bytes in hexadecimal. */
  predicate HexText(hex: Bytes, n: nat) {
    |hex| == 2 * n && forall i :: 0 <= i < |hex| ==> HexValue(hex[i]).Some?
  }

  lemma HexTextDecodes(hex: Bytes, n: nat)
    ensures HexText(hex, n) <==> HexDecode(hex).Some? && |HexDecode(hex).value| == n
  {
    HexDecodes(hex);
  }

  /** The key with the bytes that these texts spell signed the payload. */
  predicate Signed(d: DoubleText, crypto: Crypto, s: Statement) {
    && HexText(s.signingPublicKey, 32) && HexText(s.signature, 64)
    && HexDecode(s.signingPublicKey).Some? && HexDecode(s.signature).Some?
    && crypto.checks(HexDecode(s.signingPublicKey).value, HexDecode(s.signature).value, Payload(d, s))
  }

  /** A statement is valid exactly when its hash is the lower-case hexadecimal digest of its payload, it spells a key of
      32 and a signature of 64 bytes that check against that payload, and its positive expiry lies ahead; it has expired
      exactly when only the last fails. */
  lemma ValidExactly(d: DoubleText, crypto: Crypto, s: Statement, now: real)
    ensures var genuine := HexDecode(s.payloadHash) == Some(crypto.sha256(Payload(d, s)))
                           && s.payloadHash == HexEncode(crypto.sha256(Payload(d, s))) && Signed(d, crypto, s);
            && (Verify(d, crypto, s, now) == Valid <==> genuine && s.expiresAt > 0.0 && now < s.expiresAt)
            && (Verify(d, crypto, s, now) == HasExpired <==> genuine && !(s.expiresAt > 0.0 && now < s.expiresAt))
  {
    hide Payload, HexEncode, HexDecode;
    HexRoundTrip(crypto.sha256(Payload(d, s)));
    HexTextDecodes(s.signingPublicKey, 32);
    HexTextDecodes(s.signature, 64);
  }

  /** What a worker sends: the fields with the digest, the key and the signature spelled out. */
  function Sealed(d: DoubleText, crypto: Crypto, s: Statement, key: Bytes, signature: Bytes): Statement {
    s.(payloadHash := HexEncode(crypto.sha256(Payload(d, s))), signingPublicKey := HexEncode(key),
       signature := HexEncode(signature))
  }

  /** Sending and verifying: what a worker seals verifies until it expires exactly when key and signature have their
      lengths and check against the payload. */
  lemma SealedVerifies(d: DoubleText, crypto: Crypto, s: Statement, key: Bytes, signature: Bytes, now: real)
    ensures Payload(d, Sealed(d, crypto, s, key, signature)) == Payload(d, s)
    ensures Verify(d, crypto, Sealed(d, crypto, s, key, signature), now) == Valid <==>
      && |key| == 32 && |signature| == 64 && crypto.checks(key, signature, Payload(d, s))
      && 0.0 < s.expiresAt && now < s.expiresAt
  {
    hide Payload, HexEncode, HexDecode;
    CoversOnly(d, s, Sealed(d, crypto, s, key, signature));
    HexRoundTrip(crypto.sha256(Payload(d, s)));
    HexRoundTrip(key);
    HexRoundTrip(signature);
  }

  /** A payload hash binds the covered fields: with a collision-free digest no two statements that pass the hash check
      carry the same payload hash but different fields. */
  lemma HashBindsFields(d: DoubleText, crypto: Crypto, a: Statement, b: Statement, t: real, u: real)
    requires JsonDoubles(d) && ProperStatement(d, a) && ProperStatement(d, b)
    requires forall x, y :: crypto.sha256(x) == crypto.sha256(y) ==> x == y
    requires Verify(d, crypto, a, t) != HashMismatch && Verify(d, crypto, b, u) != HashMismatch
    ensures a.payloadHash == b.payloadHash <==> SignedPart(a) == SignedPart(b)
  {
    hide Members, ReadObject, JsonDoubles, ProperStatement;
    if a.payloadHash == b.payloadHash {
      HexRoundTrip(crypto.sha256(Payload(d, a)));
      HexRoundTrip(crypto.sha256(Payload(d, b)));
      PayloadInjective(d, a, b);
    }
    if SignedPart(a) == SignedPart(b) { CoversOnly(d, a, b); }
  }

  /** The payload looks at the covered fields only. */
  lemma CoversOnly(d: DoubleText, a: Statement, b: Statement)
    requires SignedPart(a) == SignedPart(b)
    ensures Payload(d, a) == Payload(d, b)
  {
    assert Members(a) == Members(b);
  }

  /** Tampering: a statement that was valid becomes a hash mismatch when any covered field changes and the rest is
      kept. */
  lemma TamperingIsDetected(d: DoubleText, crypto: Crypto, s: Statement, forged: Statement, t: real, u: real)
    requires JsonDoubles(d) && ProperStatement(d, s) && ProperStatement(d, forged)
    requires forall x, y :: crypto.sha256(x) == crypto.sha256(y) ==> x == y
    requires Verify(d, crypto, s, t) == Valid
    requires forged.payloadHash == s.payloadHash && SignedPart(forged) != SignedPart(s)
    ensures Verify(d, crypto, forged, u) == HashMismatch
  {
    if Verify(d, crypto, forged, u) != HashMismatch { HashBindsFields(d, crypto, s, forged, t, u); }
  }
}
