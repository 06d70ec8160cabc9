/** std::string as a sequence of bytes: order, decimal numbers, splitting and joining. */
module ByteStrings {
  import opened SortedInts

  type Byte = c: char | c as int < 256 witness 'a'
  type Bytes = seq<Byte>

  // ----- order -----

  /** std::string's operator<. */
  predicate Less(a: Bytes, b: Bytes) {
    b != [] && (a == [] || a[0] < b[0] || (a[0] == b[0] && Less(a[1..], b[1..])))
  }

  lemma {:induction false} LessTrichotomy(a: Bytes, b: Bytes)
    ensures Less(a, b) || a == b || Less(b, a)
    ensures !(Less(a, b) && Less(b, a)) && !Less(a, a)
  {
    if a != [] && b != [] && a[0] == b[0] {
      LessTrichotomy(a[1..], b[1..]);
      assert a == [a[0]] + a[1..] && b == [b[0]] + b[1..];
    }
    if a != [] { LessTrichotomy(a[1..], a[1..]); }
  }

  lemma {:induction false} LessTransitive(a: Bytes, b: Bytes, c: Bytes)
    requires Less(a, b) && Less(b, c)
    ensures Less(a, c)
  {
    if a != [] && a[0] == b[0] && b[0] == c[0] { LessTransitive(a[1..], b[1..], c[1..]); }
  }

  lemma {:induction false} LessAt(a: Bytes, b: Bytes, i: nat)
    requires i < |a| && i < |b| && a[i] < b[i] && forall k :: 0 <= k < i ==> a[k] == b[k]
    ensures Less(a, b)
  {
    if i > 0 { LessAt(a[1..], b[1..], i - 1); }
  }

  // ----- decimal numbers -----

  function Digit(d: nat): (c: Byte)
    requires d < 10
    ensures '0' <= c <= '9' && (c as int - '0' as int) == d
  {
    ('0' as int + d) as char
  }

  predicate IsDigit(c: char) { '0' <= c <= '9' }

  predicate AllDigits(s: Bytes) { forall i :: 0 <= i < |s| ==> IsDigit(s[i]) }

  /** std::to_string of an unsigned number. */
  function Decimal(n: nat): (s: Bytes)
    ensures s != [] && AllDigits(s)
  {
    if n < 10 then [Digit(n)] else Decimal(n / 10) + [Digit(n % 10)]
  }

  function DigitValue(c: char): nat
    requires IsDigit(c)
  {
    c as int - '0' as int
  }

  /** The number that a string of digits denotes. */
  function Number(s: Bytes): nat
    requires AllDigits(s)
  {
    if s == [] then 0 else 10 * Number(s[..|s| - 1]) + DigitValue(s[|s| - 1])
  }

  lemma {:induction false} NumberOfDecimal(n: nat)
    ensures Number(Decimal(n)) == n
  {
    if n >= 10 {
      NumberOfDecimal(n / 10);
      assert Decimal(n)[..|Decimal(n)| - 1] == Decimal(n / 10);
    } else {
      assert Decimal(n)[..0] == [];
    }
  }

  lemma DecimalInjective(m: nat, n: nat)
    requires Decimal(m) == Decimal(n)
    ensures m == n
  {
    NumberOfDecimal(m);
    NumberOfDecimal(n);
  }

  /** The leading digits of a string. */
  function LeadingDigits(s: Bytes): (d: Bytes)
    ensures AllDigits(d) && d <= s
    ensures AllDigits(s) ==> d == s
  {
    if s == [] || !IsDigit(s[0]) then [] else
      assert AllDigits(s) ==> AllDigits(s[1..]);
      [s[0]] + LeadingDigits(s[1..])
  }

  /** The text after the blanks that C's isspace skips. */
  function SkipBlanks(s: Bytes): (t: Bytes)
    ensures s != [] && IsDigit(s[0]) ==> t == s
  {
    if s != [] && (s[0] == ' ' || 0x09 <= s[0] as int <= 0x0D) then SkipBlanks(s[1..]) else s
  }

  /** An optional sign, and whether it is a minus. */
  function TakeSign(s: Bytes): (r: (bool, Bytes))
    ensures s != [] && IsDigit(s[0]) ==> r == (false, s)
  {
    if s != [] && (s[0] == '-' || s[0] == '+') then (s[0] == '-', s[1..]) else (false, s)
  }

  /** std::stoull for values below `limit`: blanks, a sign and the leading digits, if there are any and their value is
      in range; a minus negates modulo the limit. */
  function ParseUnsigned(s: Bytes, limit: nat): Outcome<nat> {
    var (minus, rest) := TakeSign(SkipBlanks(s));
    var d := LeadingDigits(rest);
    if d == [] then Error("invalid number")
    else if Number(d) >= limit then Error("out of range")
    else Ok(if minus && Number(d) > 0 then limit - Number(d) else Number(d))
  }

  /** std::stoi likewise, on a signed range. */
  function ParseSigned(s: Bytes, limit: nat): Outcome<int> {
    var (minus, rest) := TakeSign(SkipBlanks(s));
    var d := LeadingDigits(rest);
    if d == [] then Error("invalid number")
    else if Number(d) >= limit + (if minus then 1 else 0) then Error("out of range")
    else Ok(if minus then -(Number(d) as int) else Number(d) as int)
  }

  function SignedDecimal(n: int): (s: Bytes)
    ensures s != []
  {
    if n < 0 then ['-'] + Decimal(-n) else Decimal(n)
  }

  lemma UnsignedRoundTrip(n: nat, limit: nat)
    requires n < limit
    ensures ParseUnsigned(Decimal(n), limit) == Ok(n)
  {
    NumberOfDecimal(n);
  }

  lemma SignedRoundTrip(n: int, limit: nat)
    requires -n <= limit && n < limit
    ensures ParseSigned(SignedDecimal(n), limit) == Ok(n)
  {
    hide Number, Decimal, LeadingDigits;
    NumberOfDecimal(if n < 0 then -n else n);
    if n < 0 {
      assert SignedDecimal(n)[1..] == Decimal(-n);
      assert SkipBlanks(SignedDecimal(n)) == SignedDecimal(n);
    }
  }

  // ----- splitting at a delimiter -----

  function IndexOf(s: Bytes, d: Byte): (i: nat)
    ensures i <= |s| && (i < |s| ==> s[i] == d) && forall k :: 0 <= k < i ==> s[k] != d
  {
    if s == [] || s[0] == d then 0 else 1 + IndexOf(s[1..], d)
  }

  /** Repeated std::getline: the pieces between delimiters, without an empty piece after the last delimiter. */
  function Split(s: Bytes, d: Byte): (parts: seq<Bytes>) {
    if s == [] then []
    else
      var i := IndexOf(s, d);
      if i == |s| then [s] else [s[..i]] + Split(s[i + 1..], d)
  }

  /** The loop over std::getline. */
  method SplitText(value: Bytes, delimiter: Byte) returns (parts: seq<Bytes>)
    ensures parts == Split(value, delimiter)
  {
    parts := [];
    var rest := value;
    while rest != []
      invariant Split(value, delimiter) == parts + Split(rest, delimiter)
      decreases |rest|
    {
      var i := IndexOf(rest, delimiter);
      ghost var later := if i == |rest| then [] else Split(rest[i + 1..], delimiter);
      assert rest[..|rest|] == rest;
      assert Split(rest, delimiter) == [rest[..i]] + later;
      assert parts + ([rest[..i]] + later) == (parts + [rest[..i]]) + later;
      parts := parts + [rest[..i]];
      rest := if i == |rest| then [] else rest[i + 1..];
    }
  }

  predicate Free(s: Bytes, d: Byte) { forall i :: 0 <= i < |s| ==> s[i] != d }

  /** No piece contains the delimiter. */
  lemma {:induction false} SplitFree(s: Bytes, d: Byte)
    ensures forall i :: 0 <= i < |Split(s, d)| ==> Free(Split(s, d)[i], d)
  {
    if s != [] {
      var i := IndexOf(s, d);
      if i < |s| { SplitFree(s[i + 1..], d); }
    }
  }

  lemma {:induction false} SplitKeepsFree(s: Bytes, d: Byte, e: Byte)
    requires Free(s, e)
    ensures forall i :: 0 <= i < |Split(s, d)| ==> Free(Split(s, d)[i], e)
  {
    if s != [] {
      var i := IndexOf(s, d);
      if i < |s| { SplitKeepsFree(s[i + 1..], d, e); }
    }
  }

  lemma IndexOfConcat(s: Bytes, d: Byte, t: Bytes)
    requires Free(s, d)
    ensures IndexOf(s + [d] + t, d) == |s|
  {
    var u := s + [d] + t;
    assert u[|s|] == d;
    assert forall k :: 0 <= k < |s| ==> u[k] == s[k];
  }

  lemma DecimalFree(n: nat, d: Byte)
    requires !IsDigit(d)
    ensures Free(Decimal(n), d)
  {}

  lemma SplitConcat(s: Bytes, d: Byte, t: Bytes)
    requires Free(s, d)
    ensures Split(s + [d] + t, d) == [s] + Split(t, d)
  {
    var u := s + [d] + t;
    IndexOfConcat(s, d, t);
    assert u[..|s|] == s && u[|s| + 1..] == t;
  }

  /** Every piece followed by the delimiter. */
  function Terminated(parts: seq<Bytes>, d: Byte): Bytes {
    if parts == [] then [] else parts[0] + [d] + Terminated(parts[1..], d)
  }

  lemma {:induction false} SplitTerminated(parts: seq<Bytes>, d: Byte)
    requires forall i :: 0 <= i < |parts| ==> Free(parts[i], d)
    ensures Split(Terminated(parts, d), d) == parts
  {
    if parts != [] {
      SplitTerminated(parts[1..], d);
      SplitConcat(parts[0], d, Terminated(parts[1..], d));
    }
  }

  /** The pieces with the delimiter between them. */
  function Joined(parts: seq<Bytes>, d: Byte): Bytes
    requires parts != []
  {
    if |parts| == 1 then parts[0] else parts[0] + [d] + Joined(parts[1..], d)
  }

  /** Splitting loses an empty last piece. */
  function DropEmptyLast(parts: seq<Bytes>): seq<Bytes> {
    if parts != [] && parts[|parts| - 1] == [] then parts[..|parts| - 1] else parts
  }

  /** Splitting undoes joining, except that an empty last piece disappears. */
  lemma {:induction false} SplitJoined(parts: seq<Bytes>, d: Byte)
    requires parts != [] && forall i :: 0 <= i < |parts| ==> Free(parts[i], d)
    ensures Split(Joined(parts, d), d) == DropEmptyLast(parts)
  {
    hide Split, DropEmptyLast;
    if |parts| == 1 {
      SplitLone(parts, d);
    } else {
      SplitJoined(parts[1..], d);
      SplitConcat(parts[0], d, Joined(parts[1..], d));
      DropEmptyStep(parts);
    }
  }

  lemma SplitLone(parts: seq<Bytes>, d: Byte)
    requires |parts| == 1 && Free(parts[0], d)
    ensures Split(parts[0], d) == DropEmptyLast(parts)
  {
    assert IndexOf(parts[0], d) == |parts[0]|;
  }

  lemma DropEmptyStep(parts: seq<Bytes>)
    requires |parts| > 1
    ensures [parts[0]] + DropEmptyLast(parts[1..]) == DropEmptyLast(parts)
  {
    PrependLast(parts);
  }

  lemma PrependLast(parts: seq<Bytes>)
    requires |parts| > 1
    ensures parts[1..][|parts| - 2] == parts[|parts| - 1]
    ensures [parts[0]] + parts[1..] == parts
    ensures [parts[0]] + parts[1..][..|parts| - 2] == parts[..|parts| - 1]
  {}

  lemma {:induction false} JoinedFree(parts: seq<Bytes>, d: Byte, e: Byte)
    requires parts != [] && e != d && forall i :: 0 <= i < |parts| ==> Free(parts[i], e)
    ensures Free(Joined(parts, d), e)
  {
    if |parts| > 1 { JoinedFree(parts[1..], d, e); }
  }

  // ----- doubles as text -----

  /** The doubles among the reals, and how the library prints and reads them. */
  datatype DoubleText = DoubleText(isDouble: real -> bool, text: real -> Bytes, read: Bytes -> Outcome<real>)

  /** Printing with seventeen digits is undone by reading, and needs neither tabs nor newlines. */
  ghost predicate ProperDoubles(d: DoubleText) {
    forall x :: d.isDouble(x) ==>
      d.text(x) != [] && Free(d.text(x), '\t') && Free(d.text(x), '\n') && d.read(d.text(x)) == Ok(x)
  }
}
