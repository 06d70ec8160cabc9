/** FNV-1a on 64 bits, printed as sixteen hexadecimal digits. */
module Fnv1a {
  import opened ByteStrings

  const WORD: nat := 0x1_0000_0000_0000_0000
  const PRIME: nat := 1099511628211
  /** 64-bit unsigned arithmetic wraps around. */
  function Wrap(n: nat): nat { n % WORD }

  const OFFSET: nat := 1469598103934665603

  /** Bitwise exclusive or. */
  function Xor(a: nat, b: nat): nat
    decreases a + b
  {
    if a == 0 && b == 0 then 0 else (a + b) % 2 + 2 * Xor(a / 2, b / 2)
  }

  function Pow2(k: nat): nat { if k == 0 then 1 else 2 * Pow2(k - 1) }

  lemma {:induction false} Pow2Add(a: nat, b: nat)
    ensures Pow2(a + b) == Pow2(a) * Pow2(b)
  {
    if a > 0 { Pow2Add(a - 1, b); }
  }

  lemma WordIsPow2()
    ensures Pow2(64) == WORD
  {
    assert Pow2(2) == 4 && Pow2(4) == 16;
    Pow2Add(4, 4);
    Pow2Add(8, 8);
    Pow2Add(16, 16);
    Pow2Add(32, 32);
  }

  lemma {:induction false} XorBound(a: nat, b: nat, k: nat)
    requires a < Pow2(k) && b < Pow2(k)
    ensures Xor(a, b) < Pow2(k)
  {
    if k > 0 { XorBound(a / 2, b / 2, k - 1); }
  }

  /** Exclusive or with a fixed number is injective. */
  lemma {:induction false} XorInjective(a: nat, b: nat, c: nat)
    requires Xor(a, b) == Xor(a, c)
    ensures b == c
    decreases a + b + c
  {
    if a + b + c > 0 {
      assert Xor(a, b) == (a + b) % 2 + 2 * Xor(a / 2, b / 2);
      assert Xor(a, c) == (a + c) % 2 + 2 * Xor(a / 2, c / 2);
      XorInjective(a / 2, b / 2, c / 2);
    }
  }

  lemma {:induction false} XorSymmetric(a: nat, b: nat)
    ensures Xor(a, b) == Xor(b, a)
    decreases a + b
  {
    if a + b > 0 { XorSymmetric(a / 2, b / 2); }
  }

  /** One byte of the hash. */
  function HashByte(h: nat, c: Byte): (r: nat)
    ensures r < WORD
  {
    (Xor(h, c as int) * PRIME) % WORD
  }

  /** A loop over bytes that keeps one word of state. */
  type ByteStep = (nat, Byte) -> nat

  function Fold(step: ByteStep, h: nat, s: Bytes): nat
    decreases |s|
  {
    if s == [] then h else Fold(step, step(h, s[0]), s[1..])
  }

  /** fnv1a_hash. */
  function Hash(s: Bytes): nat {
    Fold(HashByte, OFFSET, s)
  }

  /** Multiplying by the odd prime is invertible modulo 2^64. */
  const INVERSE: nat := 14886173955864302971

  lemma MultiplicationInjective(x: nat, y: nat)
    requires x < WORD && y < WORD && (x * PRIME) % WORD == (y * PRIME) % WORD
    ensures x == y
  {
    assert PRIME * INVERSE == 887285111055 * WORD + 1;
    Invert(x);
    Invert(y);
  }

  lemma Invert(x: nat)
    requires x < WORD
    ensures (((x * PRIME) % WORD) * INVERSE) % WORD == x
  {
    var k, r := x * PRIME / WORD, x * PRIME % WORD;
    assert x * PRIME == k * WORD + r;
    assert r * INVERSE == x * (PRIME * INVERSE) - k * INVERSE * WORD;
    assert r * INVERSE == (x * 887285111055 - k * INVERSE) * WORD + x;
    RemainderOf(r * INVERSE, x * 887285111055 - k * INVERSE, x);
  }

  lemma RemainderOf(n: int, q: int, x: nat)
    requires x < WORD && n == q * WORD + x
    ensures n % WORD == x
  {}

  /** A step is injective in the state and in the byte, on 64-bit states. */
  ghost predicate InjectiveStep(step: ByteStep) {
    && (forall h: nat, c :: step(h, c) < WORD)
    && (forall h: nat, g: nat, c :: h < WORD && g < WORD && step(h, c) == step(g, c) ==> h == g)
    && (forall h: nat, b, c :: h < WORD && step(h, b) == step(h, c) ==> b == c)
  }

  lemma StepInjective(h: nat, b: Byte, g: nat, c: Byte)
    requires h < WORD && g < WORD && HashByte(h, b) == HashByte(g, c)
    ensures b == c ==> h == g
    ensures h == g ==> b == c
  {
    WordIsPow2();
    XorBound(h, b as int, 64);
    XorBound(g, c as int, 64);
    MultiplicationInjective(Xor(h, b as int), Xor(g, c as int));
    if h == g { XorInjective(h, b as int, c as int); }
    if b == c {
      XorSymmetric(h, b as int);
      XorSymmetric(g, b as int);
      XorInjective(b as int, h, g);
    }
  }

  lemma FnvStepIsInjective()
    ensures InjectiveStep(HashByte)
  {
    forall h: nat, g: nat, c | h < WORD && g < WORD && HashByte(h, c) == HashByte(g, c) ensures h == g {
      StepInjective(h, c, g, c);
    }
    forall h: nat, b, c | h < WORD && HashByte(h, b) == HashByte(h, c) ensures b == c {
      StepInjective(h, b, h, c);
    }
  }

  lemma {:induction false} FoldInjective(step: ByteStep, h: nat, g: nat, s: Bytes)
    requires InjectiveStep(step) && h < WORD && g < WORD && Fold(step, h, s) == Fold(step, g, s)
    ensures h == g
    decreases |s|
  {
    if s != [] { FoldInjective(step, step(h, s[0]), step(g, s[0]), s[1..]); }
  }

  lemma {:induction false} FoldInRange(step: ByteStep, h: nat, s: Bytes)
    requires InjectiveStep(step) && h < WORD
    ensures Fold(step, h, s) < WORD
    decreases |s|
  {
    if s != [] { FoldInRange(step, step(h, s[0]), s[1..]); }
  }

  /** Changing one byte changes the result. */
  lemma {:induction false} FoldDetectsSubstitution(step: ByteStep, h: nat, s: Bytes, i: nat, c: Byte)
    requires InjectiveStep(step) && h < WORD && i < |s| && s[i] != c
    ensures Fold(step, h, s[i := c]) != Fold(step, h, s)
    decreases |s|
  {
    var t := s[i := c];
    if i == 0 {
      assert t[1..] == s[1..];
      if Fold(step, h, t) == Fold(step, h, s) {
        FoldInjective(step, step(h, c), step(h, s[0]), s[1..]);
      }
    } else {
      assert t[1..] == s[1..][i - 1 := c];
      FoldDetectsSubstitution(step, step(h, s[0]), s[1..], i - 1, c);
    }
  }

  /** FNV-1a detects every single-byte substitution. */
  lemma HashDetectsSubstitution(s: Bytes, i: nat, c: Byte)
    requires i < |s| && s[i] != c
    ensures Hash(s[i := c]) != Hash(s)
  {
    FnvStepIsInjective();
    FoldDetectsSubstitution(HashByte, OFFSET, s, i, c);
  }

  lemma HashInRange(s: Bytes)
    ensures Hash(s) < WORD
  {
    FnvStepIsInjective();
    FoldInRange(HashByte, OFFSET, s);
  }

  /** The loop of fnv1a_hash. */
  method Fnv1aHash(data: Bytes) returns (hash: nat)
    ensures hash == Hash(data)
  {
    hash := OFFSET;
    for i := 0 to |data|
      invariant Hash(data) == Fold(HashByte, hash, data[i..])
    {
      assert data[i..][1..] == data[i + 1..];
      var next := Xor(hash, data[i] as int);
      next := (next * PRIME) % WORD;
      assert next == HashByte(hash, data[i]);
      hash := next;
    }
  }

  // ----- sixteen hexadecimal digits -----

  function HexDigit(d: nat): (c: Byte)
    requires d < 16
    ensures c != '\n' && c != '\r' && c != '='
  {
    if d < 10 then ('0' as int + d) as char else ('a' as int + d - 10) as char
  }

  lemma HexDigitInjective(d: nat, e: nat)
    requires d < 16 && e < 16 && HexDigit(d) == HexDigit(e)
    ensures d == e
  {}

  /** A digit as streams print it: no capitals. */
  predicate LowerHex(c: char) { '0' <= c <= '9' || 'a' <= c <= 'f' }

  lemma {:induction false} HexIsLowerCase(n: nat, digits: nat)
    ensures forall i :: 0 <= i < digits ==> LowerHex(Hex(n, digits)[i])
  {
    if digits > 0 { HexIsLowerCase(n / 16, digits - 1); }
  }

  function Hex(n: nat, digits: nat): (s: Bytes)
    ensures |s| == digits && forall i :: 0 <= i < |s| ==> s[i] != '\n' && s[i] != '\r' && s[i] != '='
  {
    if digits == 0 then [] else Hex(n / 16, digits - 1) + [HexDigit(n % 16)]
  }

  /** hash_to_hex. */
  function HashToHex(n: nat): (s: Bytes)
    ensures |s| == 16
  {
    Hex(n, 16)
  }

  /** The printed hash has lower-case digits. */
  lemma HashToHexIsLowerCase(n: nat)
    ensures forall i :: 0 <= i < 16 ==> LowerHex(HashToHex(n)[i])
  {
    HexIsLowerCase(n, 16);
  }

  lemma {:induction false} HexInjective(m: nat, n: nat, digits: nat)
    requires m < Pow2(4 * digits) && n < Pow2(4 * digits) && Hex(m, digits) == Hex(n, digits)
    ensures m == n
  {
    if digits > 0 {
      var s, t := Hex(m, digits), Hex(n, digits);
      assert s[..digits - 1] == Hex(m / 16, digits - 1) && t[..digits - 1] == Hex(n / 16, digits - 1);
      assert s[digits - 1] == HexDigit(m % 16) && t[digits - 1] == HexDigit(n % 16);
      assert Pow2(4 * digits) == 16 * Pow2(4 * (digits - 1)) by {
        Pow2Add(4, 4 * (digits - 1));
        assert Pow2(2) == 4 && Pow2(4) == 16;
      }
      HexInjective(m / 16, n / 16, digits - 1);
      HexDigitInjective(m % 16, n % 16);
    }
  }

  lemma HashToHexInjective(m: nat, n: nat)
    requires m < WORD && n < WORD && HashToHex(m) == HashToHex(n)
    ensures m == n
  {
    WordIsPow2();
    HexInjective(m, n, 16);
  }

  /** The checksum text of a body. */
  function Fnv(body: Bytes): Bytes { HashToHex(Hash(body)) }
}
