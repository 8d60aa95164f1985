/** base32nopad of portal/priv/static/assets/crypto.js: an accumulator that is never masked
    and wraps at 32 bits, against section 6 of RFC 4648 without padding. */
module Base32 {
  import opened Base

  /** A five-bit group; the output is the alphabet letter of each. */
  type quint = x: int | 0 <= x < 32

  const ALPHABET := "ABCDEFGHIJKLMNOPQRSTUVWXYZ234567"

  const WORD := 0x1_0000_0000

  function Pow2(n: nat): (p: nat)
    ensures p > 0
  {
    if n == 0 then 1 else 2 * Pow2(n - 1)
  }

  lemma SmallPowers()
    ensures Pow2(0) == 1 && Pow2(1) == 2 && Pow2(2) == 4 && Pow2(3) == 8 && Pow2(4) == 16 && Pow2(5) == 32
    ensures Pow2(6) == 64 && Pow2(7) == 128 && Pow2(8) == 256 && Pow2(9) == 512 && Pow2(10) == 1024
    ensures Pow2(11) == 2048 && Pow2(12) == 4096
  {
  }

  // ---- The standard: a stream of bits cut into groups of five -------------------

  /** Bit i of the input, most significant bit of the first byte first, then zeros. */
  function Bit(b: bytes, i: nat): nat {
    if i / 8 < |b| then b[i / 8] / Pow2(7 - i % 8) % 2 else 0
  }

  function Stream(b: bytes): nat -> nat { (i: nat) => Bit(b, i) }

  /** Bits lo..hi of a stream read as one number. */
  function Bits(f: nat -> nat, lo: nat, hi: nat): nat {
    if hi <= lo then 0 else 2 * Bits(f, lo, hi - 1) + f(hi - 1)
  }

  function Groups(b: bytes): nat { (8 * |b| + 4) / 5 }

  ghost predicate Binary(f: nat -> nat) { forall i :: f(i) < 2 }

  lemma StreamIsBinary(b: bytes)
    ensures Binary(Stream(b))
  {
  }

  lemma {:induction false} BitsBound(f: nat -> nat, lo: nat, hi: nat)
    requires Binary(f)
    ensures Bits(f, lo, hi) < Pow2(if lo <= hi then hi - lo else 0)
  {
    if lo < hi {
      BitsBound(f, lo, hi - 1);
      assert f(hi - 1) < 2;
    }
  }

  function Group(b: bytes, k: nat): quint {
    StreamIsBinary(b);
    BitsBound(Stream(b), 5 * k, 5 * k + 5);
    SmallPowers();
    Bits(Stream(b), 5 * k, 5 * k + 5)
  }

  /** The encoding the standard gives, without the padding characters. */
  function Encoding(b: bytes): seq<quint> {
    seq(Groups(b), k requires 0 <= k => Group(b, k))
  }

  // ---- Reading bits -----------------------------------------------------------------

  lemma {:induction false} BitsSplit(f: nat -> nat, lo: nat, mid: nat, hi: nat)
    requires lo <= mid <= hi
    ensures Bits(f, lo, hi) == Bits(f, lo, mid) * Pow2(hi - mid) + Bits(f, mid, hi)
  {
    if mid < hi {
      BitsSplit(f, lo, mid, hi - 1);
      Twice(Bits(f, lo, mid), Pow2(hi - 1 - mid));
    }
  }

  lemma Twice(x: nat, p: nat)
    ensures 2 * (x * p) == x * (2 * p)
  {
  }

  lemma MulSign(d: int, m: int)
    requires m > 0
    ensures d >= 1 ==> d * m >= m
    ensures d <= -1 ==> d * m <= -m
  {
  }

  lemma DivModIs(v: int, m: nat, q: int, r: int)
    requires m > 0 && v == q * m + r && 0 <= r < m
    ensures v / m == q && v % m == r
  {
    var d := v / m - q;
    assert v == (v / m) * m + v % m;
    assert d * m == (v / m) * m - q * m;
    MulSign(d, m);
  }

  lemma Halves(x: nat, p: nat)
    requires p > 0
    ensures 2 * (x / (2 * p)) + x / p % 2 == x / p
  {
    var y, r := x / p, x % p;
    var h, o := y / 2, y % 2;
    assert x == y * p + r && y == 2 * h + o;
    assert x == h * (2 * p) + (o * p + r);
    assert o * p == 0 || o * p == p;
    DivModIs(x, 2 * p, h, o * p + r);
  }

  lemma BitOf(b: bytes, i: nat, j: nat)
    requires i < |b| && j < 8
    ensures Stream(b)(8 * i + j) == b[i] / Pow2(7 - j) % 2
  {
    assert (8 * i + j) / 8 == i && (8 * i + j) % 8 == j;
  }

  lemma NextBit(b: bytes, i: nat, j: nat, p: nat)
    requires i < |b| && j < 8 && p == Pow2(7 - j) && p > 0
    requires Bits(Stream(b), 8 * i, 8 * i + j) == b[i] / (2 * p)
    ensures Bits(Stream(b), 8 * i, 8 * i + j + 1) == b[i] / p
  {
    BitOf(b, i, j);
    Halves(b[i], p);
  }

  /** The first j bits of a byte are its top j bits. */
  lemma {:induction false} TopBits(b: bytes, i: nat, j: nat)
    requires i < |b| && j <= 8
    ensures Bits(Stream(b), 8 * i, 8 * i + j) == b[i] / Pow2(8 - j)
  {
    if j == 0 {
      assert Pow2(8) == 256 by { SmallPowers(); }
    } else {
      TopBits(b, i, j - 1);
      assert Pow2(8 - (j - 1)) == 2 * Pow2(8 - j);
      NextBit(b, i, j - 1, Pow2(8 - j));
    }
  }

  /** The eight bits of a byte are that byte. */
  lemma ByteBits(b: bytes, i: nat)
    requires i < |b|
    ensures Bits(Stream(b), 8 * i, 8 * i + 8) == b[i]
  {
    TopBits(b, i, 8);
  }

  /** Past the end there are only zeros. */
  lemma {:induction false} ZeroBits(b: bytes, lo: nat, hi: nat)
    requires 8 * |b| <= lo
    ensures Bits(Stream(b), lo, hi) == 0
  {
    if lo < hi {
      ZeroBits(b, lo, hi - 1);
    }
  }

  // ---- The loop --------------------------------------------------------------------------

  /** (value << 8) | x, kept to 32 bits as the source language keeps it. */
  function Shift8(value: nat, x: byte): nat { (value * 256 + x) % WORD }

  /** (value >>> n) & 31. */
  function Take5(value: nat, n: nat): quint { value / Pow2(n) % 32 }

  /** (value << n) & 31, the shift again kept to 32 bits. */
  function Top5(value: nat, n: nat): quint { value * Pow2(n) % WORD % 32 }

  /** Reducing first modulo a multiple of m does not show modulo m. */
  lemma ModOfMod(v: nat, m: nat, k: nat)
    requires m > 0 && k > 0 && k * m == WORD
    ensures v % WORD % m == v % m
  {
    var q, r := v / WORD, v % WORD;
    assert v == q * WORD + r;
    var a, t := r / m, r % m;
    assert r == a * m + t;
    assert v == (q * k + a) * m + t by { assert q * (k * m) == (q * k) * m; }
    DivModIs(v, m, q * k + a, t);
  }

  function Cofactor(n: nat): (k: nat)
    requires n <= 12
    ensures k > 0 && k * Pow2(n) == WORD
  {
    SmallPowers();
    WORD / Pow2(n)
  }

  /** Only the low twelve bits are ever read, and 2^12 divides 2^32. */
  lemma PendArith(n: nat, value: nat, x: byte)
    requires n <= 4 && Pow2(n + 8) == 256 * Pow2(n)
    ensures Shift8(value, x) % Pow2(n + 8) == (value % Pow2(n)) * 256 + x
  {
    var P, M := Pow2(n), Pow2(n + 8);
    var q, p := value / P, value % P;
    assert value == q * P + p;
    assert value * 256 + x == q * M + (p * 256 + x) by { assert (q * P) * 256 == q * (256 * P); }
    DivModIs(value * 256 + x, M, q, p * 256 + x);
    ModOfMod(value * 256 + x, M, Cofactor(n + 8));
  }

  lemma TakeArith(n: nat, value: nat, g: quint, r: nat)
    requires Pow2(n + 5) == 32 * Pow2(n)
    requires r < Pow2(n) && value % Pow2(n + 5) == g * Pow2(n) + r
    ensures Take5(value, n) == g && value % Pow2(n) == r
  {
    var P := Pow2(n);
    var q := value / Pow2(n + 5);
    assert value == q * Pow2(n + 5) + (g * P + r);
    assert value == (q * 32 + g) * P + r by { assert q * (32 * P) == (q * 32) * P; }
    DivModIs(value, P, q * 32 + g, r);
    DivModIs(q * 32 + g, 32, q, g);
  }

  lemma TopArith(n: nat, value: nat)
    requires n <= 5 && Pow2(n) * Pow2(5 - n) == 32
    ensures Top5(value, 5 - n) == (value % Pow2(n)) * Pow2(5 - n)
  {
    var P, Z := Pow2(n), Pow2(5 - n);
    var q, p := value / P, value % P;
    Widen(value, q, p, P, Z);
    DivModIs(value * Z, 32, q, p * Z);
    ModOfMod(value * Z, 32, WORD / 32);
  }

  lemma Widen(value: nat, q: nat, p: nat, P: nat, Z: nat)
    requires value == q * P + p && p < P && Z > 0 && P * Z == 32
    ensures value * Z == q * 32 + p * Z && 0 <= p * Z < 32
  {
  }

  lemma FourMore(n: nat)
    ensures Pow2(n + 4) == 16 * Pow2(n)
  {
    assert Pow2(n + 2) == 4 * Pow2(n);
  }

  /** The powers that occur, as the loop's steps need them. */
  lemma PowSteps(n: nat)
    requires n <= 7
    ensures Pow2(n + 8) == 256 * Pow2(n) && Pow2(n + 5) == 32 * Pow2(n)
    ensures n <= 5 ==> Pow2(n) * Pow2(5 - n) == 32
  {
    SmallPowers();
    FourMore(n);
    FourMore(n + 4);
    assert n == 0 || n == 1 || n == 2 || n == 3 || n == 4 || n >= 5;
  }

  /** Appending a byte appends its bits to the pending ones; what lies above is noise. */
  lemma {:induction false} PendByte(b: bytes, i: nat, from: nat, value: nat)
    requires i < |b| && from <= 8 * i && 8 * i - from <= 4
    requires value % Pow2(8 * i - from) == Bits(Stream(b), from, 8 * i)
    ensures Shift8(value, b[i]) % Pow2(8 * i + 8 - from) == Bits(Stream(b), from, 8 * i + 8)
  {
    var n := 8 * i - from;
    PowSteps(n);
    PendArith(n, value, b[i]);
    AppendByte(b, i, from);
  }

  lemma AppendByte(b: bytes, i: nat, from: nat)
    requires i < |b| && from <= 8 * i
    ensures Bits(Stream(b), from, 8 * i + 8) == Bits(Stream(b), from, 8 * i) * 256 + b[i]
  {
    BitsSplit(Stream(b), from, 8 * i, 8 * i + 8);
    ByteBits(b, i);
    SmallPowers();
  }

  /** Taking five bits off the top yields the next group and leaves the rest pending. */
  lemma {:induction false} TakeGroup(b: bytes, k: nat, to: nat, value: nat)
    requires 5 <= to - 5 * k <= 12
    requires value % Pow2(to - 5 * k) == Bits(Stream(b), 5 * k, to)
    ensures Take5(value, to - 5 * k - 5) == Group(b, k)
    ensures value % Pow2(to - 5 * k - 5) == Bits(Stream(b), 5 * k + 5, to)
  {
    var n := to - 5 * k - 5;
    PowSteps(n);
    SplitGroup(b, k, to);
    TakeArith(n, value, Group(b, k), Bits(Stream(b), 5 * k + 5, to));
  }

  /** The bits from group k on are that group, then fewer bits than the rest has places. */
  lemma SplitGroup(b: bytes, k: nat, to: nat)
    requires 5 * k + 5 <= to
    ensures Bits(Stream(b), 5 * k, to) == Group(b, k) * Pow2(to - 5 * k - 5) + Bits(Stream(b), 5 * k + 5, to)
    ensures Bits(Stream(b), 5 * k + 5, to) < Pow2(to - 5 * k - 5)
  {
    StreamIsBinary(b);
    BitsSplit(Stream(b), 5 * k, 5 * k + 5, to);
    BitsBound(Stream(b), 5 * k + 5, to);
  }

  /** The last, short group is filled up with zeros. */
  lemma LastGroup(b: bytes, k: nat, value: nat)
    requires 1 <= 8 * |b| - 5 * k <= 4
    requires value % Pow2(8 * |b| - 5 * k) == Bits(Stream(b), 5 * k, 8 * |b|)
    ensures Top5(value, 5 - (8 * |b| - 5 * k)) == Group(b, k)
  {
    PowSteps(8 * |b| - 5 * k);
    TopArith(8 * |b| - 5 * k, value);
    BitsSplit(Stream(b), 5 * k, 8 * |b|, 5 * k + 5);
    ZeroBits(b, 8 * |b|, 5 * k + 5);
  }

  function Letters(gs: seq<quint>): string {
    seq(|gs|, k requires 0 <= k < |gs| => ALPHABET[gs[k]])
  }

  /** The letters written so far are those of the first groups. */
  ghost predicate Wrote(b: bytes, out: string) {
    forall k | 0 <= k < |out| :: out[k] == ALPHABET[Group(b, k)]
  }

  lemma WroteAll(b: bytes, out: string)
    requires Wrote(b, out) && |out| == Groups(b)
    ensures out == Letters(Encoding(b))
  {
  }

  lemma WroteOneMore(b: bytes, out: string, g: quint)
    requires Wrote(b, out) && g == Group(b, |out|)
    ensures Wrote(b, out + [ALPHABET[g]])
  {
  }

  /** `value` ends with the bits of the input that lie past the letters written. */
  ghost predicate Pending(b: bytes, value: nat, out: string, to: nat) {
    5 * |out| <= to && value % Pow2(to - 5 * |out|) == Bits(Stream(b), 5 * |out|, to)
  }

  lemma ByteStep(b: bytes, i: nat, value: nat, out: string)
    requires i < |b| && 0 <= 8 * i - 5 * |out| <= 4 && Pending(b, value, out, 8 * i)
    ensures Pending(b, Shift8(value, b[i]), out, 8 * i + 8)
  {
    PendByte(b, i, 5 * |out|, value);
  }

  lemma GroupStep(b: bytes, value: nat, out: string, to: nat)
    requires Wrote(b, out) && Pending(b, value, out, to) && 5 <= to - 5 * |out| <= 12
    ensures var more := out + [ALPHABET[Take5(value, to - 5 * |out| - 5)]];
            Wrote(b, more) && Pending(b, value, more, to)
  {
    TakeGroup(b, |out|, to, value);
    WroteOneMore(b, out, Take5(value, to - 5 * |out| - 5));
  }

  /** What is written after the loop completes the encoding. */
  lemma LastStep(b: bytes, value: nat, out: string)
    requires Wrote(b, out) && Pending(b, value, out, 8 * |b|) && 8 * |b| - 5 * |out| <= 4
    ensures var bits := 8 * |b| - 5 * |out|;
            (if bits > 0 then out + [ALPHABET[Top5(value, 5 - bits)]] else out) == Letters(Encoding(b))
  {
    var bits := 8 * |b| - 5 * |out|;
    if bits > 0 {
      LastGroup(b, |out|, value);
      WroteOneMore(b, out, Top5(value, 5 - bits));
      WroteAll(b, out + [ALPHABET[Top5(value, 5 - bits)]]);
    } else {
      WroteAll(b, out);
    }
  }

  /** The inner loop. */
  method WriteGroups(b: bytes, value: nat, pending: nat, written: string, ghost to: nat) returns (bits: nat, out: string)
    requires Wrote(b, written) && pending == to - 5 * |written| && pending <= 12
    requires Pending(b, value, written, to)
    ensures Wrote(b, out) && bits == to - 5 * |out| && bits <= 4
    ensures Pending(b, value, out, to)
  {
    bits, out := pending, written;
    while bits >= 5
      invariant Wrote(b, out) && bits == to - 5 * |out| && bits <= 12
      invariant Pending(b, value, out, to)
    {
      GroupStep(b, value, out, to);
      out := out + [ALPHABET[Take5(value, bits - 5)]];
      bits := bits - 5;
    }
  }

  /** For input of every length the loop writes exactly the standard's encoding. */
  method Base32NoPad(b: bytes) returns (out: string)
    ensures out == Letters(Encoding(b))
  {
    var bits, value: nat := 0, 0;
    out := "";
    for i := 0 to |b|
      invariant Wrote(b, out) && bits == 8 * i - 5 * |out| && bits <= 4
      invariant Pending(b, value, out, 8 * i)
    {
      ByteStep(b, i, value, out);
      value := Shift8(value, b[i]);
      bits, out := WriteGroups(b, value, bits + 8, out, 8 * i + 8);
    }
    LastStep(b, value, out);
    if bits > 0 {
      out := out + [ALPHABET[Top5(value, 5 - bits)]];
    }
  }

  // ---- Injectivity ---------------------------------------------------------------------------

  lemma {:induction false} SameBits(f: nat -> nat, g: nat -> nat, lo: nat, hi: nat, i: nat)
    requires Binary(f) && Binary(g)
    requires Bits(f, lo, hi) == Bits(g, lo, hi) && lo <= i < hi
    ensures f(i) == g(i)
    decreases hi
  {
    assert f(hi - 1) < 2 && g(hi - 1) < 2;
    if i < hi - 1 {
      SameBits(f, g, lo, hi - 1, i);
    }
  }

  lemma {:induction false} EqualBits(f: nat -> nat, g: nat -> nat, lo: nat, hi: nat)
    requires forall i | lo <= i < hi :: f(i) == g(i)
    ensures Bits(f, lo, hi) == Bits(g, lo, hi)
  {
    if lo < hi {
      EqualBits(f, g, lo, hi - 1);
    }
  }

  /** Reading a letter of the alphabet back. */
  function Digit(c: char): int {
    if 'A' <= c <= 'Z' then c as int - 'A' as int else c as int - '2' as int + 26
  }

  lemma DigitOfLetter(x: quint)
    ensures Digit(ALPHABET[x]) == x
  {
  }

  lemma SameGroup(a: bytes, b: bytes, k: nat)
    requires Letters(Encoding(a)) == Letters(Encoding(b)) && k < Groups(a) && k < Groups(b)
    ensures Group(a, k) == Group(b, k)
  {
    assert Letters(Encoding(a))[k] == ALPHABET[Group(a, k)];
    assert Letters(Encoding(b))[k] == ALPHABET[Group(b, k)];
    DigitOfLetter(Group(a, k));
    DigitOfLetter(Group(b, k));
  }

  lemma SameBit(a: bytes, b: bytes, j: nat)
    requires Letters(Encoding(a)) == Letters(Encoding(b)) && j < 8 * |a| && |a| == |b|
    ensures Stream(a)(j) == Stream(b)(j)
  {
    var k := j / 5;
    SameGroup(a, b, k);
    StreamIsBinary(a);
    StreamIsBinary(b);
    SameBits(Stream(a), Stream(b), 5 * k, 5 * k + 5, j);
  }

  lemma SameByte(a: bytes, b: bytes, i: nat)
    requires Letters(Encoding(a)) == Letters(Encoding(b)) && i < |a| && |a| == |b|
    ensures a[i] == b[i]
  {
    forall j: nat | 8 * i <= j < 8 * i + 8 ensures Stream(a)(j) == Stream(b)(j) { SameBit(a, b, j); }
    EqualBits(Stream(a), Stream(b), 8 * i, 8 * i + 8);
    ByteBits(a, i);
    ByteBits(b, i);
  }

  /** Two inputs with one encoding are one input. */
  lemma Injective(a: bytes, b: bytes)
    requires Letters(Encoding(a)) == Letters(Encoding(b))
    ensures a == b
  {
    assert |Letters(Encoding(a))| == Groups(a) && |Letters(Encoding(b))| == Groups(b);
    assert |a| == |b|;
    forall i: nat | i < |a| ensures a[i] == b[i] { SameByte(a, b, i); }
  }
}
