/**
 The checksum `crc32` of the database set-up script: a bit-serial register computed with
 JavaScript's signed 32-bit operators.  It equals the table-driven CRC of section 8 of
 RFC 1952, it is affine over exclusive-or, and it detects every change confined to four
 consecutive bytes.
 */
module Crc32 {
  import opened JsNumber

  newtype Byte = b: int | 0 <= b < 256

  const POLYNOMIAL: nat := 0xedb8_8320
  const ALL_ONES: nat := 0xffff_ffff

  // ---------------------------------------------------------------- the register, bit by bit

  function Step(w: nat): nat {
    if w % 2 == 1 then Xor(w / 2, POLYNOMIAL) else w / 2
  }

  function Steps(n: nat, w: nat): nat {
    if n == 0 then w else Steps(n - 1, Step(w))
  }

  function Absorb(w: nat, b: Byte): nat {
    Steps(8, Xor(w, b as nat))
  }

  function Register(w: nat, bytes: seq<Byte>): nat
    decreases |bytes|
  {
    if bytes == [] then w else Register(Absorb(w, bytes[0]), bytes[1..])
  }

  /** The checksum as an unsigned 32-bit word. */
  function CrcWord(bytes: seq<Byte>): nat {
    Xor(Register(ALL_ONES, bytes), ALL_ONES)
  }

  // ---------------------------------------------------------------- the algorithm of RFC 1952

  /** `make_crc_table`. */
  function CrcTable(): (table: seq<nat>)
    ensures |table| == 256
  {
    seq(256, n requires 0 <= n < 256 => Steps(8, n))
  }

  /** `update_crc` before its final complement: `c = table[(c ^ b) & 0xff] ^ (c >> 8)`. */
  function UpdateCrc(w: nat, bytes: seq<Byte>): nat
    decreases |bytes|
  {
    if bytes == [] then w else UpdateCrc(TableStep(w, bytes[0]), bytes[1..])
  }

  function TableStep(w: nat, b: Byte): nat {
    Xor(CrcTable()[Xor(w, b as nat) % 256], w / 256)
  }

  /** `crc(buf, len)`: the register starts from, and ends by, the complement. */
  function Rfc1952Crc(bytes: seq<Byte>): nat {
    Xor(UpdateCrc(Xor(0, ALL_ONES), bytes), ALL_ONES)
  }

  // ---------------------------------------------------------------- ranges

  lemma StepRange(w: nat)
    requires w < TWO_TO_THE_32
    ensures Step(w) < TWO_TO_THE_32
  {
    Pow2Of32();
    XorRange(32, w / 2, POLYNOMIAL);
  }

  lemma {:induction false} StepsRange(n: nat, w: nat)
    requires w < TWO_TO_THE_32
    ensures Steps(n, w) < TWO_TO_THE_32
  {
    if n != 0 {
      StepRange(w);
      StepsRange(n - 1, Step(w));
    }
  }

  lemma AbsorbRange(w: nat, b: Byte)
    requires w < TWO_TO_THE_32
    ensures Absorb(w, b) < TWO_TO_THE_32
  {
    Pow2Of32();
    XorRange(32, w, b as nat);
    StepsRange(8, Xor(w, b as nat));
  }

  lemma {:induction false} RegisterRange(w: nat, bytes: seq<Byte>)
    requires w < TWO_TO_THE_32
    ensures Register(w, bytes) < TWO_TO_THE_32
    decreases |bytes|
  {
    if bytes != [] {
      AbsorbRange(w, bytes[0]);
      RegisterRange(Absorb(w, bytes[0]), bytes[1..]);
    }
  }

  // ---------------------------------------------------------------- linearity and injectivity

  lemma StepLinear(a: nat, b: nat)
    ensures Step(Xor(a, b)) == Xor(Step(a), Step(b))
  {
    var p, q := a / 2, b / 2;
    XorHalves(a, b);
    XorAssociates(p, q, POLYNOMIAL);
    XorAssociates(p, POLYNOMIAL, q);
    XorCommutes(q, POLYNOMIAL);
    XorExchange(p, POLYNOMIAL, q, POLYNOMIAL);
    XorSelf(POLYNOMIAL);
    XorZero(Xor(p, q));
  }

  lemma {:induction false} StepsLinear(n: nat, a: nat, b: nat)
    ensures Steps(n, Xor(a, b)) == Xor(Steps(n, a), Steps(n, b))
  {
    if n != 0 {
      StepLinear(a, b);
      StepsLinear(n - 1, Step(a), Step(b));
    }
  }

  /** The polynomial's top bit shows in the result exactly when a one was shifted out. */
  lemma {:induction false} TopBit(k: nat, a: nat, b: nat)
    requires a < Pow2(k) && Pow2(k) <= b < 2 * Pow2(k)
    ensures Xor(a, b) >= Pow2(k)
  {
    if k == 0 {
      XorZero(1);
    } else {
      TopBit(k - 1, a / 2, b / 2);
    }
  }

  lemma StepInjective(a: nat, b: nat)
    requires a < TWO_TO_THE_32 && b < TWO_TO_THE_32
    requires Step(a) == Step(b)
    ensures a == b
  {
    Pow2Of32();
    TopBit(31, a / 2, POLYNOMIAL);
    TopBit(31, b / 2, POLYNOMIAL);
    if a % 2 == 1 && b % 2 == 1 {
      XorInjective(a / 2, b / 2, POLYNOMIAL);
    }
  }

  lemma {:induction false} StepsInjective(n: nat, a: nat, b: nat)
    requires a < TWO_TO_THE_32 && b < TWO_TO_THE_32
    requires Steps(n, a) == Steps(n, b)
    ensures a == b
  {
    if n != 0 {
      StepRange(a);
      StepRange(b);
      StepsInjective(n - 1, Step(a), Step(b));
      StepInjective(a, b);
    }
  }

  lemma AbsorbInjective(v: nat, w: nat, b: Byte)
    requires v < TWO_TO_THE_32 && w < TWO_TO_THE_32
    requires Absorb(v, b) == Absorb(w, b)
    ensures v == w
  {
    Pow2Of32();
    XorRange(32, v, b as nat);
    XorRange(32, w, b as nat);
    StepsInjective(8, Xor(v, b as nat), Xor(w, b as nat));
    XorInjective(v, w, b as nat);
  }

  lemma {:induction false} RegisterInjective(v: nat, w: nat, bytes: seq<Byte>)
    requires v < TWO_TO_THE_32 && w < TWO_TO_THE_32
    requires Register(v, bytes) == Register(w, bytes)
    ensures v == w
    decreases |bytes|
  {
    if bytes != [] {
      AbsorbRange(v, bytes[0]);
      AbsorbRange(w, bytes[0]);
      RegisterInjective(Absorb(v, bytes[0]), Absorb(w, bytes[0]), bytes[1..]);
      AbsorbInjective(v, w, bytes[0]);
    }
  }

  lemma {:induction false} RegisterAppend(w: nat, xs: seq<Byte>, ys: seq<Byte>)
    ensures Register(w, xs + ys) == Register(Register(w, xs), ys)
    decreases |xs|
  {
    if xs == [] {
      assert xs + ys == ys;
    } else {
      assert (xs + ys)[1..] == xs[1..] + ys;
      RegisterAppend(Absorb(w, xs[0]), xs[1..], ys);
    }
  }

  // ---------------------------------------------------------------- table-driven = bit-serial

  /** While the low bits are clear, steps are plain shifts. */
  lemma {:induction false} StepsShift(n: nat, h: nat)
    ensures Steps(n, Pow2(n) * h) == h
  {
    if n != 0 {
      var p := Pow2(n - 1) * h;
      assert Pow2(n) * h == 2 * p;
      assert Step(2 * p) == p;
      StepsShift(n - 1, h);
    }
  }

  /** Eight steps act on the low byte; the upper bits are shifted and mixed in. */
  lemma StepsOfByte(low: nat, high: nat)
    requires low < 256
    ensures Steps(8, low + 256 * high) == Xor(Steps(8, low), high)
  {
    Pow2Of32();
    XorDisjoint(8, low, high);
    StepsLinear(8, low, 256 * high);
    StepsShift(8, high);
  }

  /** A byte leaves the bits above the low eight alone. */
  lemma XorByteHigh(w: nat, b: Byte)
    ensures Xor(w, b as nat) / 256 == w / 256
  {
    Pow2Of32();
    var low, high := w % 256, w / 256;
    XorDisjoint(8, low, high);
    XorCommutes(low, 256 * high);
    XorAssociates(256 * high, low, b as nat);
    XorRange(8, low, b as nat);
    var mixed := Xor(low, b as nat);
    XorCommutes(256 * high, mixed);
    XorDisjoint(8, mixed, high);
    assert Xor(w, b as nat) == mixed + 256 * high;
  }

  lemma AbsorbIsTableStep(w: nat, b: Byte)
    ensures Absorb(w, b) == TableStep(w, b)
  {
    var v := Xor(w, b as nat);
    assert v == v % 256 + 256 * (v / 256);
    StepsOfByte(v % 256, v / 256);
    XorByteHigh(w, b);
  }

  lemma {:induction false} RegisterIsTableDriven(w: nat, bytes: seq<Byte>)
    ensures Register(w, bytes) == UpdateCrc(w, bytes)
    decreases |bytes|
  {
    if bytes != [] {
      AbsorbIsTableStep(w, bytes[0]);
      RegisterIsTableDriven(Absorb(w, bytes[0]), bytes[1..]);
    }
  }

  // ---------------------------------------------------------------- the JavaScript loops

  /** One pass of the inner loop on the numbers JavaScript holds, signed or not. */
  function JsStep(crc: int): int {
    JsXor(JsShiftRight1(crc), if JsAnd(crc, 1) != 0 then 0xedb8_8320 else 0)
  }

  lemma OddIsMasked(crc: int)
    ensures JsAnd(crc, 1) != 0 <==> ToUint32(crc) % 2 == 1
  {
    AndOne(ToUint32(crc));
  }

  lemma JsStepIsStep(crc: int)
    ensures ToUint32(JsStep(crc)) == Step(ToUint32(crc))
  {
    var w := ToUint32(crc);
    var mask: int := if JsAnd(crc, 1) != 0 then 0xedb8_8320 else 0;
    OddIsMasked(crc);
    Uint32OfJsXor(JsShiftRight1(crc), mask);
    assert ToUint32(JsShiftRight1(crc)) == w / 2 && ToUint32(mask) == mask;
    XorZero(w / 2);
  }

  lemma StepsSnoc(n: nat, w: nat)
    ensures Steps(n + 1, w) == Step(Steps(n, w))
  {
    if n != 0 {
      StepsSnoc(n - 1, Step(w));
    }
  }

  lemma MixByte(crc: int, b: Byte)
    ensures ToUint32(JsXor(crc, b as int)) == Xor(ToUint32(crc), b as nat)
  {
    var y := b as int;
    assert ToUint32(y) == y;
    Uint32OfJsXor(crc, y);
  }

  /** `(crc ^ 0xffffffff) | 0` */
  lemma Complement(crc: int)
    ensures JsOr(JsXor(crc, 0xffff_ffff), 0) == ToInt32(Xor(ToUint32(crc), ALL_ONES))
  {
    Uint32OfJsXor(crc, 0xffff_ffff);
    OrZero(ToUint32(JsXor(crc, 0xffff_ffff)));
    Uint32OfInt32(JsXor(crc, 0xffff_ffff));
  }

  /** The two nested loops, statement by statement. */
  method Compute(buffer: seq<Byte>) returns (result: int)
    ensures result == ToInt32(Rfc1952Crc(buffer))
    ensures -0x8000_0000 <= result < 0x8000_0000
  {
    var crc: int := 0xffff_ffff;
    var i := 0;
    while i < |buffer|
      invariant 0 <= i <= |buffer|
      invariant ToUint32(crc) == Register(ALL_ONES, buffer[..i])
    {
      MixByte(crc, buffer[i]);
      crc := JsXor(crc, buffer[i] as int);
      ghost var mixed := ToUint32(crc);
      var j := 0;
      while j < 8
        invariant 0 <= j <= 8
        invariant ToUint32(crc) == Steps(j, mixed)
      {
        JsStepIsStep(crc);
        StepsSnoc(j, mixed);
        crc := JsXor(JsShiftRight1(crc), if JsAnd(crc, 1) != 0 then 0xedb8_8320 else 0);
        j := j + 1;
      }
      assert buffer[..i + 1] == buffer[..i] + [buffer[i]];
      RegisterAppend(ALL_ONES, buffer[..i], [buffer[i]]);
      i := i + 1;
    }
    assert buffer[..i] == buffer;
    Complement(crc);
    RegisterIsTableDriven(ALL_ONES, buffer);
    XorZero(ALL_ONES);
    result := JsOr(JsXor(crc, 0xffff_ffff), 0);
  }

  /** What `crc32` returns: the RFC 1952 checksum read as a signed 32-bit integer. */
  function Crc32(bytes: seq<Byte>): int {
    ToInt32(Rfc1952Crc(bytes))
  }

  lemma Crc32IsRegister(bytes: seq<Byte>)
    ensures Rfc1952Crc(bytes) == CrcWord(bytes) < TWO_TO_THE_32
  {
    XorZero(ALL_ONES);
    RegisterIsTableDriven(ALL_ONES, bytes);
    RegisterRange(ALL_ONES, bytes);
    Pow2Of32();
    XorRange(32, Register(ALL_ONES, bytes), ALL_ONES);
  }

  lemma Crc32Word(bytes: seq<Byte>)
    ensures ToUint32(Crc32(bytes)) == CrcWord(bytes) && Crc32(bytes) == ToInt32(CrcWord(bytes))
  {
    Crc32IsRegister(bytes);
    WordReadBack(Rfc1952Crc(bytes));
  }

  // ---------------------------------------------------------------- affinity

  function XorBytes(a: seq<Byte>, b: seq<Byte>): (c: seq<Byte>)
    requires |a| == |b|
    ensures |c| == |a|
    ensures forall i :: 0 <= i < |a| ==> c[i] as nat == Xor(a[i] as nat, b[i] as nat)
  {
    if a == [] then []
    else
      Pow2Of32();
      XorRange(8, a[0] as nat, b[0] as nat);
      [Xor(a[0] as nat, b[0] as nat) as Byte] + XorBytes(a[1..], b[1..])
  }

  lemma AbsorbLinear(v: nat, w: nat, x: Byte, y: Byte, z: Byte)
    requires z as nat == Xor(x as nat, y as nat)
    ensures Absorb(Xor(v, w), z) == Xor(Absorb(v, x), Absorb(w, y))
  {
    XorExchange(v, w, x as nat, y as nat);
    StepsLinear(8, Xor(v, x as nat), Xor(w, y as nat));
  }

  lemma {:induction false} RegisterLinear(v: nat, w: nat, a: seq<Byte>, b: seq<Byte>)
    requires |a| == |b|
    ensures Register(Xor(v, w), XorBytes(a, b)) == Xor(Register(v, a), Register(w, b))
    decreases |a|
  {
    if a != [] {
      var c := XorBytes(a, b);
      assert c[1..] == XorBytes(a[1..], b[1..]);
      AbsorbLinear(v, w, a[0], b[0], c[0]);
      RegisterLinear(Absorb(v, a[0]), Absorb(w, b[0]), a[1..], b[1..]);
    }
  }

  lemma CrcWordAffine(a: seq<Byte>, b: seq<Byte>, c: seq<Byte>)
    requires |a| == |b| == |c|
    ensures CrcWord(XorBytes(XorBytes(a, b), c)) == Xor(Xor(CrcWord(a), CrcWord(b)), CrcWord(c))
  {
    var ra, rb, rc := Register(ALL_ONES, a), Register(ALL_ONES, b), Register(ALL_ONES, c);
    XorSelf(ALL_ONES);
    XorZero(ALL_ONES);
    RegisterLinear(ALL_ONES, ALL_ONES, a, b);
    RegisterLinear(0, ALL_ONES, XorBytes(a, b), c);
    XorExchange(ra, ALL_ONES, rb, ALL_ONES);
    XorZero(Xor(ra, rb));
    XorAssociates(Xor(ra, rb), rc, ALL_ONES);
  }

  /** The checksum of an exclusive-or of three equally long buffers. */
  lemma Crc32Affine(a: seq<Byte>, b: seq<Byte>, c: seq<Byte>)
    requires |a| == |b| == |c|
    ensures Crc32(XorBytes(XorBytes(a, b), c)) == JsXor(JsXor(Crc32(a), Crc32(b)), Crc32(c))
  {
    CrcWordAffine(a, b, c);
    Crc32Word(a);
    Crc32Word(b);
    Crc32Word(c);
    Crc32Word(XorBytes(XorBytes(a, b), c));
    Uint32OfJsXor(Crc32(a), Crc32(b));
  }

  // ---------------------------------------------------------------- burst detection

  /** Bytes as one little-endian word. */
  function Pack(bytes: seq<Byte>): nat {
    if bytes == [] then 0 else bytes[0] as nat + 256 * Pack(bytes[1..])
  }

  lemma {:induction false} PackInjective(x: seq<Byte>, y: seq<Byte>)
    requires |x| == |y| && Pack(x) == Pack(y)
    ensures x == y
  {
    if x != [] {
      assert x[0] as nat == Pack(x) % 256 && y[0] as nat == Pack(y) % 256;
      PackInjective(x[1..], y[1..]);
      assert x == [x[0]] + x[1..] && y == [y[0]] + y[1..];
    }
  }

  lemma Pow2Eight(k: nat)
    ensures Pow2(k + 8) == 256 * Pow2(k)
  {
    assert Pow2(k + 4) == 16 * Pow2(k) by {
      assert Pow2(k + 2) == 4 * Pow2(k);
    }
    assert Pow2(k + 6) == 4 * Pow2(k + 4);
  }

  lemma {:induction false} PackRange(bytes: seq<Byte>)
    ensures Pack(bytes) < Pow2(8 * |bytes|)
  {
    if bytes != [] {
      PackRange(bytes[1..]);
      Pow2Eight(8 * |bytes[1..]|);
    }
  }

  lemma {:induction false} StepsCompose(m: nat, n: nat, w: nat)
    ensures Steps(m + n, w) == Steps(n, Steps(m, w))
  {
    if m != 0 {
      StepsCompose(m - 1, n, Step(w));
    }
  }

  lemma AbsorbAhead(w: nat, b: Byte, p: nat)
    ensures Steps(8, Xor(w, b as nat + 256 * p)) == Xor(Absorb(w, b), p)
  {
    Pow2Of32();
    XorDisjoint(8, b as nat, p);
    XorAssociates(w, b as nat, 256 * p);
    StepsLinear(8, Xor(w, b as nat), 256 * p);
    StepsShift(8, p);
  }

  /** Feeding bytes one at a time equals mixing them all in first, then stepping. */
  lemma {:induction false} RegisterIsBlock(w: nat, bytes: seq<Byte>)
    ensures Register(w, bytes) == Steps(8 * |bytes|, Xor(w, Pack(bytes)))
    decreases |bytes|
  {
    if bytes == [] {
      XorZero(w);
    } else {
      var rest := bytes[1..];
      var mixed := Xor(w, Pack(bytes));
      assert Steps(8, mixed) == Xor(Absorb(w, bytes[0]), Pack(rest)) by {
        AbsorbAhead(w, bytes[0], Pack(rest));
      }
      RegisterIsBlock(Absorb(w, bytes[0]), rest);
      StepsCompose(8, 8 * |rest|, mixed);
      assert 8 * |bytes| == 8 + 8 * |rest|;
    }
  }

  lemma {:induction false} Pow2Monotone(m: nat, n: nat)
    requires m <= n
    ensures Pow2(m) <= Pow2(n)
    decreases n
  {
    if m < n {
      Pow2Monotone(m, n - 1);
    }
  }

  /** A block of at most four bytes is determined by the register after it. */
  lemma BlockInjective(w: nat, x: seq<Byte>, y: seq<Byte>)
    requires w < TWO_TO_THE_32
    requires |x| == |y| <= 4
    requires Register(w, x) == Register(w, y)
    ensures x == y
  {
    Pow2Of32();
    PackRange(x);
    PackRange(y);
    Pow2Monotone(8 * |x|, 32);
    XorRange(32, w, Pack(x));
    XorRange(32, w, Pack(y));
    RegisterIsBlock(w, x);
    RegisterIsBlock(w, y);
    StepsInjective(8 * |x|, Xor(w, Pack(x)), Xor(w, Pack(y)));
    XorCommutes(w, Pack(x));
    XorCommutes(w, Pack(y));
    XorInjective(Pack(x), Pack(y), w);
    PackInjective(x, y);
  }

  lemma RegisterBurst(prefix: seq<Byte>, x: seq<Byte>, y: seq<Byte>, suffix: seq<Byte>)
    requires |x| == |y| <= 4
    requires Register(ALL_ONES, prefix + x + suffix) == Register(ALL_ONES, prefix + y + suffix)
    ensures x == y
  {
    var w := Register(ALL_ONES, prefix);
    RegisterRange(ALL_ONES, prefix);
    RegisterRange(w, x);
    RegisterRange(w, y);
    RegisterAppend(ALL_ONES, prefix + x, suffix);
    RegisterAppend(ALL_ONES, prefix + y, suffix);
    RegisterAppend(ALL_ONES, prefix, x);
    RegisterAppend(ALL_ONES, prefix, y);
    RegisterInjective(Register(w, x), Register(w, y), suffix);
    BlockInjective(w, x, y);
  }

  /** Buffers that differ only inside one window of at most four bytes differ in checksum. */
  lemma BurstDetected(prefix: seq<Byte>, x: seq<Byte>, y: seq<Byte>, suffix: seq<Byte>)
    requires |x| == |y| <= 4 && x != y
    ensures Crc32(prefix + x + suffix) != Crc32(prefix + y + suffix)
  {
    var a, b := prefix + x + suffix, prefix + y + suffix;
    if Crc32(a) == Crc32(b) {
      Crc32Word(a);
      Crc32Word(b);
      XorInjective(Register(ALL_ONES, a), Register(ALL_ONES, b), ALL_ONES);
      RegisterBurst(prefix, x, y, suffix);
    }
  }
}
