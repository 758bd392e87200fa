/** `lib/crc16/src/crc16.cpp`: the 16-bit CRC, byte by byte and bit by bit. */
module Crc16 {
  const DEFAULT_INIT: bv16 := 0
  const DEFAULT_POLYNOMIAL: bv16 := 0x1021

  // The operators of the source, named so that the algebra below can be stated about them.
  function Xor16(a: bv16, b: bv16): bv16 { a ^ b }
  function Shl(a: bv16): bv16 { a << 1 }
  predicate Top(a: bv16) { a & 0x8000 != 0 }
  function High(v: bv8): bv16 { (v as bv16) << 8 }

  /** One round of the inner loop of `next(uint8_t)`. */
  function Round(c: bv16, poly: bv16): bv16 {
    if Top(c) then Xor16(Shl(c), poly) else Shl(c)
  }

  function Rounds(c: bv16, poly: bv16, n: nat): bv16
    decreases n
  {
    if n == 0 then c else Rounds(Round(c, poly), poly, n - 1)
  }

  function NextByte(c: bv16, value: bv8, poly: bv16): bv16 {
    Rounds(Xor16(c, High(value)), poly, 8)
  }

  function Crc(c: bv16, data: seq<bv8>, poly: bv16): bv16
    decreases |data|
  {
    if data == [] then c else Crc(NextByte(c, data[0], poly), data[1..], poly)
  }

  // ---------------------------------------------------------------- the object

  class Checksum {
    var crc: bv16
    const initValue: bv16
    const polynomial: bv16

    constructor (initValue: bv16, polynomial: bv16)
      ensures crc == this.initValue == initValue && this.polynomial == polynomial
    {
      crc := initValue;
      this.initValue, this.polynomial := initValue, polynomial;
    }

    method Next(value: bv8)
      modifies this
      ensures crc == NextByte(old(crc), value, polynomial)
    {
      hide Xor16, High, Shl, Top;
      crc := Xor16(crc, High(value));
      ghost var target := Rounds(crc, polynomial, 8);
      for i := 0 to 8
        invariant Rounds(crc, polynomial, 8 - i) == target
      {
        if Top(crc) {
          crc := Xor16(Shl(crc), polynomial);
        } else {
          crc := Shl(crc);
        }
      }
    }

    method NextAll(values: seq<bv8>)
      modifies this
      ensures crc == Crc(old(crc), values, polynomial)
    {
      hide NextByte;
      ghost var target := Crc(crc, values, polynomial);
      for i := 0 to |values|
        invariant Crc(crc, values[i..], polynomial) == target
      {
        assert values[i..][1..] == values[i + 1..];
        Next(values[i]);
      }
    }

    method Reset()
      modifies this
      ensures crc == initValue
    {
      crc := initValue;
    }
  }

  /** `calculate`; an absent or empty array gives the initial value, like the fold does. */
  method Calculate(data: seq<bv8>, initValue: bv16, polynomial: bv16) returns (r: bv16)
    ensures r == Crc(initValue, data, polynomial)
  {
    if |data| == 0 { return initValue; }
    var crc := new Checksum(initValue, polynomial);
    crc.NextAll(data);
    r := crc.crc;
  }

  method Verify(data: seq<bv8>, expected: bv16, initValue: bv16, polynomial: bv16) returns (ok: bool)
    ensures ok <==> Crc(initValue, data, polynomial) == expected
  {
    if |data| == 0 { return expected == initValue; }
    var r := Calculate(data, initValue, polynomial);
    ok := r == expected;
  }

  // ---------------------------------------------------------------- chunks

  lemma {:induction false} CrcAppend(c: bv16, a: seq<bv8>, b: seq<bv8>, poly: bv16)
    ensures Crc(c, a + b, poly) == Crc(Crc(c, a, poly), b, poly)
    decreases |a|
  {
    hide NextByte;
    if a == [] {
      assert a + b == b;
    } else {
      CrcAppend(NextByte(c, a[0], poly), a[1..], b, poly);
      assert (a + b)[1..] == a[1..] + b;
    }
  }

  function Flatten(chunks: seq<seq<bv8>>): seq<bv8> {
    if chunks == [] then [] else chunks[0] + Flatten(chunks[1..])
  }

  function CrcOfChunks(c: bv16, chunks: seq<seq<bv8>>, poly: bv16): bv16
    decreases |chunks|
  {
    if chunks == [] then c else CrcOfChunks(Crc(c, chunks[0], poly), chunks[1..], poly)
  }

  /** The checksum is the same for every way of cutting the data into chunks. */
  lemma {:induction false} ChunksDoNotMatter(c: bv16, chunks: seq<seq<bv8>>, poly: bv16)
    ensures CrcOfChunks(c, chunks, poly) == Crc(c, Flatten(chunks), poly)
    decreases |chunks|
  {
    if chunks != [] {
      ChunksDoNotMatter(Crc(c, chunks[0], poly), chunks[1..], poly);
      CrcAppend(c, chunks[0], Flatten(chunks[1..]), poly);
    }
  }

  // ---------------------------------------------------------------- linearity

  lemma XorAssoc(a: bv16, b: bv16, c: bv16) ensures Xor16(Xor16(a, b), c) == Xor16(a, Xor16(b, c)) {}
  lemma XorComm(a: bv16, b: bv16) ensures Xor16(a, b) == Xor16(b, a) {}
  lemma XorZero(a: bv16) ensures Xor16(a, a) == 0 && Xor16(a, 0) == a && Xor16(0, a) == a {}
  lemma ShlXor(a: bv16, b: bv16) ensures Shl(Xor16(a, b)) == Xor16(Shl(a), Shl(b)) {}
  lemma TopXor(a: bv16, b: bv16) ensures Top(Xor16(a, b)) <==> (Top(a) != Top(b)) {}

  /** Rearranging: equal terms cancel, and pairs can be regrouped. */
  lemma XorCancel(a: bv16, b: bv16, p: bv16)
    ensures Xor16(Xor16(a, p), Xor16(b, p)) == Xor16(a, b) && Xor16(Xor16(a, b), p) == Xor16(Xor16(a, p), b)
  {
    hide Xor16;
    XorAssoc(a, p, Xor16(b, p));
    XorComm(b, p);
    XorAssoc(p, p, b);
    XorZero(p);
    XorZero(b);
    XorAssoc(a, b, p);
    XorAssoc(a, p, b);
  }

  lemma XorSwap(a: bv16, b: bv16, x: bv16, y: bv16)
    ensures Xor16(Xor16(a, b), Xor16(x, y)) == Xor16(Xor16(a, x), Xor16(b, y))
  {
    hide Xor16;
    XorAssoc(a, b, Xor16(x, y));
    XorAssoc(b, x, y);
    XorComm(b, x);
    XorAssoc(x, b, y);
    XorAssoc(a, x, Xor16(b, y));
  }

  lemma XorSame(a: bv16, b: bv16, x: bv16)
    requires Xor16(a, x) == Xor16(b, x)
    ensures a == b
  {
    hide Xor16;
    XorAssoc(a, x, x);
    XorAssoc(b, x, x);
    XorZero(x);
    XorZero(a);
    XorZero(b);
  }

  lemma RoundLinear(a: bv16, b: bv16, poly: bv16)
    ensures Round(Xor16(a, b), poly) == Xor16(Round(a, poly), Round(b, poly))
  {
    hide Xor16, Shl, Top;
    ShlXor(a, b);
    TopXor(a, b);
    XorCancel(Shl(a), Shl(b), poly);
    XorAssoc(Shl(a), Shl(b), poly);
  }

  lemma {:induction false} RoundsLinear(a: bv16, b: bv16, poly: bv16, n: nat)
    ensures Rounds(Xor16(a, b), poly, n) == Xor16(Rounds(a, poly, n), Rounds(b, poly, n))
    decreases n
  {
    hide Round, Xor16;
    if n > 0 {
      RoundLinear(a, b, poly);
      RoundsLinear(Round(a, poly), Round(b, poly), poly, n - 1);
    }
  }

  function XorBytes(x: seq<bv8>, y: seq<bv8>): (z: seq<bv8>)
    requires |x| == |y|
    ensures |z| == |x|
  {
    if x == [] then [] else [x[0] ^ y[0]] + XorBytes(x[1..], y[1..])
  }

  lemma HighXor(x: bv8, y: bv8) ensures High(x ^ y) == Xor16(High(x), High(y)) {}

  lemma NextByteLinear(a: bv16, b: bv16, x: bv8, y: bv8, poly: bv16)
    ensures NextByte(Xor16(a, b), x ^ y, poly) == Xor16(NextByte(a, x, poly), NextByte(b, y, poly))
  {
    hide Rounds, Xor16, High;
    HighXor(x, y);
    XorSwap(a, b, High(x), High(y));
    RoundsLinear(Xor16(a, High(x)), Xor16(b, High(y)), poly, 8);
  }

  lemma {:induction false} CrcAffine(a: bv16, b: bv16, x: seq<bv8>, y: seq<bv8>, poly: bv16)
    requires |x| == |y|
    ensures Crc(Xor16(a, b), XorBytes(x, y), poly) == Xor16(Crc(a, x, poly), Crc(b, y, poly))
    decreases |x|
  {
    hide NextByte, Xor16;
    if x != [] {
      NextByteLinear(a, b, x[0], y[0], poly);
      CrcAffine(NextByte(a, x[0], poly), NextByte(b, y[0], poly), x[1..], y[1..], poly);
      assert XorBytes(x, y)[0] == x[0] ^ y[0] && XorBytes(x, y)[1..] == XorBytes(x[1..], y[1..]);
    }
  }

  /** From a zero start the checksum of a difference is the difference of the checksums. */
  lemma CrcLinear(x: seq<bv8>, y: seq<bv8>, poly: bv16)
    requires |x| == |y|
    ensures Crc(0, XorBytes(x, y), poly) == Xor16(Crc(0, x, poly), Crc(0, y, poly))
  {
    hide Xor16, Crc;
    XorZero(0);
    CrcAffine(0, 0, x, y, poly);
  }

  // ---------------------------------------------------------------- bits

  const TOP_BIT: bv16 := 0x8000

  function FeedBit(c: bv16, b: bool, poly: bv16): bv16 {
    Round(if b then Xor16(c, TOP_BIT) else c, poly)
  }

  function FeedBits(c: bv16, bits: seq<bool>, poly: bv16): bv16
    decreases |bits|
  {
    if bits == [] then c else FeedBits(FeedBit(c, bits[0], poly), bits[1..], poly)
  }

  /** The top `n` bits of a word, most significant first. */
  function TopBits(w: bv16, n: nat): (r: seq<bool>)
    ensures |r| == n
    decreases n
  {
    if n == 0 then [] else [Top(w)] + TopBits(Shl(w), n - 1)
  }

  /** A byte's bits in the order the checksum takes them. */
  function Bits(v: bv8): (r: seq<bool>)
    ensures |r| == 8
  {
    TopBits(High(v), 8)
  }

  function BitsOf(data: seq<bv8>): (r: seq<bool>)
    ensures |r| == 8 * |data|
  {
    if data == [] then [] else Bits(data[0]) + BitsOf(data[1..])
  }

  lemma {:induction false} FeedAppend(c: bv16, a: seq<bool>, b: seq<bool>, poly: bv16)
    ensures FeedBits(c, a + b, poly) == FeedBits(FeedBits(c, a, poly), b, poly)
    decreases |a|
  {
    hide FeedBit;
    if a == [] {
      assert a + b == b;
    } else {
      FeedAppend(FeedBit(c, a[0], poly), a[1..], b, poly);
      assert (a + b)[1..] == a[1..] + b;
    }
  }

  function ShiftLeft(w: bv16, n: nat): bv16
    decreases n
  {
    if n == 0 then w else ShiftLeft(Shl(w), n - 1)
  }

  lemma DropTop(w: bv16)
    ensures Top(TOP_BIT) && Shl(Xor16(w, TOP_BIT)) == Shl(w)
  {
  }

  lemma FeedBitRound(c: bv16, w: bv16, poly: bv16)
    ensures Round(Xor16(c, w), poly) == Xor16(FeedBit(c, Top(w), poly), Shl(w))
  {
    hide Xor16, Shl, Top;
    RoundLinear(c, w, poly);
    if Top(w) {
      var t := Xor16(w, TOP_BIT);
      DropTop(w);
      TopXor(w, TOP_BIT);
      RoundLinear(Xor16(c, TOP_BIT), t, poly);
      XorCancel(c, w, TOP_BIT);
    }
  }

  /** Feeding bits one by one is mixing them all in first and then running the rounds. */
  lemma {:induction false} FeedTopBits(c: bv16, w: bv16, n: nat, poly: bv16)
    ensures Xor16(FeedBits(c, TopBits(w, n), poly), ShiftLeft(w, n)) == Rounds(Xor16(c, w), poly, n)
    decreases n
  {
    hide Round, FeedBit, Xor16, Shl, Top;
    if n > 0 {
      FeedBitRound(c, w, poly);
      FeedTopBits(FeedBit(c, Top(w), poly), Shl(w), n - 1, poly);
      assert TopBits(w, n)[1..] == TopBits(Shl(w), n - 1);
    }
  }

  lemma HighIsAllShiftedOut(v: bv8)
    ensures ShiftLeft(High(v), 8) == 0
  {
    var w := High(v);
    assert Shl(Shl(Shl(Shl(Shl(Shl(Shl(Shl(w)))))))) == 0;
    hide Shl, High;
    ShiftEight(w);
  }

  lemma ShiftEight(w: bv16)
    ensures ShiftLeft(w, 8) == Shl(Shl(Shl(Shl(Shl(Shl(Shl(Shl(w))))))))
  {
    hide Shl;
    var w2 := Shl(Shl(w));
    var w4 := Shl(Shl(w2));
    var w6 := Shl(Shl(w4));
    assert ShiftLeft(w, 8) == ShiftLeft(w2, 6);
    assert ShiftLeft(w2, 6) == ShiftLeft(w4, 4);
    assert ShiftLeft(w4, 4) == ShiftLeft(w6, 2);
    assert ShiftLeft(w6, 2) == Shl(Shl(w6));
  }

  /** The byte step of the source takes the byte's bits one at a time. */
  lemma NextByteFeedsBits(c: bv16, v: bv8, poly: bv16)
    ensures NextByte(c, v, poly) == FeedBits(c, Bits(v), poly)
  {
    hide Rounds, FeedBits, TopBits, Xor16, High, ShiftLeft;
    FeedTopBits(c, High(v), 8, poly);
    HighIsAllShiftedOut(v);
    XorZero(FeedBits(c, Bits(v), poly));
  }

  lemma {:induction false} CrcFeedsBits(c: bv16, data: seq<bv8>, poly: bv16)
    ensures Crc(c, data, poly) == FeedBits(c, BitsOf(data), poly)
    decreases |data|
  {
    hide NextByte, Bits, FeedBit;
    if data != [] {
      NextByteFeedsBits(c, data[0], poly);
      CrcFeedsBits(NextByte(c, data[0], poly), data[1..], poly);
      FeedAppend(c, Bits(data[0]), BitsOf(data[1..]), poly);
    }
  }
}
