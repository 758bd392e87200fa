/** What the checksum detects: with a polynomial whose lowest bit is set, such as 0x1021, any change
    confined to 16 consecutive bits. */
module Crc16Bursts {
  import opened Common
  import opened Crc16

  // ---------------------------------------------------------------- nothing is forgotten

  /** With an odd polynomial the lowest bit after a round is the highest before it. */
  predicate Low(a: bv16) { a & 1 != 0 }

  lemma LowShl(a: bv16) ensures !Low(Shl(a)) {}
  lemma LowXor(a: bv16, b: bv16) ensures Low(Xor16(a, b)) <==> (Low(a) != Low(b)) {}
  lemma ShlTop(a: bv16, b: bv16)
    requires Shl(a) == Shl(b) && (Top(a) <==> Top(b))
    ensures a == b
  {}

  lemma RoundInjective(a: bv16, b: bv16, poly: bv16)
    requires Low(poly) && Round(a, poly) == Round(b, poly)
    ensures a == b
  {
    hide Xor16, Shl, Top, Low;
    LowShl(a);
    LowShl(b);
    LowXor(Shl(a), poly);
    LowXor(Shl(b), poly);
    if Top(a) && Top(b) { XorSame(Shl(a), Shl(b), poly); }
    ShlTop(a, b);
  }

  lemma {:induction false} RoundsInjective(a: bv16, b: bv16, poly: bv16, n: nat)
    requires Low(poly) && Rounds(a, poly, n) == Rounds(b, poly, n)
    ensures a == b
    decreases n
  {
    hide Round, Low;
    if n > 0 {
      RoundsInjective(Round(a, poly), Round(b, poly), poly, n - 1);
      RoundInjective(a, b, poly);
    }
  }

  lemma {:induction false} FeedInjective(a: bv16, b: bv16, bits: seq<bool>, poly: bv16)
    requires Low(poly) && FeedBits(a, bits, poly) == FeedBits(b, bits, poly)
    ensures a == b
    decreases |bits|
  {
    hide Round, Low, Xor16;
    if bits != [] {
      FeedInjective(FeedBit(a, bits[0], poly), FeedBit(b, bits[0], poly), bits[1..], poly);
      if bits[0] {
        RoundInjective(Xor16(a, TOP_BIT), Xor16(b, TOP_BIT), poly);
        XorSame(a, b, TOP_BIT);
      } else {
        RoundInjective(a, b, poly);
      }
    }
  }

  // ---------------------------------------------------------------- sixteen bits

  /** Differences that stay below the top bit for `n` shifts. */
  predicate TopFree(d: bv16, n: nat)
    decreases n
  {
    n == 0 || (!Top(d) && TopFree(Shl(d), n - 1))
  }

  lemma LowestBitIsTopFree(n: nat)
    requires n <= 15
    ensures TopFree(1, n)
  {
    assert TopFree(0x4000, 1);
    assert TopFree(0x2000, 2);
    assert TopFree(0x1000, 3);
    assert TopFree(0x800, 4);
    assert TopFree(0x400, 5);
    assert TopFree(0x200, 6);
    assert TopFree(0x100, 7);
    assert TopFree(0x80, 8);
    assert TopFree(0x40, 9);
    assert TopFree(0x20, 10);
    assert TopFree(0x10, 11);
    assert TopFree(8, 12);
    assert TopFree(4, 13);
    assert TopFree(2, 14);
    assert TopFree(1, 15);
    TopFreeLess(1, 15, n);
  }

  lemma {:induction false} TopFreeLess(d: bv16, n: nat, m: nat)
    requires m <= n && TopFree(d, n)
    ensures TopFree(d, m)
    decreases n
  {
    hide Shl, Top;
    if m > 0 { TopFreeLess(Shl(d), n - 1, m - 1); }
  }

  lemma {:induction false} TopBitsIgnore(w: bv16, d: bv16, n: nat)
    requires TopFree(d, n)
    ensures TopBits(Xor16(w, d), n) == TopBits(w, n)
    decreases n
  {
    hide Shl, Top, Xor16;
    if n > 0 {
      TopXor(w, d);
      ShlXor(w, d);
      TopBitsIgnore(Shl(w), Shl(d), n - 1);
    }
  }

  function Shr(w: bv16): bv16 { w >> 1 }

  lemma ShlOfShr(w: bv16)
    ensures !Top(Shr(w))
    ensures Shl(Shr(w)) == w || Shl(Shr(w)) == Xor16(w, 1)
  {}

  /** Every string of up to 16 bits is the top of some word. */
  lemma {:induction false} WordOf(b: seq<bool>) returns (w: bv16)
    requires |b| <= 16
    ensures TopBits(w, |b|) == b
    decreases |b|
  {
    hide Shl, Top;
    if b == [] {
      w := 0;
    } else {
      var t := WordOf(b[1..]);
      w := PushBit(t, |b| - 1, b[0]);
      assert b == [b[0]] + b[1..];
    }
  }

  /** The word one bit down, with a new top bit. */
  lemma PushBit(t: bv16, n: nat, bit: bool) returns (w: bv16)
    requires n <= 15
    ensures Top(w) == bit && TopBits(Shl(w), n) == TopBits(t, n)
  {
    hide Shl, Top, Xor16, Shr, TopBits, TopFree;
    ShlOfShr(t);
    LowestBitIsTopFree(n);
    TopBitsIgnore(t, 1, n);
    w := if bit then Xor16(Shr(t), TOP_BIT) else Shr(t);
    DropTop(Shr(t));
    TopXor(Shr(t), TOP_BIT);
  }

  lemma AllShiftedOut(w: bv16)
    ensures ShiftLeft(w, 16) == 0
  {
    hide Shl;
    var t := Shl(Shl(Shl(Shl(Shl(Shl(Shl(Shl(w))))))));
    ShiftSplit(w, 8, 8);
    ShiftEight(w);
    ShiftEight(t);
    SixteenShifts(w);
  }

  lemma {:induction false} ShiftSplit(w: bv16, n: nat, m: nat)
    ensures ShiftLeft(w, n + m) == ShiftLeft(ShiftLeft(w, n), m)
    decreases n
  {
    hide Shl;
    if n > 0 { ShiftSplit(Shl(w), n - 1, m); }
  }

  lemma SixteenShifts(w: bv16)
    ensures Shl(Shl(Shl(Shl(Shl(Shl(Shl(Shl(Shl(Shl(Shl(Shl(Shl(Shl(Shl(Shl(w)))))))))))))))) == 0
  {
  }

  /** Feeding 16 bits is one-to-one in those bits. */
  lemma SixteenBitsInjective(c: bv16, x: seq<bool>, y: seq<bool>, poly: bv16)
    requires Low(poly) && |x| == |y| == 16 && FeedBits(c, x, poly) == FeedBits(c, y, poly)
    ensures x == y
  {
    hide FeedBits, Low, Rounds, TopBits, ShiftLeft, Xor16;
    var w := WordOf(x);
    var u := WordOf(y);
    FeedTopBits(c, w, 16, poly);
    FeedTopBits(c, u, 16, poly);
    AllShiftedOut(w);
    AllShiftedOut(u);
    RoundsInjective(Xor16(c, w), Xor16(c, u), poly, 16);
    XorComm(c, w);
    XorComm(c, u);
    XorSame(w, u, c);
  }

  function Zeros(n: nat): (r: seq<bool>)
    ensures |r| == n
  {
    seq(n, _ => false)
  }

  /** The same for fewer bits: append zeros to both. */
  lemma FewBitsInjective(c: bv16, x: seq<bool>, y: seq<bool>, poly: bv16)
    requires Low(poly) && |x| == |y| <= 16 && FeedBits(c, x, poly) == FeedBits(c, y, poly)
    ensures x == y
  {
    hide FeedBits, Low, Zeros;
    var z := Zeros(16 - |x|);
    FeedAppend(c, x, z, poly);
    FeedAppend(c, y, z, poly);
    SixteenBitsInjective(c, x + z, y + z, poly);
    assert x == (x + z)[..|x|] && y == (y + z)[..|y|];
  }

  /** A change between positions `i` and `i + 16` of a bit string. */
  ghost predicate Burst(x: seq<bool>, y: seq<bool>, i: int) {
    |x| == |y| && x != y && forall j :: 0 <= j < |x| && !(i <= j < i + 16) ==> x[j] == y[j]
  }

  lemma MiddleAltersFeed(c: bv16, pre: seq<bool>, xs: seq<bool>, ys: seq<bool>, post: seq<bool>, poly: bv16)
    requires Low(poly) && |xs| == |ys| <= 16
             && FeedBits(c, pre + (xs + post), poly) == FeedBits(c, pre + (ys + post), poly)
    ensures xs == ys
  {
    hide FeedBits, Low;
    FeedAppend(c, pre, xs + post, poly);
    FeedAppend(c, pre, ys + post, poly);
    var s := FeedBits(c, pre, poly);
    FeedAppend(s, xs, post, poly);
    FeedAppend(s, ys, post, poly);
    FeedInjective(FeedBits(s, xs, poly), FeedBits(s, ys, poly), post, poly);
    FewBitsInjective(s, xs, ys, poly);
  }

  lemma BurstAltersFeed(c: bv16, x: seq<bool>, y: seq<bool>, i: int, poly: bv16)
    requires Low(poly) && Burst(x, y, i)
    ensures FeedBits(c, x, poly) != FeedBits(c, y, poly)
  {
    hide FeedBits, Low;
    var from := if i < 0 then 0 else if i > |x| then |x| else i;
    var end := if from + 16 > |x| then |x| else from + 16;
    var (xs, ys) := (x[from..end], y[from..end]);
    var (pre, post) := (x[..from], x[end..]);
    assert y[..from] == pre && y[end..] == post;
    assert x == pre + (xs + post) && y == pre + (ys + post);
    assert xs != ys;
    if FeedBits(c, x, poly) == FeedBits(c, y, poly) {
      MiddleAltersFeed(c, pre, xs, ys, post, poly);
      assert false;
    }
  }

  // ---------------------------------------------------------------- bytes

  /** Any change of the data confined to 16 consecutive bits alters the checksum, from every
      initial value and for every odd polynomial. */
  lemma BurstAltersCrc(c: bv16, x: seq<bv8>, y: seq<bv8>, i: int, poly: bv16)
    requires Low(poly) && |x| == |y| && Burst(BitsOf(x), BitsOf(y), i)
    ensures Crc(c, x, poly) != Crc(c, y, poly)
  {
    hide Crc, FeedBits, BitsOf, Burst, Low;
    CrcFeedsBits(c, x, poly);
    CrcFeedsBits(c, y, poly);
    BurstAltersFeed(c, BitsOf(x), BitsOf(y), i, poly);
  }

  lemma {:induction false} BitsOfAppend(a: seq<bv8>, b: seq<bv8>)
    ensures BitsOf(a + b) == BitsOf(a) + BitsOf(b)
  {
    hide Bits;
    if a == [] {
      assert a + b == b;
    } else {
      BitsOfAppend(a[1..], b);
      assert (a + b)[1..] == a[1..] + b && (a + b)[0] == a[0];
      Associative(Bits(a[0]), BitsOf(a[1..]), BitsOf(b));
    }
  }

  lemma {:induction false} BitsOfInjective(a: seq<bv8>, b: seq<bv8>)
    requires |a| == |b| && BitsOf(a) == BitsOf(b)
    ensures a == b
  {
    hide Bits;
    if a != [] {
      var (x, y) := (BitsOf(a), BitsOf(b));
      assert x[..8] == Bits(a[0]) && y[..8] == Bits(b[0]) && x[8..] == BitsOf(a[1..]) && y[8..] == BitsOf(b[1..]);
      BitsInjective(a[0], b[0]);
      BitsOfInjective(a[1..], b[1..]);
    }
  }

  /** A byte's bits determine it, because they determine what it does to a checksum. */
  lemma BitsInjective(v: bv8, u: bv8)
    requires Bits(v) == Bits(u)
    ensures v == u
  {
    hide Bits, Rounds, Xor16, High, FeedBits, Low;
    DefaultPolynomialIsOdd();
    NextByteFeedsBits(0, v, DEFAULT_POLYNOMIAL);
    NextByteFeedsBits(0, u, DEFAULT_POLYNOMIAL);
    RoundsInjective(Xor16(0, High(v)), Xor16(0, High(u)), DEFAULT_POLYNOMIAL, 8);
    XorZero(High(v));
    XorZero(High(u));
    HighInjective(v, u);
  }

  lemma HighInjective(v: bv8, u: bv8)
    requires High(v) == High(u)
    ensures v == u
  {
  }

  /** In particular, two data strings that differ only in two adjacent bytes have different
      checksums. */
  lemma TwoBytesAlterCrc(c: bv16, pre: seq<bv8>, x: seq<bv8>, y: seq<bv8>, post: seq<bv8>, poly: bv16)
    requires Low(poly) && |x| == |y| <= 2 && x != y
    ensures Crc(c, pre + x + post, poly) != Crc(c, pre + y + post, poly)
  {
    hide Crc, BitsOf, Low;
    var (a, b) := (pre + x + post, pre + y + post);
    BitsOfAppend(pre + x, post);
    BitsOfAppend(pre + y, post);
    BitsOfAppend(pre, x);
    BitsOfAppend(pre, y);
    if BitsOf(x) == BitsOf(y) { BitsOfInjective(x, y); }
    var (p, q) := (BitsOf(pre), BitsOf(post));
    DifferInside(p, BitsOf(x), BitsOf(y), q);
    BurstAltersCrc(c, a, b, |p|, poly);
  }

  lemma DifferInside(p: seq<bool>, x: seq<bool>, y: seq<bool>, q: seq<bool>)
    requires |x| == |y| <= 16 && x != y
    ensures Burst(p + x + q, p + y + q, |p|)
  {
    var (a, b) := (p + x + q, p + y + q);
    assert a[|p|..|p| + |x|] == x && b[|p|..|p| + |y|] == y;
  }

  lemma DefaultPolynomialIsOdd() ensures Low(DEFAULT_POLYNOMIAL) {}

  // ---------------------------------------------------------------- every checksum is reached

  /** The round that led to `y`. */
  function UnRound(y: bv16, poly: bv16): bv16 {
    if Low(y) then Xor16(Shr(Xor16(y, poly)), TOP_BIT) else Shr(y)
  }

  lemma ShrShl(y: bv16)
    requires !Low(y)
    ensures Shl(Shr(y)) == y && !Top(Shr(y))
  {}

  lemma UnRoundInverts(y: bv16, poly: bv16)
    requires Low(poly)
    ensures Round(UnRound(y, poly), poly) == y
  {
    hide Xor16, Shl, Shr, Top, Low;
    if Low(y) {
      var z := Xor16(y, poly);
      LowXor(y, poly);
      ShrShl(z);
      DropTop(Shr(z));
      TopXor(Shr(z), TOP_BIT);
      XorAssoc(y, poly, poly);
      XorZero(poly);
      XorZero(y);
    } else {
      ShrShl(y);
    }
  }

  /** The word that leads to `y` in `n` rounds. */
  lemma {:induction false} WordBefore(y: bv16, poly: bv16, n: nat) returns (w: bv16)
    requires Low(poly)
    ensures Rounds(w, poly, n) == y
    decreases n
  {
    hide Round, UnRound, Low;
    w := y;
    if n > 0 {
      var v := WordBefore(y, poly, n - 1);
      w := UnRound(v, poly);
      UnRoundInverts(v, poly);
    }
  }

  function LowWord(b: bv8): bv16 { b as bv16 }

  lemma WordSplits(w: bv16) returns (a: bv8, b: bv8)
    ensures w == Xor16(High(a), LowWord(b))
  {
    a, b := ((w >> 8) & 0xFF) as bv8, (w & 0xFF) as bv8;
  }

  lemma EightTopFree(b: bv8) ensures TopFreeNow(b) {}
  predicate TopFreeNow(b: bv8) {
    var w := LowWord(b);
    && !Top(w) && !Top(Shl(w)) && !Top(Shl(Shl(w))) && !Top(Shl(Shl(Shl(w)))) && !Top(Shl(Shl(Shl(Shl(w)))))
    && !Top(Shl(Shl(Shl(Shl(Shl(w)))))) && !Top(Shl(Shl(Shl(Shl(Shl(Shl(w)))))))
    && !Top(Shl(Shl(Shl(Shl(Shl(Shl(Shl(w))))))))
    && Shl(Shl(Shl(Shl(Shl(Shl(Shl(Shl(w)))))))) == High(b)
  }

  /** Eight rounds of a low byte only move it up. */
  lemma LowByteMovesUp(b: bv8, poly: bv16)
    ensures Rounds(LowWord(b), poly, 8) == High(b)
  {
    EightTopFree(b);
    hide Shl, Top, High, LowWord;
    var w := LowWord(b);
    var w2 := Shl(Shl(w));
    var w4 := Shl(Shl(w2));
    var w6 := Shl(Shl(w4));
    assert Rounds(w, poly, 8) == Rounds(w2, poly, 6);
    assert Rounds(w2, poly, 6) == Rounds(w4, poly, 4);
    assert Rounds(w4, poly, 4) == Rounds(w6, poly, 2);
    assert Rounds(w6, poly, 2) == Shl(Shl(w6));
  }

  lemma {:induction false} RoundsSplit(w: bv16, poly: bv16, n: nat, m: nat)
    ensures Rounds(w, poly, n + m) == Rounds(Rounds(w, poly, n), poly, m)
    decreases n
  {
    hide Round;
    if n > 0 { RoundsSplit(Round(w, poly), poly, n - 1, m); }
  }

  /** Every checksum is that of some two bytes. */
  lemma TwoBytesReach(c: bv16, poly: bv16) returns (a: bv8, b: bv8)
    requires Low(poly)
    ensures Crc(0, [a, b], poly) == c
  {
    hide Round, Rounds, Xor16, High, LowWord, Low;
    var w := WordBefore(c, poly, 16);
    a, b := WordSplits(w);
    RoundsSplit(w, poly, 8, 8);
    RoundsLinear(High(a), LowWord(b), poly, 8);
    LowByteMovesUp(b, poly);
    XorZero(High(a));
    assert [a, b][1..] == [b] && [b][1..] == [];
    assert Crc(0, [a, b], poly) == Crc(NextByte(0, a, poly), [b], poly);
    assert Crc(NextByte(0, a, poly), [b], poly) == Crc(NextByte(NextByte(0, a, poly), b, poly), [], poly);
  }
}
