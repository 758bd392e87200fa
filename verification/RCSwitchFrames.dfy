/** What two repeats of a code word do to a receiver that has just been switched on, every duration measured
    up to 186 microseconds off. */
module RCSwitchFrames {
  import opened Common
  import opened RCSwitch

  const SHORT: nat := 350
  const LONG: nat := 1050
  const SYNC: nat := 10850
  const JITTER: nat := 186

  predicate Close(measured: nat, exact: nat) { exact <= measured + JITTER && measured <= exact + JITTER }

  /** The durations of a code word, as measured. */
  ghost predicate Measures(d: seq<nat>, code: nat, n: nat) {
    |d| == 2 * n && forall i :: 0 <= i < 2 * n ==> Close(d[i], Pulses(code, n, n)[i])
  }

  /** What the receiver measures of an idle line and then a wave. */
  ghost predicate Heard(measured: seq<nat>, edges: seq<nat>) {
    && |measured| == |edges| > 0 && measured[0] == edges[0]
    && forall i :: 1 <= i < |edges| ==> Close(measured[i], edges[i])
  }

  /** Durations of the first `done` bits of an n-bit code word, most significant first. */
  ghost function Pulses(code: nat, n: nat, done: nat): (d: seq<nat>)
    requires done <= n
    ensures |d| == 2 * done
  {
    if done == 0 then []
    else Pulses(code, n, done - 1) + (if BitSet(code, n - done) then [LONG, SHORT] else [SHORT, LONG])
  }

  /** A bit is one short and one long duration. */
  lemma {:induction false} PulsesAlternate(code: nat, n: nat, done: nat, j: nat)
    requires j < done <= n
    ensures var d := Pulses(code, n, done);
            if BitSet(code, n - 1 - j) then d[2 * j] == LONG && d[2 * j + 1] == SHORT
            else d[2 * j] == SHORT && d[2 * j + 1] == LONG
  {
    hide BitSet;
    if j < done - 1 { PulsesAlternate(code, n, done - 1, j); }
  }

  lemma PulsesDiffer(code: nat, n: nat, i: nat)
    requires i < 2 * n
    ensures var d := Pulses(code, n, n);
            && d[i] in {SHORT, LONG}
            && (i % 2 == 0 ==> Diff(d[i], d[i + 1]) >= 50 && Diff(d[i + 1], d[i]) >= 50)
  {
    PulsesAlternate(code, n, n, i / 2);
    assert i == 2 * (i / 2) || i == 2 * (i / 2) + 1;
  }

  lemma MeasuredDiffer(d: seq<nat>, code: nat, n: nat, i: nat)
    requires Measures(d, code, n) && i < 2 * n
    ensures 164 <= d[i] <= 1236 && (i % 2 == 0 ==> Diff(d[i], d[i + 1]) >= 50 && Diff(d[i + 1], d[i]) >= 50)
  {
    hide Pulses, Diff;
    PulsesAlternate(code, n, n, i / 2);
    var j := 2 * (i / 2);
    assert i == j || i == j + 1;
    assert Close(d[j], Pulses(code, n, n)[j]) && Close(d[j + 1], Pulses(code, n, n)[j + 1]);
    FarApart(d[j], d[j + 1]);
  }

  lemma FarApart(x: nat, y: nat)
    requires (Close(x, SHORT) && Close(y, LONG)) || (Close(x, LONG) && Close(y, SHORT))
    ensures Diff(x, y) >= 50 && Diff(y, x) >= 50
  {}

  // ---------------------------------------------------------------- from the wave to the edges

  /** Levels that alternate, beginning with a change. */
  ghost predicate Alternates(level: bool, wave: seq<Level>)
  {
    forall i :: 0 <= i < |wave| ==> wave[i].high == (if i % 2 == 0 then !level else level)
  }

  ghost function Micros(wave: seq<Level>): (d: seq<nat>)
    ensures |d| == |wave| && forall i :: 0 <= i < |d| ==> d[i] == wave[i].micros
  {
    seq(|wave|, i requires 0 <= i < |wave| => wave[i].micros)
  }

  /** Alternating levels are measured one by one, each by the change that ends it. */
  lemma {:induction false} EdgesOfAlternating(level: bool, gap: nat, wave: seq<Level>)
    requires wave != [] && Alternates(level, wave)
    ensures Edges(level, gap, wave) == [gap] + Micros(wave)[..|wave| - 1]
    decreases |wave|
  {
    var rest := wave[1..];
    if rest == [] {
      assert Edges(!level, wave[0].micros, rest) == [];
    } else {
      assert forall i :: 0 <= i < |rest| ==> rest[i] == wave[i + 1];
      EdgesOfAlternating(!level, wave[0].micros, rest);
      assert Micros(wave)[..|wave| - 1] == [wave[0].micros] + Micros(rest)[..|rest| - 1];
    }
  }

  lemma {:induction false} CodeLevelsAre(code: nat, n: nat, done: nat)
    requires done <= n
    ensures var w := CodeLevels(PROTO1, code, n, done);
            Alternates(false, w) && |w| == 2 * done && Micros(w) == Pulses(code, n, done)
  {
    hide BitSet;
    if done > 0 {
      CodeLevelsAre(code, n, done - 1);
      var w := CodeLevels(PROTO1, code, n, done - 1);
      var b := Transmit(PROTO1, BitPulse(PROTO1, code, n - done));
      assert |b| == 2 && b[0].high && !b[1].high;
      assert Micros(w + b) == Micros(w) + Micros(b);
    }
  }

  /** One packet: the sync pulse and the code word. */
  lemma PacketIs(code: nat, n: nat)
    ensures var w := Packet(PROTO1, code, n);
            Alternates(false, w) && |w| == 2 * n + 2 && Micros(w) == [SHORT, SYNC] + Pulses(code, n, n)
  {
    hide BitSet, CodeLevels, Pulses;
    CodeLevelsAre(code, n, n);
    var w := CodeLevels(PROTO1, code, n, n);
    var h := Times(PROTO1, PROTO1.header, 1);
    assert Times(PROTO1, PROTO1.header, 0) == [];
    assert h == [Level(true, SHORT), Level(false, SYNC)];
    assert Times(PROTO1, PROTO1.preamble, 0) == [];
    assert Packet(PROTO1, code, n) == h + w;
    assert Micros(h + w) == Micros(h) + Micros(w);
  }

  /** What a receiver on an idle line sees of two repeats. */
  lemma TwoPacketsAre(code: nat, n: nat, gap: nat)
    ensures var d := Pulses(code, n, n);
            Edges(false, gap, Packets(PROTO1, code, n, 2)) ==
            ([gap, SHORT, SYNC] + d + [SHORT, SYNC] + d)[..4 * n + 4]
  {
    hide Packet, Packets, Pulses, Edges, Alternates, Micros;
    PacketIs(code, n);
    var w := Packet(PROTO1, code, n);
    PacketTwice(code, n);
    AlternatesTwice(w);
    EdgesOfAlternating(false, gap, w + w);
    JoinDurations(w, gap, Pulses(code, n, n));
  }

  lemma PacketTwice(code: nat, n: nat)
    ensures Packets(PROTO1, code, n, 2) == Packet(PROTO1, code, n) + Packet(PROTO1, code, n)
  {
    hide Packet;
    var w := Packet(PROTO1, code, n);
    assert Packets(PROTO1, code, n, 0) == [];
    assert Packets(PROTO1, code, n, 1) == [] + w == w;
  }

  lemma AlternatesTwice(w: seq<Level>)
    requires Alternates(false, w) && |w| % 2 == 0
    ensures Alternates(false, w + w)
  {
  }

  lemma JoinDurations(w: seq<Level>, gap: nat, d: seq<nat>)
    requires Micros(w) == [SHORT, SYNC] + d
    ensures [gap] + Micros(w + w)[..2 * |w| - 1] == ([gap, SHORT, SYNC] + d + [SHORT, SYNC] + d)[..2 * |w|]
  {
    var all := [gap, SHORT, SYNC] + d + [SHORT, SYNC] + d;
    var m := Micros(w + w);
    forall i | 0 <= i < |m| ensures m[i] == all[i + 1] {
      if i < |w| {
        assert m[i] == Micros(w)[i];
      } else {
        assert m[i] == Micros(w)[i - |w|];
      }
    }
  }

  // ---------------------------------------------------------------- recording

  lemma {:induction false} FeedAppend(r: Receiver, a: seq<nat>, b: seq<nat>)
    requires WellFormed(r)
    ensures Feed(r, a + b) == Feed(Feed(r, a), b)
    decreases |a|
  {
    hide Edge, WellFormed;
    if a == [] {
      assert a + b == b;
    } else {
      FeedAppend(Edge(r, a[0]), a[1..], b);
      assert (a + b)[1..] == a[1..] + b;
    }
  }

  /** The frame is being recorded: the sync gap and the first `i` durations of the code word. */
  ghost predicate Recording(r: Receiver, sync: nat, d: seq<nat>, i: nat) {
    && WellFormed(r) && i <= |d| <= 128 && r.pendingCount == 0
    && r.changeCount == 1 + i && r.timings[0] == sync
    && (forall j :: 0 <= j < i ==> r.timings[1 + j] == d[j])
    && (forall j :: 0 <= j < 4 && j < i ==> r.buf[j] == d[i - 1 - j])
  }

  /** From power-up and after any idle gap, the sync pulse starts a recording. */
  lemma SyncStartsRecording(gap: nat, high: nat, sync: nat, d: seq<nat>)
    requires gap < TWO_32 && |d| <= 128 && Close(high, SHORT) && Close(sync, SYNC)
    ensures Recording(Feed(PowerUp(), [gap, high, sync]), sync, d, 0)
  {
    hide Close;
    var r0 := PowerUp();
    var r1 := Edge(r0, gap);
    var r2 := Edge(r1, high);
    var r3 := Edge(r2, sync);
    FeedThree(r0, gap, high, sync);
    AfterGap(gap);
    AfterShort(r1, gap, high);
    AfterSync(r2, gap, high, sync);
  }

  lemma FeedThree(r: Receiver, x: nat, y: nat, z: nat)
    requires WellFormed(r)
    ensures Feed(r, [x, y, z]) == Edge(Edge(Edge(r, x), y), z)
  {
    hide Edge, WellFormed;
    assert [x, y, z][1..] == [y, z] && [y, z][1..] == [z] && [z][1..] == [];
    assert Feed(r, [x, y, z]) == Feed(Edge(r, x), [y, z]);
    assert Feed(Edge(r, x), [y, z]) == Feed(Edge(Edge(r, x), y), [z]);
    assert Feed(Edge(Edge(r, x), y), [z]) == Feed(Edge(Edge(Edge(r, x), y), z), []);
  }

  /** The first edge is stored either as a beginning or behind three zero durations. */
  lemma AfterGap(gap: nat)
    requires gap < TWO_32
    ensures var r := Edge(PowerUp(), gap);
            && r.pendingCount == 0 && r.buf == [gap, 0, 0, 0]
            && if gap > SEPARATION_LIMIT then r.changeCount == 5 && r.timings[0] == 0
               else r.changeCount == 1 && r.timings[0] == gap
  {
  }

  lemma AfterShort(r: Receiver, gap: nat, high: nat)
    requires WellFormed(r) && gap < TWO_32 && r.pendingCount == 0 && r.buf == [gap, 0, 0, 0] && 1 <= r.changeCount <= 5
    requires Close(high, SHORT)
    ensures var s := Edge(r, high);
            s.pendingCount == 0 && s.buf == [high, gap, 0, 0] && s.changeCount == r.changeCount + 1
                && s.timings[0] == r.timings[0]
  {
    hide Diff;
  }

  lemma AfterSync(r: Receiver, gap: nat, high: nat, sync: nat)
    requires WellFormed(r) && gap < TWO_32 && r.pendingCount == 0 && r.buf == [high, gap, 0, 0]
             && 2 <= r.changeCount <= 6 && Close(high, SHORT) && Close(sync, SYNC)
    requires r.timings[0] == 0 || (r.timings[0] == gap <= SEPARATION_LIMIT)
    ensures var s := Edge(r, sync); s.pendingCount == 0 && s.changeCount == 1 && s.timings[0] == sync
  {
    SyncIsNew(r.timings[0], gap, high, sync);
    hide Diff, U32;
  }

  lemma SyncIsNew(first: nat, gap: nat, high: nat, sync: nat)
    requires gap < TWO_32 && (first == 0 || (first == gap <= SEPARATION_LIMIT))
    requires Close(high, SHORT) && Close(sync, SYNC)
    ensures Diff(sync, first) >= 400 && (Diff(0, gap) >= 50 || Diff(gap, high) >= 50)
  {}

  /** Three durations of a code word are never even, so only the next sync gap can end it. */
  lemma RecordsOne(r: Receiver, sync: nat, d: seq<nat>, code: nat, n: nat, i: nat)
    requires n <= 64 && Measures(d, code, n) && Recording(r, sync, d, i) && i < 2 * n
    ensures Recording(Edge(r, d[i]), sync, d, i + 1)
  {
    hide Measures, Diff;
    assert |d| == 2 * n by { MeasuredLength(d, code, n); }
    MeasuredDiffer(d, code, n, i);
    if i >= 3 {
      MeasuredDiffer(d, code, n, i - 3);
      MeasuredDiffer(d, code, n, i - 2);
    }
    NotSeparated(r, sync, d, i, d[i]);
  }

  lemma MeasuredLength(d: seq<nat>, code: nat, n: nat)
    requires Measures(d, code, n)
    ensures |d| == 2 * n
  {}

  /** A duration that does not separate is stored at the end of the recording. */
  lemma NotSeparated(r: Receiver, sync: nat, d: seq<nat>, i: nat, duration: nat)
    requires Recording(r, sync, d, i) && 100 <= duration <= SEPARATION_LIMIT
    requires i >= 3 ==> Diff(d[i - 3], d[i - 2]) >= 50 || Diff(d[i - 2], d[i - 1]) >= 50
    ensures Edge(r, duration) == r.(buf := [duration, r.buf[0], r.buf[1], r.buf[2]],
            lastTime := U32(r.lastTime + duration),
                                    timings := r.timings[1 + i := duration], changeCount := 2 + i)
  {
    hide Diff, U32;
  }

  lemma {:induction false} RecordsAll(r: Receiver, sync: nat, d: seq<nat>, code: nat, n: nat, i: nat)
    requires n <= 64 && Measures(d, code, n) && Recording(r, sync, d, i)
    ensures Recording(Feed(r, d[i..]), sync, d, 2 * n)
    decreases 2 * n - i
  {
    hide Measures, Edge, Recording;
    MeasuredLength(d, code, n);
    assert Recording(r, sync, d, i) ==> WellFormed(r) && i <= 2 * n by { RecordingIs(r, sync, d, i); }
    if i < 2 * n {
      RecordsOne(r, sync, d, code, n, i);
      RecordsAll(Edge(r, d[i]), sync, d, code, n, i + 1);
      assert d[i..][1..] == d[i + 1..];
    } else {
      assert d[i..] == [];
    }
  }

  lemma RecordingIs(r: Receiver, sync: nat, d: seq<nat>, i: nat)
    requires Recording(r, sync, d, i)
    ensures WellFormed(r) && i <= |d|
  {
  }

  // ---------------------------------------------------------------- hand-over

  /** A complete frame waits for the reader: sync gap, code word, the next header's high part. */
  ghost predicate Waiting(r: Receiver, sync: nat, d: seq<nat>) {
    && WellFormed(r) && |d| <= 128 && r.pendingCount == |d| + 2
    && r.pending[0] == sync && (forall j :: 0 <= j < |d| ==> r.pending[1 + j] == d[j])
  }

  /** The second header hands the recorded frame over. */
  lemma HeaderHandsOver(r: Receiver, sync: nat, d: seq<nat>, code: nat, n: nat, high: nat, again: nat)
    requires 0 < n <= 64 && Measures(d, code, n) && Recording(r, sync, d, 2 * n)
    requires Close(high, SHORT) && Close(sync, SYNC) && Close(again, SYNC)
    ensures Waiting(Feed(r, [high, again]), sync, d)
  {
    hide Measures, Diff;
    MeasuredLength(d, code, n);
    MeasuredDiffer(d, code, n, 2 * n - 2);
    if n > 1 { MeasuredDiffer(d, code, n, 2 * n - 4); }
    NotSeparated(r, sync, d, 2 * n, high);
    var s := Edge(r, high);
    SyncHandsOver(s, sync, d, again);
    assert [high, again][1..] == [again] && [again][1..] == [];
    assert Feed(r, [high, again]) == Feed(s, [again]);
    assert Feed(s, [again]) == Feed(Edge(s, again), []);
  }

  lemma SyncHandsOver(s: Receiver, sync: nat, d: seq<nat>, again: nat)
    requires WellFormed(s) && |d| <= 128 && s.pendingCount == 0 && s.changeCount == |d| + 2
    requires s.timings[0] == sync && (forall j :: 0 <= j < |d| ==> s.timings[1 + j] == d[j])
    requires Close(sync, SYNC) && Close(again, SYNC)
    ensures Waiting(Edge(s, again), sync, d)
  {
    assert Diff(again, sync) < 400;
    hide Diff, U32;
    var shifted := s.(buf := [again, s.buf[0], s.buf[1], s.buf[2]], lastTime := U32(s.lastTime + again));
    var h := HandOver(shifted);
    assert h.pending == s.timings[..|d| + 2] + s.pending[|d| + 2..];
    assert Waiting(h, sync, d);
  }

  /** Whatever the interrupt handler does, a frame that waits for the reader stays as it is. */
  lemma EdgeKeepsPending(r: Receiver, duration: nat)
    requires WellFormed(r) && r.pendingCount != 0
    ensures Edge(r, duration).pending == r.pending && Edge(r, duration).pendingCount == r.pendingCount
  {
  }

  lemma {:induction false} FeedKeepsPending(r: Receiver, durations: seq<nat>)
    requires WellFormed(r) && r.pendingCount != 0
    ensures Feed(r, durations).pending == r.pending && Feed(r, durations).pendingCount == r.pendingCount
    decreases |durations|
  {
    hide Edge, WellFormed;
    if durations != [] {
      EdgeKeepsPending(r, durations[0]);
      FeedKeepsPending(Edge(r, durations[0]), durations[1..]);
    }
  }

  // ---------------------------------------------------------------- decoding

  lemma Shift(code: nat, k: nat)
    ensures code / Pow2(k) == 2 * (code / Pow2(k + 1)) + (if BitSet(code, k) then 1 else 0)
  {
    var p := Pow2(k);
    assert Pow2(k + 1) == 2 * p;
    var (q, b) := (code / p / 2, code / p % 2);
    assert code / p == 2 * q + b;
    var m := code % p;
    assert code == p * (code / p) + m;
    assert code == (2 * p) * q + (p * b + m) by { assert p * (2 * q + b) == (2 * p) * q + p * b; }
    assert 0 <= p * b + m < 2 * p by { assert b == 0 || b == 1; }
    Quotient(code, 2 * p, q, p * b + m);
  }

  lemma Quotient(x: nat, d: nat, q: nat, m: nat)
    requires d > 0 && x == d * q + m && m < d
    ensures x / d == q
  {
    var e := x / d - q;
    assert x == d * (x / d) + x % d;
    assert d * e == m - x % d by { assert d * (x / d) - d * q == d * e; }
    Multiple(d, e);
  }

  lemma Multiple(d: nat, e: int)
    requires d > 0
    ensures (e >= 1 ==> d * e >= d) && (e <= -1 ==> d * e <= 0 - d)
    ensures e >= 0 ==> d * e >= e
  {
  }

  lemma {:induction false} BelowPow(code: nat, n: nat)
    requires code < Pow2(n)
    ensures code / Pow2(n) == 0
  {
    Quotient(code, Pow2(n), 0, code);
  }

  /** The bits of a code above the lowest `k`. */
  function HighBits(code: nat, k: nat): nat {
    QuotientIsNat(code, Pow2(k));
    code / Pow2(k)
  }

  lemma QuotientIsNat(x: nat, d: nat)
    requires d > 0
    ensures x / d >= 0
  {}

  /** A buffer with a measured code word behind the sync gap. */
  ghost predicate Shows(t: seq<nat>, code: nat, n: nat) {
    |t| == MAX_CHANGES && n <= 64 && forall i :: 0 <= i < 2 * n ==> Close(t[1 + i], Pulses(code, n, n)[i])
  }

  /** What the code word's durations read as, from bit `j` on: the remaining bits below those
      already read. */
  lemma {:induction false} ReadsCode(t: seq<nat>, delay: nat, code: nat, n: nat, j: nat)
    requires Shows(t, code, n) && j <= n && code < Pow2(n) <= TWO_64 && 344 <= delay <= 356
    ensures ReadBits(PROTO1, t, delay, delay * 60 / 100, 1 + 2 * j, 1 + 2 * n, HighBits(code, n - j)) == Some(code)
    decreases n - j
  {
    hide Pulses, BitSet, Pow2, ReadBit, Close;
    if j == n {
      PowZero();
    } else {
      PulsesAlternate(code, n, n, j);
      var i := 1 + 2 * j;
      var b := if BitSet(code, n - 1 - j) then 1 else 0;
      assert Close(t[1 + 2 * j], Pulses(code, n, n)[2 * j]);
      assert Close(t[1 + (2 * j + 1)], Pulses(code, n, n)[2 * j + 1]);
      ReadBitOf(delay, t[i], t[i + 1], b);
      NextAccumulator(code, n - 1 - j);
      ReadsCode(t, delay, code, n, j + 1);
    }
  }

  lemma NextAccumulator(code: nat, k: nat)
    requires code < TWO_64
    ensures (2 * (code / Pow2(k + 1))) % TWO_64 + (if BitSet(code, k) then 1 else 0) == code / Pow2(k)
  {
    hide Pow2, BitSet;
    Shift(code, k);
    QuotientBelow(code, Pow2(k));
  }

  lemma PowZero() ensures Pow2(0) == 1 {}

  lemma QuotientBelow(x: nat, d: nat)
    requires d > 0
    ensures x / d <= x
  {
    Multiple(d, x / d);
  }

  lemma DiffIs(x: nat, y: nat)
    requires x < 0x8000_0000 && y < 0x8000_0000
    ensures U32(y) == y && Diff(x, y) == if x >= y then x - y else y - x
  {}

  /** Neither shape can be taken for the other. */
  lemma ReadBitOf(delay: nat, high: nat, low: nat, b: nat)
    requires 344 <= delay <= 356
    requires (b == 0 && Close(high, SHORT) && Close(low, LONG)) || (b == 1 && Close(high, LONG) && Close(low, SHORT))
    ensures ReadBit(PROTO1, delay, delay * 60 / 100, high, low) == Some(b)
  {
    hide Diff, U32;
    DiffIs(high, delay * 1);
    DiffIs(low, delay * 3);
    DiffIs(high, delay * 3);
    DiffIs(low, delay * 1);
    assert 206 <= delay * 60 / 100 <= 213 && 5 * (delay * 60 / 100) <= 3 * delay < 5 * (delay * 60 / 100) + 5;
  }

  lemma {:induction false} PowBound(n: nat)
    requires n <= 64
    ensures Pow2(n) <= TWO_64
  {
    hide Pow2;
    PowFour();
    PowSum(4, 4);
    PowSum(8, 8);
    PowSum(16, 16);
    PowSum(32, 32);
    PowMonotone(n, 64);
  }

  lemma PowFour() ensures Pow2(4) == 16 {}

  lemma {:induction false} PowSum(a: nat, b: nat)
    ensures Pow2(a + b) == Pow2(a) * Pow2(b)
  {
    if b > 0 { PowSum(a, b - 1); }
  }

  lemma {:induction false} PowMonotone(a: nat, b: nat)
    requires a <= b
    ensures Pow2(a) <= Pow2(b)
  {
    if a < b { PowMonotone(a, b - 1); }
  }

  lemma WaitingFrameDecodes(r: Receiver, sync: nat, d: seq<nat>, code: nat, n: nat)
    requires 8 <= n <= 64 && code < Pow2(n) && Measures(d, code, n) && Close(sync, SYNC) && Waiting(r, sync, d)
    ensures Decode(r.pending, r.pendingCount) == Some(Decoded(code, n, sync / 31))
  {
    hide Pulses, ReadBits, Pow2;
    PowBound(n);
    BelowPow(code, n);
    ReadsCode(r.pending, sync / 31, code, n, 0);
  }

  /** What is measured of two repeats: a header, the code word, a header, and the code word once more. */
  lemma HeardSplits(code: nat, n: nat, gap: nat, measured: seq<nat>)
    requires 0 < n && Heard(measured, Edges(false, gap, Packets(PROTO1, code, n, 2)))
    ensures |measured| == 4 * n + 4 && measured[..3] == [gap, measured[1], measured[2]]
    ensures Close(measured[1], SHORT) && Close(measured[2], SYNC) && Measures(measured[3..2 * n + 3], code, n)
    ensures measured[2 * n + 3..2 * n + 5] == [measured[2 * n + 3], measured[2 * n + 4]]
    ensures Close(measured[2 * n + 3], SHORT) && Close(measured[2 * n + 4], SYNC)
  {
    hide Pulses, Edges, Packets, Close;
    TwoPacketsAre(code, n, gap);
    var (d, m) := (Pulses(code, n, n), measured);
    var all := [gap, SHORT, SYNC] + d + [SHORT, SYNC] + d;
    assert all[1] == SHORT && all[2] == SYNC && all[2 * n + 3] == SHORT && all[2 * n + 4] == SYNC;
    forall i | 1 <= i < 4 * n + 4 ensures Close(m[i], all[i]) {}
    forall i | 0 <= i < 2 * n ensures Close(m[3..2 * n + 3][i], d[i]) {
      assert m[3..2 * n + 3][i] == m[i + 3] && all[i + 3] == d[i];
    }
  }

  lemma HeardExactly(edges: seq<nat>)
    requires edges != []
    ensures Heard(edges, edges)
  {}

  /** Two repeats of any nonzero n-bit code, 8 <= n <= 64, sent by `send` with the built-in protocol,
      received by a receiver just switched on after any idle gap, each duration measured up to 186
      microseconds off: a frame waits for the reader, and what `available` then decodes is that code, its
      bit length and the pulse length measured, also if more edges of any kind follow. */
  lemma TwoRepeatsAreReceived(code: nat, n: nat, gap: nat, measured: seq<nat>, more: seq<nat>)
    requires 8 <= n <= 64 && 0 < code < Pow2(n) && gap < TWO_32
    requires Heard(measured, Edges(false, gap, Packets(PROTO1, code, n, 2)))
    ensures WellFormed(PowerUp()) && |measured| == 4 * n + 4
    ensures var r := Feed(PowerUp(), measured + more);
            r.pendingCount == 2 * n + 2
            && Decode(r.pending, r.pendingCount) == Some(Decoded(code, n, measured[2] / 31))
  {
    hide Pulses, Edges, Packets, Pow2, Decode, Edge, Recording, Close;
    HeardSplits(code, n, gap, measured);
    var (r0, lead, d) := (PowerUp(), measured[..3], measured[3..2 * n + 3]);
    var header, tail := measured[2 * n + 3..2 * n + 5], measured[2 * n + 5..] + more;
    SyncStartsRecording(gap, lead[1], lead[2], d);
    var r1 := Feed(r0, lead);
    RecordsAll(r1, lead[2], d, code, n, 0);
    assert d[0..] == d;
    var r2 := Feed(r1, d);
    HeaderHandsOver(r2, lead[2], d, code, n, header[0], header[1]);
    var r3 := Feed(r2, header);
    FeedKeepsPending(r3, tail);
    assert measured + more == lead + (d + (header + tail));
    FeedAppend(r0, lead, d + (header + tail));
    FeedAppend(r1, d, header + tail);
    FeedAppend(r2, header, tail);
    WaitingFrameDecodes(r3, lead[2], d, code, n);
  }

  /** That is as far off as every code can be: one microsecond more, on the sync gap and on one long pulse,
      and the frame is refused. */
  lemma FurtherOffIsRefused(t: seq<nat>, count: nat)
    requires |t| == MAX_CHANGES && 3 <= count <= MAX_CHANGES && t[0] == SYNC - 187
    requires (t[1] == SHORT && t[2] == LONG + 187) || (t[1] == LONG + 187 && t[2] == SHORT)
    ensures Decode(t, count).None?
  {
    assert ReadBit(PROTO1, 343, 205, t[1], t[2]).None?;
  }

  /** A frame of fewer than eight bits is noise. */
  lemma ShortFrameIsRefused(t: seq<nat>, count: nat)
    requires |t| == MAX_CHANGES && 2 <= count <= 17
    ensures count <= 16 ==> Decode(t, count).None?
    ensures Decode(t, count).Some? ==> Decode(t, count).value.bitLength == 7
  {
    hide ReadBits;
    assert BitChanges(count) == count - 2;
  }

  // ---------------------------------------------------------------- other edges

  /** No two of three neighbouring durations differ by 50 microseconds. */
  predicate Level3(x: nat, y: nat, z: nat) {
    x < 0x8000_0000 && y < 0x8000_0000 && z < 0x8000_0000 && -50 < x - y < 50 && -50 < y - z < 50
  }

  /** The receiver as it records on, the history moved along. */
  function Shifted(r: Receiver, duration: nat): Receiver
    requires WellFormed(r)
  {
    r.(buf := [duration, r.buf[0], r.buf[1], r.buf[2]], lastTime := U32(r.lastTime + duration))
  }

  lemma LevelIsEven(r: Receiver, duration: nat)
    requires WellFormed(r)
    requires r.buf[0] < 0x8000_0000 && r.buf[1] < 0x8000_0000 && r.buf[2] < 0x8000_0000
    ensures Even(Shifted(r, duration).buf) <==> Level3(r.buf[2], r.buf[1], r.buf[0])
  {
    hide Diff;
    DiffIs(r.buf[2], r.buf[1]);
    DiffIs(r.buf[1], r.buf[0]);
  }

  /** Between two gaps: three level durations end a frame of more than 25 changes and no other. If they repeat
      the beginning of the recorded frame it is handed over, and they begin the next recording either way. */
  lemma LevelRunSeparatesIff(r: Receiver, duration: nat)
    requires WellFormed(r) && r.pendingCount == 0 && 100 <= duration <= 3600
    requires r.changeCount < MAX_CHANGES && duration + 400 <= r.timings[0] && r.timings[0] < 0x8000_0000
    requires Level3(r.buf[2], r.buf[1], r.buf[0])
    requires Level3(r.buf[2], r.timings[1], r.buf[2]) && Level3(r.buf[1], r.timings[2], r.buf[1])
             && Level3(r.buf[0], r.timings[3], r.buf[0])
    ensures var s := Edge(r, duration);
            if r.changeCount > 25
            then && s.pendingCount == r.changeCount && s.pending[..r.changeCount] == r.timings[..r.changeCount]
                 && s.changeCount == 5 && s.timings[0] == r.timings[0]
                 && s.timings[1..5] == [r.buf[2], r.buf[1], r.buf[0], duration]
            else && s.pendingCount == 0 && s.changeCount == r.changeCount + 1
                 && s.timings == r.timings[r.changeCount := duration]
  {
    hide Diff, U32;
    LevelIsEven(r, duration);
    DiffIs(r.buf[2], r.timings[1]);
    DiffIs(r.buf[1], r.timings[2]);
    DiffIs(r.buf[0], r.timings[3]);
    var h := Shifted(r, duration);
    if r.changeCount > 25 {
      assert RepeatsFrame(h, duration);
      assert HandOver(h).pending[..r.changeCount] == r.timings[..r.changeCount];
      var timings := r.timings[1 := r.buf[2]][2 := r.buf[1]][3 := r.buf[0]][4 := duration];
      assert timings[1..5] == [r.buf[2], r.buf[1], r.buf[0], duration];
    }
  }

  /** Level durations that do not repeat the beginning of the frame end it unread. */
  lemma OtherLevelRunDrops(r: Receiver, duration: nat)
    requires WellFormed(r) && r.pendingCount == 0 && 100 <= duration <= 3600 && 25 < r.changeCount
    requires duration + 400 <= r.timings[0] && r.timings[0] < 0x8000_0000
    requires Level3(r.buf[2], r.buf[1], r.buf[0])
    requires r.timings[1] < 0x8000_0000 && (r.buf[2] >= r.timings[1] + 50 || r.timings[1] >= r.buf[2] + 50)
    ensures Edge(r, duration).pendingCount == 0 && Edge(r, duration).changeCount == 5
  {
    hide U32;
    LevelIsEven(r, duration);
    DiffIs(r.buf[2], r.timings[1]);
    DiffIs(duration, r.timings[0]);
  }

  /** A spike of less than 100 microseconds is added to the duration before it. */
  lemma SpikeIsMerged(r: Receiver, spike: nat)
    requires WellFormed(r) && spike < 100 && 0 < r.changeCount < MAX_CHANGES && !Separates(Shifted(r, spike), spike)
    requires r.timings[r.changeCount - 1] + spike < TWO_32
    ensures var s := Edge(r, spike);
            && s.changeCount == r.changeCount && s.pendingCount == r.pendingCount
            && s.timings == r.timings[r.changeCount - 1 := r.timings[r.changeCount - 1] + spike]
  {
    hide Diff;
  }

  /** A recording that is full starts over. */
  lemma FullRecordingStartsOver(r: Receiver, duration: nat)
    requires WellFormed(r) && r.changeCount == MAX_CHANGES && !Separates(Shifted(r, duration), duration)
    ensures var s := Edge(r, duration);
            s.changeCount == 1 && s.timings == r.timings[0 := duration] && s.pendingCount == r.pendingCount
  {
    hide Diff;
  }

  // ---------------------------------------------------------------- nothing but the frame

  lemma {:induction false} ReadsOnlyUpTo(t: seq<nat>, u: seq<nat>, delay: nat, tolerance: nat, i: nat, end: nat,
                                         code: nat)
    requires end < |t| == |u| && t[..end + 1] == u[..end + 1]
    ensures ReadBits(PROTO1, t, delay, tolerance, i, end, code) == ReadBits(PROTO1, u, delay, tolerance, i, end, code)
    decreases end - i
  {
    hide ReadBit;
    if i < end {
      assert t[i] == t[..end + 1][i] && t[i + 1] == t[..end + 1][i + 1];
      var b := ReadBit(PROTO1, delay, tolerance, t[i], t[i + 1]);
      if b.Some? { ReadsOnlyUpTo(t, u, delay, tolerance, i + 2, end, (2 * code) % TWO_64 + b.value); }
    }
  }

  /** Two buffers with the same first `count` entries. */
  ghost predicate SameFrame(t: seq<nat>, u: seq<nat>, count: nat) {
    |t| == |u| == MAX_CHANGES && count <= MAX_CHANGES && t[..count] == u[..count]
  }

  lemma FrameDecides(t: seq<nat>, u: seq<nat>, count: nat)
    requires count >= 2 && SameFrame(t, u, count)
    ensures Decode(t, count) == Decode(u, count)
  {
    hide ReadBits, BitChanges;
    var n := BitChanges(count);
    assert t[0] == t[..count][0];
    assert t[..n + 2] == t[..count][..n + 2] && u[..n + 2] == u[..count][..n + 2];
    var delay := t[0] / PROTO1.header.low;
    ReadsOnlyUpTo(t, u, delay, U32(delay * TOLERANCE_PERCENT) / 100, 1, 1 + n, 0);
  }

  /** A sync gap, and behind it either silence or the bits of an older frame. */
  ghost function Leftover(bits: bool): (t: seq<nat>)
    ensures |t| == MAX_CHANGES && t[0] == 10_850
    ensures forall j :: 1 <= j < MAX_CHANGES ==> t[j] == if !bits then 0 else if j % 2 == 1 then 350 else 1050
  {
    seq(MAX_CHANGES, j => if j == 0 then 10_850 else if !bits then 0 else if j % 2 == 1 then 350 else 1050)
  }

  lemma {:induction false} LeftoverReads(i: nat)
    requires i % 2 == 1
    ensures ReadBits(PROTO1, Leftover(true), 350, 210, i, 129, 0) == Some(0)
    decreases 129 - i
  {
    hide ReadBits, Leftover;
    if i < 129 {
      assert ReadBit(PROTO1, 350, 210, 350, 1050) == Some(0);
      LeftoverReads(i + 2);
    }
    OneRound(Leftover(true), i);
  }

  lemma OneRound(t: seq<nat>, i: nat)
    requires |t| == MAX_CHANGES && (i < 129 ==> ReadBit(PROTO1, 350, 210, t[i], t[i + 1]) == Some(0))
    ensures ReadBits(PROTO1, t, 350, 210, i, 129, 0)
            == if i >= 129 then Some(0) else ReadBits(PROTO1, t, 350, 210, i + 2, 129, 0)
  {
    hide ReadBit;
  }

  /** A hand-over of a single duration is decoded from what an older one left in the buffer. */
  lemma LeftoverDecides()
    ensures Decode(Leftover(true), 1) == Some(Decoded(0, 64, 350)) && Decode(Leftover(false), 1).None?
  {
    hide ReadBits, Leftover;
    assert BitChanges(1) == 128;
    LeftoverReads(1);
    FirstRefused(Leftover(false));
  }

  lemma FirstRefused(t: seq<nat>)
    requires |t| == MAX_CHANGES && t[1] == t[2] == 0
    ensures ReadBits(PROTO1, t, 350, 210, 1, 129, 0).None?
  {
    assert ReadBit(PROTO1, 350, 210, 0, 0) == None;
  }

  /** The decoder's answer depends on the handed-over durations alone exactly when there are at least
      two of them. */
  lemma DecodesFrameAloneIffTwo(count: nat)
    requires 1 <= count <= MAX_CHANGES
    ensures (forall t, u :: SameFrame(t, u, count) ==> Decode(t, count) == Decode(u, count)) <==> count >= 2
  {
    hide Decode, Leftover;
    if count >= 2 {
      forall t, u | SameFrame(t, u, count) ensures Decode(t, count) == Decode(u, count) { FrameDecides(t, u, count); }
    } else {
      LeftoverDecides();
      var (t, u) := (Leftover(true), Leftover(false));
      assert t[..1] == [10_850] == u[..1];
      assert SameFrame(t, u, count);
    }
  }

  // ---------------------------------------------------------------- the run that reads a code twice

  /** The second sync gap of a frame that still waits starts a new recording without handing over. */
  lemma GapRestarts(r: Receiver)
    requires WellFormed(r) && r.pendingCount != 0
    requires Diff(r.buf[2], r.buf[1]) >= 50
    ensures var s := Edge(r, SYNC);
            s.pending == r.pending && s.pendingCount == r.pendingCount && s.changeCount == 1 && s.timings[0] == SYNC
                && s.buf[..2] == [SYNC, r.buf[0]]
            && s.buf[2] == r.buf[1]
  {
    hide Diff;
  }

  /** Once the reader has released the buffer, the next one hands over that single duration. */
  lemma GapHandsOverOne(r: Receiver)
    requires WellFormed(r) && r.pendingCount == 0 && r.changeCount == 1 && r.timings[0] == SYNC && r.pending[0] == SYNC
    ensures Edge(r, SYNC).pending == r.pending && Edge(r, SYNC).pendingCount == 1
  {
    assert Diff(SYNC, SYNC) == 0;
    var shifted := r.(buf := [SYNC, r.buf[0], r.buf[1], r.buf[2]], lastTime := U32(r.lastTime + SYNC));
    assert HandOver(shifted).pending == r.pending;
  }

  /** The last durations are the ones in the short history. */
  lemma LastThree(r: Receiver, a: seq<nat>, x: nat, y: nat, z: nat)
    requires WellFormed(r)
    ensures Feed(r, a + [x, y, z]).buf[..3] == [z, y, x]
  {
    hide Separates, Separate, Record;
    FeedAppend(r, a, [x, y, z]);
    var s := Feed(r, a);
    FeedThree(s, x, y, z);
    BufShifts(s, x);
    BufShifts(Edge(s, x), y);
    BufShifts(Edge(Edge(s, x), y), z);
  }

  lemma BufShifts(r: Receiver, duration: nat)
    requires WellFormed(r)
    ensures Edge(r, duration).buf == [duration, r.buf[0], r.buf[1], r.buf[2]]
  {}

  lemma OneDecodesLikeAll(t: seq<nat>)
    requires |t| == MAX_CHANGES
    ensures Decode(t, 1) == Decode(t, 130)
  {
    assert BitChanges(1) == BitChanges(130) == 128;
    hide BitChanges, ReadBits;
  }

  /** What `available()` leaves when it has read a frame. */
  function Released(r: Receiver): Receiver { r.(pendingCount := 0) }

  /** The full run, from power-up: a 64-bit code is sent, received and read; two further gaps of sync
      length, one before the reader is done and one after, make it arrive a second time. */
  lemma OldCodeIsReadAgain(code: nat, gap: nat)
    requires 0 < code < Pow2(64) && gap < TWO_32
    ensures WellFormed(PowerUp())
    ensures var r := Feed(PowerUp(), Edges(false, gap, Packets(PROTO1, code, 64, 2)) + [SYNC]);
            && r.pendingCount == 130 && Decode(r.pending, r.pendingCount) == Some(Decoded(code, 64, 350))
            && var again := Edge(Released(r), SYNC);
               again.pendingCount == 1 && Decode(again.pending, again.pendingCount) == Some(Decoded(code, 64, 350))
  {
    hide Pulses, Edges, Packets, Pow2, Decode, Edge, WellFormed, Waiting;
    assert WellFormed(PowerUp()) by { PowerUpIsWell(); }
    var r := Feed(PowerUp(), Edges(false, gap, Packets(PROTO1, code, 64, 2)) + [SYNC]);
    var edges := Edges(false, gap, Packets(PROTO1, code, 64, 2));
    AfterTwoRepeats(code, gap);
    HeardExactly(edges);
    TwoRepeatsAreReceived(code, 64, gap, edges, [SYNC]);
    assert edges[2] == SYNC;
    ReleasedIsWell(r);
    GapHandsOverOne(Released(r));
    OneDecodesLikeAll(r.pending);
  }

  lemma PowerUpIsWell() ensures WellFormed(PowerUp()) {}
  lemma ReleasedIsWell(r: Receiver)
    requires WellFormed(r)
    ensures WellFormed(Released(r)) && |r.pending| == |r.timings| == MAX_CHANGES
  {}

  lemma AfterTwoRepeats(code: nat, gap: nat)
    requires 0 < code < Pow2(64) && gap < TWO_32
    ensures WellFormed(PowerUp())
    ensures |Edges(false, gap, Packets(PROTO1, code, 64, 2))| == 260
            && Edges(false, gap, Packets(PROTO1, code, 64, 2))[2] == SYNC
    ensures var r := Feed(PowerUp(), Edges(false, gap, Packets(PROTO1, code, 64, 2)) + [SYNC]);
            WellFormed(r) && r.pendingCount == 130 && r.pending[0] == SYNC && r.changeCount == 1 && r.timings[0] == SYNC
  {
    hide Pulses, Edges, Packets, Pow2, Edge, Close, Measures, Recording;
    var r0, edges := PowerUp(), Edges(false, gap, Packets(PROTO1, code, 64, 2));
    TwoPacketsAre(code, 64, gap);
    HeardExactly(edges);
    HeardSplits(code, 64, gap, edges);
    assert edges[2] == SYNC && edges[132] == SYNC;
    var lead, d, header, tail, more := edges[..3], edges[3..131], edges[131..133], edges[133..], [SYNC];
    SyncStartsRecording(gap, edges[1], SYNC, d);
    var r1 := Feed(r0, lead);
    RecordsAll(r1, SYNC, d, code, 64, 0);
    assert d[0..] == d;
    var r2 := Feed(r1, d);
    HeaderHandsOver(r2, SYNC, d, code, 64, header[0], SYNC);
    var r3 := Feed(r2, header);
    var r4 := Feed(r3, tail);
    FeedKeepsPending(r3, tail);
    assert tail == Pulses(code, 64, 64)[..127];
    assert tail == tail[..124] + [tail[124], tail[125], tail[126]];
    LastThree(r3, tail[..124], tail[124], tail[125], tail[126]);
    PulsesDiffer(code, 64, 124);
    GapRestarts(r4);
    assert edges + more == lead + (d + (header + (tail + more)));
    FeedAppend(r0, lead, d + (header + (tail + more)));
    FeedAppend(r1, d, header + (tail + more));
    FeedAppend(r2, header, tail + more);
    FeedAppend(r3, tail, more);
    assert [SYNC][1..] == [] && Feed(r4, [SYNC]) == Feed(Edge(r4, SYNC), []);
  }
}
