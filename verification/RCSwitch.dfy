/** The 433 MHz codec of `lib/RCSwitch/src/RCSwitch.cpp`: the pulse printer `send`, the edge recorder
    `handleInterrupt`, and the decoder behind `available`. Durations are 32-bit microsecond counts. */
module RCSwitch {
  import opened Common

  const MAX_CHANGES: nat := 131
  const SEPARATION_LIMIT: nat := 3600
  const TOLERANCE_PERCENT: nat := 60
  const TWO_64: nat := 0x1_0000_0000_0000_0000

  datatype HighLow = HighLow(high: nat, low: nat)

  datatype Protocol = Protocol(
    pulseLength: nat, preambleFactor: nat, preamble: HighLow, headerFactor: nat, header: HighLow,
    zero: HighLow, one: HighLow, inverted: bool, guard: nat)

  /** The built-in protocol table has this one entry. */
  const PROTO1 := Protocol(350, 0, HighLow(0, 0), 1, HighLow(1, 31), HighLow(1, 3), HighLow(3, 1), false, 0)

  function U32(x: int): (r: nat)
    ensures r < TWO_32
  {
    x % TWO_32
  }

  /** `diff`: the unsigned difference read as a signed one, without its sign. */
  function Diff(a: nat, b: nat): nat {
    var x := U32(a - b);
    if x < 0x8000_0000 then x else TWO_32 - x
  }

  // ---------------------------------------------------------------- transmission

  /** A stretch of constant level on the transmitter pin. */
  datatype Level = Level(high: bool, micros: nat)

  function Transmit(p: Protocol, pulse: HighLow): seq<Level> {
    (if pulse.high > 0 then [Level(!p.inverted, p.pulseLength * pulse.high)] else [])
    + (if pulse.low > 0 then [Level(p.inverted, p.pulseLength * pulse.low)] else [])
  }

  function Pow2(n: nat): (r: nat)
    ensures r > 0
  {
    if n == 0 then 1 else 2 * Pow2(n - 1)
  }

  /** `(code & (1ULL << i)) != 0` */
  predicate BitSet(code: nat, i: nat) { code / Pow2(i) % 2 == 1 }

  function BitPulse(p: Protocol, code: nat, i: nat): HighLow {
    if BitSet(code, i) then p.one else p.zero
  }

  function Times(p: Protocol, pulse: HighLow, n: nat): seq<Level> {
    if n == 0 then [] else Times(p, pulse, n - 1) + Transmit(p, pulse)
  }

  /** The first `done` bits of the code word, most significant first. */
  function CodeLevels(p: Protocol, code: nat, length: nat, done: nat): seq<Level>
    requires done <= length
  {
    if done == 0 then [] else CodeLevels(p, code, length, done - 1) + Transmit(p, BitPulse(p, code, length - done))
  }

  function Packet(p: Protocol, code: nat, length: nat): seq<Level> {
    Times(p, p.preamble, p.preambleFactor / 2 + p.preambleFactor % 2)
    + Times(p, p.header, p.headerFactor)
    + CodeLevels(p, code, length, length)
    + (if p.guard > 0 then [Level(false, p.pulseLength * p.guard)] else [])
  }

  function Packets(p: Protocol, code: nat, length: nat, repeats: nat): seq<Level> {
    if repeats == 0 then [] else Packets(p, code, length, repeats - 1) + Packet(p, code, length)
  }

  /** The preamble and header loops of `send`. */
  method SendTimes(p: Protocol, pulse: HighLow, n: nat) returns (wave: seq<Level>)
    ensures wave == Times(p, pulse, n)
  {
    wave := [];
    for i := 0 to n
      invariant wave == Times(p, pulse, i)
    {
      wave := wave + Transmit(p, pulse);
    }
  }

  /** The code word loop of `send`, from bit length - 1 down to bit 0. */
  method SendCode(p: Protocol, code: nat, length: nat) returns (wave: seq<Level>)
    ensures wave == CodeLevels(p, code, length, length)
  {
    wave := [];
    var i := length - 1;
    while i >= 0
      invariant -1 <= i < length
      invariant wave == CodeLevels(p, code, length, length - 1 - i)
    {
      if BitSet(code, i) {
        wave := wave + Transmit(p, p.one);
      } else {
        wave := wave + Transmit(p, p.zero);
      }
      i := i - 1;
    }
  }

  /** `send`: what it drives onto the pin. */
  method Send(p: Protocol, code: nat, length: nat, repeats: nat) returns (wave: seq<Level>)
    ensures wave == Packets(p, code, length, repeats)
  {
    hide CodeLevels, Times;
    wave := [];
    for r := 0 to repeats
      invariant wave == Packets(p, code, length, r)
    {
      var preamble := SendTimes(p, p.preamble, p.preambleFactor / 2 + p.preambleFactor % 2);
      var header := SendTimes(p, p.header, p.headerFactor);
      var word := SendCode(p, code, length);
      var guard := if p.guard > 0 then [Level(false, p.pulseLength * p.guard)] else [];
      wave := wave + (preamble + header + word + guard);
    }
  }

  /** The durations between level changes a receiver sees: `level` has lasted `gap` when the wave
      begins. The stretch still running at the end has not been measured yet. */
  function Edges(level: bool, gap: nat, wave: seq<Level>): seq<nat>
    decreases |wave|
  {
    if wave == [] then []
    else if wave[0].high == level then Edges(level, gap + wave[0].micros, wave[1..])
    else [gap] + Edges(wave[0].high, wave[0].micros, wave[1..])
  }

  // ---------------------------------------------------------------- the receiver

  datatype Receiver = Receiver(
    changeCount: nat, lastTime: nat, buf: seq<nat>, timings: seq<nat>,
    pending: seq<nat>, pendingCount: nat)

  ghost predicate WellFormed(r: Receiver) {
    && |r.buf| == 4 && |r.timings| == MAX_CHANGES && |r.pending| == MAX_CHANGES
    && r.changeCount <= MAX_CHANGES && r.pendingCount <= MAX_CHANGES
  }

  /** All statics zero. */
  function PowerUp(): Receiver {
    Receiver(0, 0, [0, 0, 0, 0], seq(MAX_CHANGES, _ => 0), seq(MAX_CHANGES, _ => 0), 0)
  }

  function HandOver(r: Receiver): (h: Receiver)
    requires WellFormed(r)
    ensures WellFormed(h)
  {
    if r.pendingCount != 0 || r.changeCount == 0 then r
    else r.(pending := r.timings[..r.changeCount] + r.pending[r.changeCount..], pendingCount := r.changeCount)
  }

  /** Three durations in a row, the newest left out, are about equal. */
  predicate Even(buf: seq<nat>)
    requires |buf| == 4
  {
    Diff(buf[3], buf[2]) < 50 && Diff(buf[2], buf[1]) < 50
  }

  /** The newest durations repeat the beginning of the recorded frame. */
  predicate RepeatsFrame(r: Receiver, duration: nat)
    requires WellFormed(r)
  {
    || Diff(duration, r.timings[0]) < 400
    || (&& Diff(r.buf[3], r.timings[1]) < 50 && Diff(r.buf[2], r.timings[2]) < 50 && Diff(r.buf[1], r.timings[3]) < 50
        && r.changeCount > 25)
  }

  /** The block of `handleInterrupt` entered at a gap between two frames. */
  function Separate(r: Receiver, duration: nat): (s: Receiver)
    requires WellFormed(r)
    ensures WellFormed(s)
  {
    var h := if RepeatsFrame(r, duration) then HandOver(r) else r;
    if Even(h.buf) then
      h.(timings := h.timings[1 := h.buf[3]][2 := h.buf[2]][3 := h.buf[1]], changeCount := 4)
    else h.(changeCount := 0)
  }

  function Record(r: Receiver, duration: nat): (s: Receiver)
    requires WellFormed(r)
    ensures WellFormed(s)
  {
    var c := if r.changeCount >= MAX_CHANGES then 0 else r.changeCount;
    if c > 0 && duration < 100
    then r.(changeCount := c, timings := r.timings[c - 1 := U32(r.timings[c - 1] + duration)])
    else r.(changeCount := c + 1, timings := r.timings[c := duration])
  }

  predicate Separates(r: Receiver, duration: nat)
    requires WellFormed(r)
  {
    duration > SEPARATION_LIMIT || (Even(r.buf) && r.changeCount > 25)
  }

  /** `handleInterrupt` for an edge that comes `duration` after the last one. */
  function Edge(r: Receiver, duration: nat): (s: Receiver)
    requires WellFormed(r)
    ensures WellFormed(s)
  {
    var shifted := r.(buf := [duration, r.buf[0], r.buf[1], r.buf[2]], lastTime := U32(r.lastTime + duration));
    var separated := if Separates(shifted, duration) then Separate(shifted, duration) else shifted;
    Record(separated, duration)
  }

  ghost function Feed(r: Receiver, durations: seq<nat>): (s: Receiver)
    requires WellFormed(r)
    ensures WellFormed(s)
    decreases |durations|
  {
    if durations == [] then r else Feed(Edge(r, durations[0]), durations[1..])
  }

  // ---------------------------------------------------------------- decoding

  datatype Decoded = Decoded(value: nat, bitLength: nat, delay: nat)

  /** Which of the protocol's two bit shapes a pair of durations is, if any. */
  function ReadBit(p: Protocol, delay: nat, tolerance: nat, high: nat, low: nat): Option<nat> {
    if Diff(high, U32(delay * p.zero.high)) < tolerance && Diff(low, U32(delay * p.zero.low)) < tolerance then Some(0)
    else if Diff(high, U32(delay * p.one.high)) < tolerance
        && Diff(low, U32(delay * p.one.low)) < tolerance then Some(1)
    else None
  }

  /** The loop of `receiveProtocol` from index `i` on, two durations a round. */
  function ReadBits(p: Protocol, t: seq<nat>, delay: nat, tolerance: nat, i: nat, end: nat, code: nat): Option<nat>
    requires end < |t|
    decreases end - i
  {
    if i >= end then Some(code)
    else match ReadBit(p, delay, tolerance, t[i], t[i + 1])
      case None => None
      case Some(b) => ReadBits(p, t, delay, tolerance, i + 2, end, (2 * code) % TWO_64 + b)
  }

  /** `bitChangeCount`: 32-bit, so a hand-over of one duration wraps before it is clamped. */
  function BitChanges(changeCount: nat): (n: nat)
    ensures n <= 128
    ensures changeCount >= 2 ==> n <= changeCount - 2
  {
    var n := U32(changeCount - 2);
    if n > 128 then 128 else n
  }

  /** `receiveProtocol` for the one built-in protocol: first timing 0, data from index 1. */
  function Decode(t: seq<nat>, changeCount: nat): Option<Decoded>
    requires |t| == MAX_CHANGES
  {
    var delay := t[0] / PROTO1.header.low;
    if delay == 0 then None
    else
      var tolerance := U32(delay * TOLERANCE_PERCENT) / 100;
      var n := BitChanges(changeCount);
      match ReadBits(PROTO1, t, delay, tolerance, 1, 1 + n, 0)
      case None => None
      case Some(code) => if n > 14 then Some(Decoded(code, n / 2, delay)) else None
  }
}
