/** The receiving half of `RCSwitch` with its static arrays, and `available()` interrupted at any
    point by the interrupt handler. */
module RCSwitchReceiver {
  import opened Common
  import opened RCSwitch
  import opened RCSwitchFrames

  class RCSwitchRx {
    const timings: array<nat>
    const buftimings: array<nat>
    const pendingTimings: array<nat>
    var changeCount: nat
    var lastTime: nat
    var pendingChangeCount: nat
    var received: Option<Decoded>           // the frame nReceivedValue and its companions describe

    ghost predicate Valid()
      reads this, timings, buftimings, pendingTimings
    {
      && timings.Length == MAX_CHANGES && pendingTimings.Length == MAX_CHANGES && buftimings.Length == 4
      && timings != buftimings && timings != pendingTimings && buftimings != pendingTimings
      && WellFormed(View())
    }

    ghost function View(): Receiver
      reads this, timings, buftimings, pendingTimings
    {
      Receiver(changeCount, lastTime, buftimings[..], timings[..], pendingTimings[..], pendingChangeCount)
    }

    constructor ()
      ensures Valid() && View() == PowerUp() && received.None?
      ensures fresh(timings) && fresh(buftimings) && fresh(pendingTimings)
    {
      timings := new nat[MAX_CHANGES](_ => 0);
      buftimings := new nat[4](_ => 0);
      pendingTimings := new nat[MAX_CHANGES](_ => 0);
      changeCount, lastTime, pendingChangeCount := 0, 0, 0;
      received := None;
    }

    /** `handOverRecorded`: the count is written last. */
    method HandOverRecorded()
      requires Valid()
      modifies this`pendingChangeCount, pendingTimings
      ensures Valid() && View() == HandOver(old(View()))
    {
      if pendingChangeCount != 0 || changeCount == 0 { return; }
      ghost var before := pendingTimings[..];
      for i := 0 to changeCount
        invariant forall j :: 0 <= j < i ==> pendingTimings[j] == timings[j]
        invariant forall j :: i <= j < MAX_CHANGES ==> pendingTimings[j] == before[j]
      {
        pendingTimings[i] := timings[i];
      }
      assert pendingTimings[..] == timings[..changeCount] + before[changeCount..];
      pendingChangeCount := changeCount;
    }

    method SeparateFrames(duration: nat)
      requires Valid()
      modifies this`pendingChangeCount, this`changeCount, pendingTimings, timings
      ensures Valid() && View() == Separate(old(View()), duration)
    {
      hide Diff;
      if Diff(duration, timings[0]) < 400
         || (Diff(buftimings[3], timings[1]) < 50 && Diff(buftimings[2], timings[2]) < 50
             && Diff(buftimings[1], timings[3]) < 50 && changeCount > 25) {
        HandOverRecorded();
      }
      changeCount := 0;
      if Diff(buftimings[3], buftimings[2]) < 50 && Diff(buftimings[2], buftimings[1]) < 50 {
        ghost var t: seq<nat> := timings[..];
        timings[1] := buftimings[3];
        timings[2] := buftimings[2];
        timings[3] := buftimings[1];
        assert timings[..] == t[1 := buftimings[3]][2 := buftimings[2]][3 := buftimings[1]];
        changeCount := 4;
      }
    }

    method StoreDuration(duration: nat)
      requires Valid()
      modifies this`changeCount, timings
      ensures Valid() && View() == Record(old(View()), duration)
    {
      if changeCount >= MAX_CHANGES { changeCount := 0; }
      ghost var t: seq<nat> := timings[..];
      if changeCount > 0 && duration < 100 {
        timings[changeCount - 1] := U32(timings[changeCount - 1] + duration);
        assert timings[..] == t[changeCount - 1 := U32(t[changeCount - 1] + duration)];
      } else {
        timings[changeCount] := duration;
        assert timings[..] == t[changeCount := duration];
        changeCount := changeCount + 1;
      }
    }

    /** `handleInterrupt` at clock reading `time`. */
    method HandleInterrupt(time: nat)
      requires Valid() && time < TWO_32
      modifies this`pendingChangeCount, this`changeCount, this`lastTime, pendingTimings, timings, buftimings
      ensures Valid() && View() == Edge(old(View()), U32(time - old(lastTime)))
    {
      hide Diff, Separate, Record;
      var duration := U32(time - lastTime);
      ghost var b := buftimings[..];
      buftimings[3] := buftimings[2];
      buftimings[2] := buftimings[1];
      buftimings[1] := buftimings[0];
      buftimings[0] := duration;
      assert buftimings[..] == [duration, b[0], b[1], b[2]];
      ClockAdds(time, lastTime);
      lastTime := time;
      if duration > SEPARATION_LIMIT
         || (Diff(buftimings[3], buftimings[2]) < 50 && Diff(buftimings[2], buftimings[1]) < 50 && changeCount > 25) {
        SeparateFrames(duration);
      }
      StoreDuration(duration);
    }

    /** The interrupt fires any number of times, at any clock readings; `edges` are the durations it
        measures. */
    method Interrupts() returns (ghost edges: seq<nat>)
      requires Valid()
      modifies this`pendingChangeCount, this`changeCount, this`lastTime, pendingTimings, timings, buftimings
      ensures Valid() && View() == Feed(old(View()), edges)
      ensures old(pendingChangeCount) != 0 ==>
                pendingTimings[..] == old(pendingTimings[..]) && pendingChangeCount == old(pendingChangeCount)
    {
      hide Edge, WellFormed;
      edges := [];
      ghost var start := View();
      assert WellFormed(start);
      var count: nat :| 0 <= count;
      for i := 0 to count
        invariant Valid() && View() == Feed(start, edges)
      {
        var time: nat :| 0 <= time;
        ghost var duration := U32(time % TWO_32 - lastTime);
        FeedOneMore(start, edges, duration);
        HandleInterrupt(time % TWO_32);
        edges := edges + [duration];
      }
      if start.pendingCount != 0 { FeedKeepsPending(start, edges); }
    }

    /** One access to the shared buffer by the decoder, with interrupts before it. The index is
        inside the buffer and, for a hand-over of at least two durations, inside the frame. */
    method ReadPending(i: nat, changeCount: nat) returns (duration: nat, ghost edges: seq<nat>)
      requires Valid() && pendingChangeCount == changeCount != 0
      requires i < MAX_CHANGES && (changeCount >= 2 ==> i < changeCount)
      modifies this`pendingChangeCount, this`changeCount, this`lastTime, pendingTimings, timings, buftimings
      ensures Valid() && View() == Feed(old(View()), edges)
      ensures pendingChangeCount == changeCount && pendingTimings[..] == old(pendingTimings[..])
      ensures duration == old(pendingTimings[i])
    {
      edges := Interrupts();
      duration := pendingTimings[i];
      assert duration == pendingTimings[..][i];
    }

    /** `receiveProtocol`, every buffer access open to interruption: it decodes the frame that was
        waiting when it began. */
    method ReceiveProtocol(changeCount: nat) returns (result: Option<Decoded>, ghost edges: seq<nat>)
      requires Valid() && pendingChangeCount == changeCount != 0
      modifies this`pendingChangeCount, this`changeCount, this`lastTime, pendingTimings, timings, buftimings
      ensures Valid() && View() == Feed(old(View()), edges)
      ensures pendingChangeCount == changeCount && pendingTimings[..] == old(pendingTimings[..])
      ensures result == Decode(old(pendingTimings[..]), changeCount)
    {
      hide ReadBit, BitChanges, WellFormed, Edge, Feed;
      ghost var (start, frame) := (View(), pendingTimings[..]);
      var sync;
      sync, edges := ReadPending(0, changeCount);
      var delay := sync / PROTO1.header.low;
      if delay == 0 { return None, edges; }
      var tolerance := U32(delay * TOLERANCE_PERCENT) / 100;
      var bitChangeCount := BitChanges(changeCount);
      var code: nat, i: nat := 0, 1;
      ghost var target := ReadBits(PROTO1, frame, delay, tolerance, 1, 1 + bitChangeCount, 0);
      while i < 1 + bitChangeCount
        invariant Valid() && pendingChangeCount == changeCount && pendingTimings[..] == frame
        invariant View() == Feed(start, edges)
        invariant 1 <= i <= 2 + bitChangeCount
        invariant ReadBits(PROTO1, frame, delay, tolerance, i, 1 + bitChangeCount, code) == target
      {
        ghost var more, still;
        var high, low;
        high, more := ReadPending(i, changeCount);
        low, still := ReadPending(i + 1, changeCount);
        FeedAppend(start, edges, more);
        FeedAppend(start, edges + more, still);
        edges := edges + more + still;
        var bit := ReadBit(PROTO1, delay, tolerance, high, low);
        if bit.None? { return None, edges; }
        code := (2 * code) % TWO_64 + bit.value;
        i := i + 2;
      }
      if bitChangeCount > 14 { return Some(Decoded(code, bitChangeCount / 2, delay)), edges; }
      return None, edges;
    }

    /** `available()`: `before` are the edges up to its look at the buffer, `during` those up to the release,
        `after` the rest. What it decodes is the one complete frame it found, unchanged; the reader
        releases the buffer last. */
    method Available() returns (waiting: bool, ghost before: seq<nat>, ghost during: seq<nat>, ghost after: seq<nat>)
      requires Valid()
      modifies this, pendingTimings, timings, buftimings
      ensures Valid()
      ensures var found := Feed(old(View()), before);
              && received == (if found.pendingCount != 0 && Decode(found.pending, found.pendingCount).Some?
                              then Decode(found.pending, found.pendingCount) else old(received))
              && View() == Feed(if found.pendingCount != 0 then Released(Feed(found, during)) else found, after)
      ensures waiting <==> received.Some? && received.value.value != 0
    {
      hide Decode, Edge, Feed;
      before := Interrupts();
      during := [];
      ghost var found := View();
      var changeCount := pendingChangeCount;
      if changeCount != 0 {
        var result;
        result, during := ReceiveProtocol(changeCount);
        if result.Some? { received := result; }
        ghost var more := Interrupts();
        FeedAppend(found, during, more);
        during := during + more;
        assert View() == Feed(found, during);
        pendingChangeCount := 0;
        assert View() == Released(Feed(found, during));
      }
      after := Interrupts();
      waiting := received.Some? && received.value.value != 0;
    }

    /** The interrupt fires once for each of these durations. */
    method Measure(durations: seq<nat>)
      requires Valid() && Short(durations)
      modifies this`pendingChangeCount, this`changeCount, this`lastTime, pendingTimings, timings, buftimings
      ensures Valid() && View() == Feed(old(View()), durations)
    {
      hide Edge, WellFormed;
      ghost var start := View();
      assert WellFormed(start);
      for i := 0 to |durations|
        invariant Valid() && View() == Feed(start, durations[..i])
      {
        FeedOneMore(start, durations[..i], durations[i]);
        ClockGives(lastTime, durations[i]);
        HandleInterrupt(U32(lastTime + durations[i]));
        assert durations[..i + 1] == durations[..i] + [durations[i]];
      }
      assert durations[..|durations|] == durations;
    }
  }

  /** Sender, air and receiver together: two repeats of a code, sent with the built-in protocol to a
      receiver just switched on, after any idle gap and with any edges behind them, each duration measured
      with an error of up to 186 microseconds. Whenever else the interrupt fires, `available` reports that
      code, its length and the pulse length that follows from the first sync gap. */
  method SendAndReceive(code: nat, n: nat, gap: nat, errors: seq<int>, more: seq<nat>)
      returns (rx: RCSwitchRx, waiting: bool)
    requires 8 <= n <= 64 && 0 < code < Pow2(n) && gap < TWO_32 && Short(more)
    requires |errors| == 4 * n + 3 && forall i :: 0 <= i < |errors| ==> -186 <= errors[i] <= 186
    ensures fresh(rx) && waiting && rx.received == Some(Decoded(code, n, (10_850 + errors[1]) / 31))
  {
    hide Edge, Feed, Decode, Edges, Packets, Pow2;
    rx := new RCSwitchRx();
    var wave := Send(PROTO1, code, n, 2);
    var edges := Edges(false, gap, wave);
    EdgesAre(code, n, gap, wave);
    var measured := Disturbed(edges, errors);
    rx.Measure(measured + more);
    TwoRepeatsAreReceived(code, n, gap, measured, more);
    ghost var found := rx.View();
    ghost var before, during, after;
    waiting, before, during, after := rx.Available();
    FeedKeepsPending(found, before);
  }

  /** The durations after the first, as measured. */
  function Disturbed(edges: seq<nat>, errors: seq<int>): (measured: seq<nat>)
    requires |edges| == |errors| + 1 && forall i :: 0 <= i < |errors| ==> -186 <= errors[i] <= 186
    requires edges[0] < TWO_32 && forall i :: 1 <= i < |edges| ==> 350 <= edges[i] <= 10_850
    ensures Heard(measured, edges) && Short(measured)
    ensures forall i :: 1 <= i < |edges| ==> measured[i] == edges[i] + errors[i - 1]
  {
    seq(|edges|, i requires 0 <= i < |edges| => if i == 0 then edges[0] else edges[i] + errors[i - 1])
  }

  /** Durations the 32-bit clock can measure. */
  ghost predicate Short(durations: seq<nat>) { forall i :: 0 <= i < |durations| ==> durations[i] < TWO_32 }

  lemma EdgesAre(code: nat, n: nat, gap: nat, wave: seq<Level>)
    requires 0 < n <= 64 && gap < TWO_32 && wave == Packets(PROTO1, code, n, 2)
    ensures var edges := Edges(false, gap, wave);
            && |edges| == 4 * n + 4 && edges[0] == gap && edges[2] == 10_850
            && forall i :: 1 <= i < |edges| ==> 350 <= edges[i] <= 10_850
  {
    hide Edges, Packets, Pulses;
    TwoPacketsAre(code, n, gap);
    var d := Pulses(code, n, n);
    forall i | 0 <= i < |d| ensures 350 <= d[i] <= 10_850 { PulsesDiffer(code, n, i); }
  }

  lemma ClockGives(last: nat, duration: nat)
    requires duration < TWO_32
    ensures U32(U32(last + duration) - last) == duration
  {}

  lemma FeedOneMore(r: Receiver, durations: seq<nat>, duration: nat)
    requires WellFormed(r)
    ensures Feed(r, durations + [duration]) == Edge(Feed(r, durations), duration)
  {
    hide Edge, WellFormed;
    FeedAppend(r, durations, [duration]);
    var s := Feed(r, durations);
    assert [duration][1..] == [] && Feed(s, [duration]) == Feed(Edge(s, duration), []);
  }

  lemma ClockAdds(time: nat, last: nat)
    requires time < TWO_32
    ensures U32(last + U32(time - last)) == time
  {
  }
}
