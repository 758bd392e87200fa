/** Whole runs of the sender on its own: it always stops, repeats nothing too often, and never
    puts anything but the right slice of the data on the wire, whatever the device answers. */
module TransferSenderRuns {
  import opened Common
  import opened TransferSender
  import Base64

  /** One pass of the loop in `run()`: the responses queued since the last one, and the clock. */
  datatype Pass = Pass(pending: seq<Response>, now: int)

  /** Byte offset of a piece. */
  function Offset(data: seq<Byte>, number: nat): (o: nat)
    ensures o <= |data|
  {
    Min(PIECE_SIZE * number, |data|)
  }

  /** The bytes piece `number` stands for: 100 bytes from offset 100 * number on. */
  function Slice(data: seq<Byte>, number: nat): seq<Byte> {
    data[Offset(data, number)..Offset(data, number + 1)]
  }

  /** The message that carries piece `number`. */
  function PieceMessage(data: seq<Byte>, number: nat): Request {
    Piece(number, Base64.Encode(Slice(data, number)))
  }

  function PieceCount(bytes: nat): nat { (bytes + PIECE_SIZE - 1) / PIECE_SIZE }

  // ---------------------------------------------------------------- what every pass keeps

  /** The sender's counters agree with each other. */
  ghost predicate Consistent(s: Sender, data: seq<Byte>) {
    && s.state != Idle
    && s.remaining <= |data|
    && |data| - s.remaining == Offset(data, s.pieceNumber)
    && s.retries <= MAX_PIECE_RETRIES
    && (s.last.None? <==> s.pieceNumber == 0)
    && (s.last.Some? ==> s.last.value == LastPiece(s.pieceNumber - 1, PIECE_SIZE * (s.pieceNumber - 1),
                                                   |Slice(data, s.pieceNumber - 1)|))
    && (s.last.Some? ==> 0 < |Slice(data, s.pieceNumber - 1)|)
    && (s.state == WaitPieceAck ==> s.last.Some?)
    && (s.state == WaitStartAck ==> s.last.None? && s.resent.None?)
    && (s.state == WaitCheckAck ==> s.remaining == 0)
    && (s.resent.Some? ==> s.resent.value < s.pieceNumber)
  }

  lemma StartedIsConsistent(data: seq<Byte>, now: int)
    ensures Consistent(Started(FRESH, data, now), data)
  {
  }

  lemma ResponseKeepsConsistent(s: Sender, data: seq<Byte>, m: Response, now: int)
    requires Consistent(s, data)
    ensures Consistent(ProcessResponse(s, m, now), data)
  {
  }

  lemma {:induction false} DrainKeepsConsistent(s: Sender, data: seq<Byte>, pending: seq<Response>, now: int)
    requires Consistent(s, data)
    ensures Consistent(Drain(s, pending, now), data)
    decreases |pending|
  {
    if pending != [] {
      ResponseKeepsConsistent(s, data, pending[0], now);
      DrainKeepsConsistent(ProcessResponse(s, pending[0], now), data, pending[1..], now);
    }
  }

  /** Acting keeps the counters consistent, and what goes out is the message of the piece the
      counters then name as the last one. */
  lemma ActKeepsConsistent(s: Sender, data: seq<Byte>, now: int)
    requires Consistent(s, data)
    ensures SliceValid(s, data)
    ensures var (t, out) := Act(s, data, now);
            && Consistent(t, data)
            && (out == [] || (t.last.Some? && out == [PieceMessage(data, t.last.value.number)]))
  {
    if s.state == SendingFw && s.remaining > 0 {
      SendKeepsConsistent(s, data, now);
    } else if Resends(s, now) {
      ResendRepeats(s, data);
    }
  }

  lemma SendKeepsConsistent(s: Sender, data: seq<Byte>, now: int)
    requires Consistent(s, data) && s.remaining > 0
    ensures Consistent(SendPiece(s, data, now), data)
    ensures SendPiece(s, data, now).last == Some(NextPiece(s, data)) && NextPiece(s, data).number == s.pieceNumber
    ensures Piece(s.pieceNumber, PieceText(data, NextPiece(s, data))) == PieceMessage(data, s.pieceNumber)
  {
    hide Slice, Offset;
    SendIsNextSlice(s, data);
  }

  lemma ResendRepeats(s: Sender, data: seq<Byte>)
    requires Consistent(s, data) && s.last.Some?
    ensures PieceText(data, s.last.value) == Base64.Encode(Slice(data, s.last.value.number))
  {
    var n := s.last.value.number;
    assert Offset(data, n) == PIECE_SIZE * n;
  }

  lemma SendIsNextSlice(s: Sender, data: seq<Byte>)
    requires Consistent(s, data) && s.remaining > 0
    ensures var p := NextPiece(s, data);
            && p == LastPiece(s.pieceNumber, PIECE_SIZE * s.pieceNumber, |Slice(data, s.pieceNumber)|)
            && 0 < p.length
            && |data| - (s.remaining - p.length) == Offset(data, s.pieceNumber + 1)
            && PieceText(data, p) == Base64.Encode(Slice(data, s.pieceNumber))
  {
    var n := s.pieceNumber;
    assert Offset(data, n) == PIECE_SIZE * n;
    assert data[PIECE_SIZE * n..Min(PIECE_SIZE * n + |Slice(data, n)|, |data|)] == Slice(data, n);
  }

  lemma PassKeepsConsistent(s: Sender, data: seq<Byte>, pass: Pass)
    requires Consistent(s, data)
    ensures SliceValid(s, data)
    ensures var (t, out) := ProcessState(s, data, pass.pending, pass.now);
            && Consistent(t, data)
            && (out == [] || (t.last.Some? && out == [PieceMessage(data, t.last.value.number)]))
  {
    DrainKeepsConsistent(s, data, pass.pending, pass.now);
    ActKeepsConsistent(Drain(s, pass.pending, pass.now), data, pass.now);
  }

  // ---------------------------------------------------------------- runs

  /** The loop of `run()`: it leaves as soon as the state is DONE or ERROR. */
  ghost function Run(s: Sender, data: seq<Byte>, passes: seq<Pass>): (r: (Sender, seq<Request>))
    requires Consistent(s, data)
    ensures Consistent(r.0, data)
    decreases |passes|
  {
    if passes == [] || Over(s) then (s, [])
    else
      PassKeepsConsistent(s, data, passes[0]);
      var (t, out) := ProcessState(s, data, passes[0].pending, passes[0].now);
      var (u, more) := Run(t, data, passes[1..]);
      (u, out + more)
  }

  /** The clock does not run backwards. */
  ghost predicate ClockRuns(clock: int, passes: seq<Pass>)
    decreases |passes|
  {
    passes == [] || (clock <= passes[0].now && ClockRuns(passes[0].now, passes[1..]))
  }

  /** The passes that are not within the same millisecond as the one before. */
  ghost function Ticks(clock: int, passes: seq<Pass>): nat
    decreases |passes|
  {
    if passes == [] then 0 else (if passes[0].now > clock then 1 else 0) + Ticks(passes[0].now, passes[1..])
  }

  // ---------------------------------------------------------------- termination

  /** How many more times the sender can re-arm its timer: five per unsent piece, the repeats left
      for the one in flight, and the waits around them. */
  ghost function Budget(s: Sender): nat
    requires s.retries <= MAX_PIECE_RETRIES
  {
    match s.state
    case WaitStartAck => 5 * PieceCount(s.remaining) + 3
    case SendingFw => 5 * PieceCount(s.remaining) + 2
    case WaitPieceAck => 5 * PieceCount(s.remaining) + (MAX_PIECE_RETRIES - s.retries) + 3
    case WaitCheckAck => 1
    case _ => 0
  }

  const WAITING := {WaitStartAck, WaitPieceAck, WaitCheckAck}

  /** Lexicographic in (bytes left, retries left, time left), written as one number. */
  ghost function Weight(s: Sender, clock: int): nat
    requires s.retries <= MAX_PIECE_RETRIES
  {
    if Over(s) then 0
    else Budget(s) * (TIMEOUT_MS + 2) + TimeLeft(s, clock)
  }

  ghost function TimeLeft(s: Sender, clock: int): (r: nat)
    ensures r <= TIMEOUT_MS + 1
  {
    if clock <= s.timer then TIMEOUT_MS + 1
    else if clock - s.timer >= TIMEOUT_MS + 1 then 0
    else TIMEOUT_MS + 1 - (clock - s.timer)
  }

  /** A response either leaves the waiting as it is or uses up budget. */
  ghost predicate Spends(s: Sender, t: Sender)
    requires s.retries <= MAX_PIECE_RETRIES && t.retries <= MAX_PIECE_RETRIES
  {
    Over(t) || Budget(t) < Budget(s)
    || (t.state == s.state && t.timer == s.timer && Budget(t) == Budget(s))
  }

  lemma ResponseSpends(s: Sender, m: Response, now: int)
    requires s.retries <= MAX_PIECE_RETRIES
    ensures ProcessResponse(s, m, now).retries <= MAX_PIECE_RETRIES
    ensures Spends(s, ProcessResponse(s, m, now))
    ensures Over(s) ==> Over(ProcessResponse(s, m, now))
  {
  }

  lemma {:induction false} DrainSpends(s: Sender, pending: seq<Response>, now: int)
    requires s.retries <= MAX_PIECE_RETRIES
    ensures Drain(s, pending, now).retries <= MAX_PIECE_RETRIES
    ensures Spends(s, Drain(s, pending, now))
    ensures Over(s) ==> Over(Drain(s, pending, now))
    ensures Drain(s, pending, now).timer in {s.timer, now}
    decreases |pending|
  {
    if pending != [] {
      ResponseSpends(s, pending[0], now);
      DrainSpends(ProcessResponse(s, pending[0], now), pending[1..], now);
    }
  }

  lemma ActSpends(s: Sender, data: seq<Byte>, now: int)
    requires Consistent(s, data)
    ensures SliceValid(s, data) && Act(s, data, now).0.retries <= MAX_PIECE_RETRIES
    ensures var t := Act(s, data, now).0;
            && t.timer in {s.timer, now}
            && (Over(s) ==> t == s)
            && (Over(t) || Budget(t) < Budget(s) || (t == s && s.state in WAITING && !TimedOut(s, now)))
  {
    if s.state == SendingFw && s.remaining > 0 {
      PieceCountDrops(s.remaining);
    }
  }

  lemma PieceCountDrops(bytes: nat)
    requires bytes > 0
    ensures PieceCount(bytes - Min(bytes, PIECE_SIZE)) == PieceCount(bytes) - 1
  {
  }

  /** Every pass of a run that goes on lowers the weight, or at least keeps it while the clock stands. */
  lemma PassLowersWeight(s: Sender, data: seq<Byte>, pass: Pass, clock: int)
    requires Consistent(s, data) && !Over(s) && s.timer <= clock <= pass.now
    ensures SliceValid(s, data) && ProcessState(s, data, pass.pending, pass.now).0.retries <= MAX_PIECE_RETRIES
    ensures var t := ProcessState(s, data, pass.pending, pass.now).0;
            && t.timer <= pass.now && Weight(t, pass.now) <= Weight(s, clock)
            && (pass.now > clock ==> Weight(t, pass.now) < Weight(s, clock))
  {
    hide Budget, Act, Drain;
    DrainKeepsConsistent(s, data, pass.pending, pass.now);
    DrainSpends(s, pass.pending, pass.now);
    var m := Drain(s, pass.pending, pass.now);
    ActSpends(m, data, pass.now);
    WeightDrops(s, Act(m, data, pass.now).0, clock, pass.now);
  }

  lemma WeightDrops(s: Sender, t: Sender, clock: int, now: int)
    requires s.retries <= MAX_PIECE_RETRIES && t.retries <= MAX_PIECE_RETRIES
    requires !Over(s) && s.state != Idle && s.timer <= clock <= now
    requires Over(t) || Budget(t) < Budget(s)
          || (Budget(t) == Budget(s) && t.state == s.state && t.timer == s.timer && t.state in WAITING
             && !TimedOut(t, now))
    ensures Weight(t, now) <= Weight(s, clock) && (now > clock ==> Weight(t, now) < Weight(s, clock))
  {
    if Over(t) {
      assert Weight(s, clock) > 0 by { WaitingHasWeight(s, clock); }
    } else if Budget(t) < Budget(s) {
      BudgetOutweighsTime(Budget(t), Budget(s), TimeLeft(t, now));
    } else {
      assert now - t.timer <= TIMEOUT_MS;
    }
  }

  lemma WaitingHasWeight(s: Sender, clock: int)
    requires s.retries <= MAX_PIECE_RETRIES && !Over(s) && s.state != Idle
    ensures Weight(s, clock) > 0
  {
    BudgetOutweighsTime(0, Budget(s), 0);
  }

  lemma BudgetOutweighsTime(b: nat, c: nat, time: nat)
    requires b < c && time <= TIMEOUT_MS + 1
    ensures b * (TIMEOUT_MS + 2) + time < c * (TIMEOUT_MS + 2)
  {
  }

  lemma {:induction false} RunShorterThanWeight(s: Sender, data: seq<Byte>, passes: seq<Pass>, clock: int)
    requires Consistent(s, data) && s.timer <= clock && ClockRuns(clock, passes)
    ensures Ticks(clock, passes) >= Weight(s, clock) ==> Over(Run(s, data, passes).0)
    decreases |passes|
  {
    if !Over(s) {
      assert Budget(s) >= 1;
      if passes != [] {
        PassLowersWeight(s, data, passes[0], clock);
        PassKeepsConsistent(s, data, passes[0]);
        var t := ProcessState(s, data, passes[0].pending, passes[0].now).0;
        RunShorterThanWeight(t, data, passes[1..], passes[0].now);
      }
    }
  }

  /** Once the start message is out, every run ends in DONE or ERROR: after at most this many
      passes, not counting those within the same millisecond as another, whatever was answered and
      whenever. */
  lemma EveryRunEnds(data: seq<Byte>, start: int, passes: seq<Pass>)
    requires ClockRuns(start, passes)
    requires Ticks(start, passes) >= (5 * PieceCount(|data|) + 4) * (TIMEOUT_MS + 2)
    ensures Consistent(Started(FRESH, data, start), data)
    ensures Over(Run(Started(FRESH, data, start), data, passes).0)
  {
    var s := Started(FRESH, data, start);
    StartedIsConsistent(data, start);
    RunShorterThanWeight(s, data, passes, start);
    assert Weight(s, start) == (5 * PieceCount(|data|) + 3) * (TIMEOUT_MS + 2) + TIMEOUT_MS + 1;
  }

  // ---------------------------------------------------------------- what goes on the wire

  ghost function Count(log: seq<Request>, number: nat): nat {
    if log == [] then 0
    else Count(log[..|log| - 1], number) + (if log[|log| - 1].Piece? && log[|log| - 1].number == number then 1 else 0)
  }

  ghost predicate Published(s: Sender, data: seq<Byte>, m: Request) {
    m.Piece? && m.number < s.pieceNumber && m == PieceMessage(data, m.number)
  }

  /** The pieces published so far: the right bytes, none more than four times, and the one in
      flight exactly once more than it was repeated. */
  ghost predicate LogGood(s: Sender, data: seq<Byte>, log: seq<Request>) {
    && (forall i :: 0 <= i < |log| ==> Published(s, data, log[i]))
    && (forall k :: Count(log, k) <= MAX_PIECE_RETRIES + 1)
    && (forall k :: k >= s.pieceNumber ==> Count(log, k) == 0)
    && (s.state == WaitPieceAck && s.pieceNumber > 0 ==> Count(log, s.pieceNumber - 1) == s.retries + 1)
  }

  lemma {:induction false} DrainKeepsLog(s: Sender, data: seq<Byte>, log: seq<Request>, pending: seq<Response>,
                                         now: int)
    requires LogGood(s, data, log)
    ensures LogGood(Drain(s, pending, now), data, log)
    decreases |pending|
  {
    hide Count, PieceMessage;
    if pending != [] {
      assert LogGood(ProcessResponse(s, pending[0], now), data, log);
      DrainKeepsLog(ProcessResponse(s, pending[0], now), data, log, pending[1..], now);
    }
  }

  lemma ActKeepsLog(s: Sender, data: seq<Byte>, log: seq<Request>, now: int)
    requires Consistent(s, data) && LogGood(s, data, log)
    ensures SliceValid(s, data)
    ensures var (t, out) := Act(s, data, now); LogGood(t, data, log + out)
  {
    hide Count;
    ActKeepsConsistent(s, data, now);
    var (t, out) := Act(s, data, now);
    if out == [] {
      assert log + out == log;
    } else {
      OutKeepsLog(s, t, data, log, out[0]);
    }
  }

  lemma OutKeepsLog(s: Sender, t: Sender, data: seq<Byte>, log: seq<Request>, m: Request)
    requires LogGood(s, data, log) && t.pieceNumber > 0 && m == PieceMessage(data, t.pieceNumber - 1)
    requires (t.pieceNumber == s.pieceNumber + 1 && t.retries == 0)
          || (t.pieceNumber == s.pieceNumber && s.state == WaitPieceAck
             && t.retries == s.retries + 1 <= MAX_PIECE_RETRIES)
    ensures LogGood(t, data, log + [m])
  {
    hide Count, PieceMessage;
    PieceMessageIs(data, t.pieceNumber - 1);
    CountOne(log, m);
    assert forall i :: 0 <= i < |log + [m]| ==> Published(t, data, (log + [m])[i]);
  }

  lemma PieceMessageIs(data: seq<Byte>, k: nat)
    ensures PieceMessage(data, k).Piece? && PieceMessage(data, k).number == k
  {}

  lemma CountOne(log: seq<Request>, m: Request)
    requires m.Piece?
    ensures forall k :: Count(log + [m], k) == Count(log, k) + (if k == m.number then 1 else 0)
  {
    assert (log + [m])[..|log|] == log;
  }

  lemma {:induction false} RunKeepsLog(s: Sender, data: seq<Byte>, log: seq<Request>, passes: seq<Pass>)
    requires Consistent(s, data) && LogGood(s, data, log)
    ensures LogGood(Run(s, data, passes).0, data, log + Run(s, data, passes).1)
    decreases |passes|
  {
    hide LogGood;
    if passes == [] || Over(s) {
      assert log + [] == log;
    } else {
      var pass := passes[0];
      DrainKeepsConsistent(s, data, pass.pending, pass.now);
      DrainKeepsLog(s, data, log, pass.pending, pass.now);
      ActKeepsLog(Drain(s, pass.pending, pass.now), data, log, pass.now);
      PassKeepsConsistent(s, data, pass);
      var (t, out) := ProcessState(s, data, pass.pending, pass.now);
      RunKeepsLog(t, data, log + out, passes[1..]);
      Associative(log, out, Run(t, data, passes[1..]).1);
    }
  }

  ghost predicate CarriesItsSlice(data: seq<Byte>, m: Request) {
    && m.Piece? && 100 * m.number < |data|
    && m.text == Base64.Encode(data[100 * m.number..Min(100 * m.number + 100, |data|)])
  }

  /** Whatever the device answers, each piece is published at most four times, and every published
      piece carries the slice of the data at offset 100 times its number. */
  lemma PublishedPieces(data: seq<Byte>, start: int, passes: seq<Pass>)
    ensures Consistent(Started(FRESH, data, start), data)
    ensures var log := Run(Started(FRESH, data, start), data, passes).1;
            && (forall k :: Count(log, k) <= 4)
            && (forall i :: 0 <= i < |log| ==> CarriesItsSlice(data, log[i]))
  {
    var s := Started(FRESH, data, start);
    StartedIsConsistent(data, start);
    RunKeepsLog(s, data, [], passes);
    var (t, log) := Run(s, data, passes);
    assert [] + log == log;
    forall i | 0 <= i < |log| ensures CarriesItsSlice(data, log[i]) {
      PublishedCarries(t, data, log[i]);
    }
  }

  lemma PublishedCarries(t: Sender, data: seq<Byte>, m: Request)
    requires Consistent(t, data) && Published(t, data, m)
    ensures CarriesItsSlice(data, m)
  {
    assert 0 < |Slice(data, t.pieceNumber - 1)|;
    assert 100 * m.number <= 100 * (t.pieceNumber - 1) < |data|;
  }
}
