/** What the repetition of pieces is worth: losses of a piece and of its answers are recovered, and so is an
    answer that comes after the repeat it provoked, for every piece but the last. */
module TransferRepeats {
  import opened Common
  import opened TransferSender
  import opened TransferDevice
  import opened TransferSenderRuns
  import opened TransferSession
  import opened TransferSystem
  import opened TransferAssumption
  import opened TransferSuccess

  const WRONG := Response(false, {WrongFilePieceNumber})
  const YES := Response(true, {})

  // ---------------------------------------------------------------- one queue of answers

  lemma {:induction false} DrainJoins(s: Sender, xs: seq<Response>, ys: seq<Response>, now: int)
    ensures Drain(s, xs + ys, now) == Drain(Drain(s, xs, now), ys, now)
    decreases |xs|
  {
    hide ProcessResponse;
    if xs == [] {
      assert xs + ys == ys;
    } else {
      assert (xs + ys)[0] == xs[0] && (xs + ys)[1..] == xs[1..] + ys;
      DrainJoins(ProcessResponse(s, xs[0], now), xs[1..], ys, now);
    }
  }

  /** A message without a type is as good as none. */
  lemma UntypedIsIgnored(s: Sender, xs: seq<Response>, ys: seq<Response>, now: int)
    ensures Drain(s, xs + [Untyped] + ys, now) == Drain(s, xs + ys, now)
  {
    hide ProcessResponse;
    DrainJoins(s, xs + [Untyped], ys, now);
    DrainJoins(s, xs, [Untyped], now);
    DrainJoins(s, xs, ys, now);
    DrainOne(Drain(s, xs, now), Untyped, now);
    UntypedChangesNothing(Drain(s, xs, now), now);
  }

  lemma UntypedChangesNothing(s: Sender, now: int)
    ensures ProcessResponse(s, Untyped, now) == s
  {}

  function Refusals(n: nat): (r: seq<Response>)
    ensures |r| == n
  {
    seq(n, _ => WRONG)
  }

  lemma {:induction false} ErrorStays(s: Sender, xs: seq<Response>, now: int)
    requires s.state == Error
    ensures Drain(s, xs, now).state == Error
    decreases |xs|
  {
    if xs != [] { ErrorStays(ProcessResponse(s, xs[0], now), xs[1..], now); }
  }

  /** The acceptance of a repeated piece and then the refusals of its repeats, in one queue: the transfer
      goes on exactly if there is at most one refusal. */
  lemma OneRefusalIsForgiven(s: Sender, refusals: nat, now: int)
    requires s.state == WaitPieceAck && s.last.Some? && s.resent == Some(s.last.value.number) && s.remaining > 0
    ensures var t := Drain(s, [YES] + Refusals(refusals), now);
            t.state == (if refusals <= 1 then SendingFw else Error)
    ensures Drain(s, [YES] + Refusals(1), now) == s.(state := SendingFw, retries := 0, resent := None)
  {
    var sent := s.(state := SendingFw, retries := 0);
    DrainOne(s, YES, now);
    DrainJoins(s, [YES], Refusals(refusals), now);
    DrainJoins(s, [YES], Refusals(1), now);
    assert Refusals(1) == [WRONG];
    DrainOne(sent, WRONG, now);
    var swallowed := sent.(resent := None);
    assert ProcessResponse(sent, WRONG, now) == swallowed;
    if refusals >= 2 {
      assert Refusals(refusals) == [WRONG] + Refusals(refusals - 1);
      DrainJoins(sent, [WRONG], Refusals(refusals - 1), now);
      assert Refusals(refusals - 1) == [WRONG] + Refusals(refusals - 2);
      DrainOne(swallowed, WRONG, now);
      DrainJoins(swallowed, [WRONG], Refusals(refusals - 2), now);
      ErrorStays(ProcessResponse(swallowed, WRONG, now), Refusals(refusals - 2), now);
    } else {
      assert Refusals(refusals) == if refusals == 0 then [] else [WRONG];
    }
  }

  /** The refusal of a repeat is forgiven up to the piece after it, and aborts the transfer from the
      second piece on. */
  lemma RefusalExpiresIff(s: Sender, data: seq<Byte>, repeated: nat, sentAt: int, now: int)
    requires s.state == SendingFw && SliceValid(s, data) && s.remaining > 0
    requires s.resent == Some(repeated) && repeated < s.pieceNumber
    ensures ProcessResponse(SendPiece(s, data, sentAt), WRONG, now).state
            == if s.pieceNumber <= repeated + 1 then WaitPieceAck else Error
  {}

  /** A sender that waits does nothing for twenty-five seconds, and something after that. */
  lemma WaitsOutTheTimeout(s: Sender, data: seq<Byte>, now: int)
    requires SliceValid(s, data) && s.state in {WaitStartAck, WaitPieceAck, WaitCheckAck}
    ensures Act(s, data, now) == (s, []) <==> now - s.timer <= 25_000
  {}

  ghost predicate WaitsFrom(s: Sender, data: seq<Byte>, now: int, later: int) {
    SliceValid(s, data) && (Act(s, data, later) == (s, []) <==> later - now <= 25_000)
  }

  /** Every wait is a full one: the clock restarts with each piece that goes out, the first time or again,
      and with the answer that leaves only the result to wait for. */
  lemma EveryWaitIsFull(s: Sender, data: seq<Byte>, now: int, later: int)
    requires SliceValid(s, data)
    ensures s.state == SendingFw && s.remaining > 0 ==> WaitsFrom(Act(s, data, now).0, data, now, later)
    ensures Resends(s, now) ==> WaitsFrom(Act(s, data, now).0, data, now, later)
    ensures s.state == WaitPieceAck && s.remaining == 0 ==> WaitsFrom(ProcessResponse(s, YES, now), data, now, later)
  {}

  // ---------------------------------------------------------------- mishaps

  /** How one attempt at a piece comes to nothing: on the way there, or on the way back. */
  datatype Fate = PieceLost | AnswerLost

  /** What happens to a piece: some attempts come to nothing before one succeeds; or the answer is slower
      than the timeout, and both it and the repeat's come, to one pass or to two. */
  datatype Mishap = Lost(fates: seq<Fate>) | LateTogether | LateApart

  const PATIENCE: nat := TIMEOUT_MS + 1

  function Attempt(fate: Fate, now: int): seq<Action> {
    (if fate == PieceLost then [RequestLost(0)] else [DeviceReceives(GOOD), ResponseLost(0)]) + [SenderPass(0, now)]
  }

  function Attempts(fates: seq<Fate>, t: int): seq<Action>
    decreases |fates|
  {
    if fates == [] then [] else Attempt(fates[0], t + PATIENCE) + Attempts(fates[1..], t + PATIENCE)
  }

  /** Everything that happens while the piece published at `t` is the one in flight. */
  function Episode(m: Mishap, t: int): seq<Action> {
    match m
    case Lost(fates) => Attempts(fates, t) + [DeviceReceives(GOOD), SenderPass(1, t + PATIENCE * |fates|)]
    case LateTogether =>
      [SenderPass(0, t + PATIENCE), DeviceReceives(GOOD), DeviceReceives(GOOD), SenderPass(2, t + PATIENCE)]
    case LateApart =>
      [SenderPass(0, t + PATIENCE), DeviceReceives(GOOD), SenderPass(1, t + PATIENCE), DeviceReceives(GOOD),
       SenderPass(1, t + PATIENCE)]
  }

  function Duration(m: Mishap): nat { if m.Lost? then PATIENCE * |m.fates| else PATIENCE }

  predicate Mild(m: Mishap) { m.Lost? ==> |m.fates| <= MAX_PIECE_RETRIES }

  // ---------------------------------------------------------------- attempts that come to nothing

  /** The device waits for piece `k`, or has it already and waits for the next one. */
  ghost predicate Holds(c: Setup, d: Device, k: nat, stored: bool) {
    if stored then DeviceWaits(c, d, k + 1) else DeviceWaits(c, d, k)
  }

  /** Piece `k` is the only thing on the wire. */
  ghost predicate Alone(c: Setup, s: System, k: nat, stored: bool) {
    && SenderWaits(c, s, k) && s.toDev == [PieceMessage(c.goal.data, k)] && s.toSnd == []
    && (s.verified ==> Passed(s.dev)) && Holds(c, s.dev, k, stored)
    && (stored ==> s.snd.resent == Some(k) && PIECE_SIZE * (k + 1) < |c.goal.data|)
  }

  /** Nothing about an earlier piece is in transit when piece `k` is repeated. */
  lemma RepeatIsClean(c: Setup, s: System, k: nat, now: int)
    requires SenderWaits(c, s, k) && Enabled(c, s, SenderPass(0, now)) && s.toSnd == []
    requires forall i :: 0 <= i < |s.toDev| ==> s.toDev[i] == PieceMessage(c.goal.data, k)
    ensures NoStaleTraffic(c, s, SenderPass(0, now))
  {
    hide Slice, Offset;
    assert Payloads(s.toSnd[..0]) == [];
  }

  lemma NumberFits(c: Setup, d: Device, k: nat)
    requires DeviceWaits(c, d, k)
    ensures k < TWO_32
  {
    hide Session, Firmware;
    HoldingOf(d, c.goal, c.md5Is);
  }

  /** A piece that is not the last one reaches the device: it is stored, or refused as stored already. */
  lemma IsAnswered(c: Setup, s: System, k: nat, stored: bool) returns (u: System)
    requires PIECE_SIZE * (k + 1) < |c.goal.data| && s.toDev != [] && s.toDev[0] == PieceMessage(c.goal.data, k)
    requires Holds(c, s.dev, k, stored) && (s.verified ==> Passed(s.dev))
    ensures Enabled(c, s, DeviceReceives(GOOD)) && u == Next(c, s, DeviceReceives(GOOD))
    ensures NoStaleTraffic(c, s, DeviceReceives(GOOD))
    ensures Holds(c, u.dev, k, true) && (u.verified ==> Passed(u.dev)) && SameResult(s.dev, u.dev)
    ensures u == s.(dev := u.dev, verified := u.verified, toDev := s.toDev[1..],
                    toSnd := s.toSnd + [Tagged(if stored then WRONG else YES, AboutPiece(k))])
  {
    hide Firmware, Slice, DeviceWaits, PieceMessage, Offset, Next, Enabled, NoStaleTraffic;
    if stored {
      NumberFits(c, s.dev, k + 1);
      u := Refuses(c, s, k);
    } else {
      u := Stores(c, s, k);
    }
    OnlyPassesRepeat(c, s, DeviceReceives(GOOD));
  }

  lemma RequestIsLost(c: Setup, s: System)
    requires |s.toDev| == 1
    ensures Enabled(c, s, RequestLost(0)) && Next(c, s, RequestLost(0)) == s.(toDev := [])
            && NoStaleTraffic(c, s, RequestLost(0))
  {}

  lemma ResponseIsLost(c: Setup, s: System)
    requires |s.toSnd| == 1
    ensures Enabled(c, s, ResponseLost(0)) && Next(c, s, ResponseLost(0)) == s.(toSnd := [])
            && NoStaleTraffic(c, s, ResponseLost(0))
  {}

  lemma LosesPiece(c: Setup, s: System, k: nat, stored: bool) returns (u: System)
    requires Alone(c, s, k, stored) && s.snd.retries < MAX_PIECE_RETRIES
    ensures var actions := Attempt(PieceLost, s.snd.timer + PATIENCE);
            && Possible(c, s, actions) && Final(c, s, actions) == u && AssumptionHolds(c, s, actions)
    ensures Alone(c, u, k, stored)
    ensures u == s.(snd := s.snd.(retries := s.snd.retries + 1, resent := Some(k), timer := s.snd.timer + PATIENCE))
  {
    hide Firmware, Slice, Holds, PieceMessage, Offset, Next, Enabled, NoStaleTraffic;
    var now := s.snd.timer + PATIENCE;
    RequestIsLost(c, s);
    var s1 := s.(toDev := []);
    u := Repeats(c, s1, k, now);
    RepeatIsClean(c, s1, k, now);
    PathIsRun(c, [RequestLost(0), SenderPass(0, now)], [s, s1, u]);
    assert Attempt(PieceLost, now) == [RequestLost(0), SenderPass(0, now)];
  }

  lemma LosesAnswer(c: Setup, s: System, k: nat, stored: bool) returns (u: System)
    requires Alone(c, s, k, stored) && s.snd.retries < MAX_PIECE_RETRIES && PIECE_SIZE * (k + 1) < |c.goal.data|
    ensures var actions := Attempt(AnswerLost, s.snd.timer + PATIENCE);
            && Possible(c, s, actions) && Final(c, s, actions) == u && AssumptionHolds(c, s, actions)
    ensures Alone(c, u, k, true) && SameResult(s.dev, u.dev)
    ensures u.snd == s.snd.(retries := s.snd.retries + 1, resent := Some(k), timer := s.snd.timer + PATIENCE)
  {
    hide Firmware, Slice, Holds, PieceMessage, Offset, Next, Enabled, NoStaleTraffic;
    var now := s.snd.timer + PATIENCE;
    var s1 := IsAnswered(c, s, k, stored);
    ResponseIsLost(c, s1);
    var s2 := s1.(toSnd := []);
    u := Repeats(c, s2, k, now);
    RepeatIsClean(c, s2, k, now);
    PathIsRun(c, [DeviceReceives(GOOD), ResponseLost(0), SenderPass(0, now)], [s, s1, s2, u]);
    assert Attempt(AnswerLost, now) == [DeviceReceives(GOOD), ResponseLost(0), SenderPass(0, now)];
  }

  /** Up to three attempts come to nothing, in any pattern: the piece is on the wire again. */
  lemma {:induction false} AttemptsFail(c: Setup, s: System, k: nat, stored: bool, fates: seq<Fate>)
      returns (u: System)
    requires Alone(c, s, k, stored) && s.snd.retries + |fates| <= MAX_PIECE_RETRIES
    requires PIECE_SIZE * (k + 1) < |c.goal.data| || AnswerLost !in fates
    ensures var actions := Attempts(fates, s.snd.timer);
            && Possible(c, s, actions) && Final(c, s, actions) == u && AssumptionHolds(c, s, actions)
    ensures Alone(c, u, k, stored || AnswerLost in fates) && SameResult(s.dev, u.dev)
    ensures u.snd.timer == s.snd.timer + PATIENCE * |fates|
    decreases |fates|
  {
    hide Alone, Next, Enabled, NoStaleTraffic;
    u := s;
    if fates != [] {
      var t;
      if fates[0] == PieceLost {
        t := LosesPiece(c, s, k, stored);
      } else {
        t := LosesAnswer(c, s, k, stored);
      }
      assert fates == [fates[0]] + fates[1..];
      u := AttemptsFail(c, t, k, stored || fates[0] == AnswerLost, fates[1..]);
      RunsCompose(c, s, Attempt(fates[0], s.snd.timer + PATIENCE), Attempts(fates[1..], t.snd.timer));
    }
  }

  // ---------------------------------------------------------------- a piece that is not the last one

  lemma InFlightIsAlone(c: Setup, s: System, k: nat)
    requires InFlight(c, s, k)
    ensures Alone(c, s, k, false)
  {
    hide Firmware, Slice, DeviceWaits, PieceMessage, Offset;
  }

  lemma NextIsInFlight(c: Setup, s: System, k: nat)
    requires SenderWaits(c, s, k) && s.toDev == [PieceMessage(c.goal.data, k)] && s.toSnd == []
    requires (s.verified ==> Passed(s.dev)) && DeviceWaits(c, s.dev, k)
    ensures InFlight(c, s, k)
  {
    hide Firmware, Slice, DeviceWaits, PieceMessage, Offset;
  }

  /** Lost attempts, and then one that succeeds. */
  lemma RecoversFromLoss(c: Setup, s: System, k: nat, fates: seq<Fate>) returns (u: System)
    requires InFlight(c, s, k) && s.snd.retries == 0 && PIECE_SIZE * (k + 1) < |c.goal.data|
    requires |fates| <= MAX_PIECE_RETRIES
    ensures var actions := Episode(Lost(fates), s.snd.timer);
            && Possible(c, s, actions) && Final(c, s, actions) == u && AssumptionHolds(c, s, actions)
    ensures InFlight(c, u, k + 1) && u.snd.retries == 0 && u.snd.timer == s.snd.timer + PATIENCE * |fates|
            && SameResult(s.dev, u.dev)
  {
    hide Firmware, Slice, DeviceWaits, PieceMessage, Offset, Next, Enabled, NoStaleTraffic, InFlight,
        Attempts, Possible, Final, AssumptionHolds;
    InFlightIsAlone(c, s, k);
    var stored := AnswerLost in fates;
    var t := AttemptsFail(c, s, k, false, fates);
    var s1 := IsAnswered(c, t, k, stored);
    assert s1.toDev == [] && s1.toSnd == [Tagged(if stored then WRONG else YES, AboutPiece(k))];
    var now := t.snd.timer;
    if stored {
      u := ConfirmsAndMovesOn(c, s1, k, now);
    } else {
      u := MovesOn(c, s1, k, now);
    }
    NextIsInFlight(c, u, k + 1);
    var two := [DeviceReceives(GOOD), SenderPass(1, now)];
    PathIsRun(c, two, [t, s1, u]);
    RunsCompose(c, s, Attempts(fates, s.snd.timer), two);
  }

  /** A pass of the sender over all the answers there are. */
  lemma SenderTakesAll(c: Setup, s: System, now: int)
    requires !Over(s.snd) && SliceValid(s.snd, c.goal.data)
    ensures Enabled(c, s, SenderPass(|s.toSnd|, now))
    ensures var r := Drain(s.snd, Payloads(s.toSnd), now);
            && SliceValid(r, c.goal.data)
            && Next(c, s, SenderPass(|s.toSnd|, now)) ==
               s.(snd := Act(r, c.goal.data, now).0, toDev := s.toDev + Act(r, c.goal.data, now).1, toSnd := [])
            && (r.state != WaitPieceAck ==> NoStaleTraffic(c, s, SenderPass(|s.toSnd|, now)))
  {
    hide ProcessResponse, Act, Drain;
    assert s.toSnd[..|s.toSnd|] == s.toSnd;
    DrainKeepsSlices(s.snd, Payloads(s.toSnd), now);
  }

  lemma PayloadsOfTwo(t: Tagged, u: Tagged)
    ensures Payloads([t, u]) == [t.resp] + [u.resp]
  {
    assert [t, u][1..] == [u] && [u][1..] == [];
    assert Payloads([u]) == [u.resp];
  }

  /** Both answers are there when the sender looks again. */
  lemma RecoversTogether(c: Setup, s: System, k: nat) returns (u: System)
    requires InFlight(c, s, k) && s.snd.retries == 0 && PIECE_SIZE * (k + 1) < |c.goal.data|
    ensures var actions := Episode(LateTogether, s.snd.timer);
            && Possible(c, s, actions) && Final(c, s, actions) == u && AssumptionHolds(c, s, actions)
    ensures InFlight(c, u, k + 1) && u.snd.retries == 0 && u.snd.timer == s.snd.timer + PATIENCE
            && SameResult(s.dev, u.dev)
  {
    hide Firmware, Slice, DeviceWaits, PieceMessage, Offset, Next, Enabled, NoStaleTraffic, Act, Drain;
    InFlightIsAlone(c, s, k);
    var now := s.snd.timer + PATIENCE;
    var s1 := Repeats(c, s, k, now);
    RepeatIsClean(c, s, k, now);
    var s2 := IsAnswered(c, s1, k, false);
    var s3 := IsAnswered(c, s2, k, true);
    assert s3.toDev == [] && s3.toSnd[0].resp == YES && s3.toSnd[1].resp == WRONG && |s3.toSnd| == 2;
    u := TwoAnswersMoveOn(c, s3, k, now);
    NextIsInFlight(c, u, k + 1);
    PathIsRun(c, Episode(LateTogether, s.snd.timer), [s, s1, s2, s3, u]);
  }

  lemma TwoAnswersMoveOn(c: Setup, s: System, k: nat, now: int) returns (u: System)
    requires SenderWaits(c, s, k) && s.snd.resent == Some(k) && PIECE_SIZE * (k + 1) < |c.goal.data|
    requires |s.toSnd| == 2 && s.toSnd[0].resp == YES && s.toSnd[1].resp == WRONG && s.toDev == []
    ensures Enabled(c, s, SenderPass(2, now)) && u == Next(c, s, SenderPass(2, now))
    ensures NoStaleTraffic(c, s, SenderPass(2, now)) && SenderWaits(c, u, k + 1)
    ensures u.snd.retries == 0 && u.snd.timer == now
            && u == s.(snd := u.snd, toDev := [PieceMessage(c.goal.data, k + 1)], toSnd := [])
  {
    hide Slice, PieceMessage, Offset, Next, Act, NoStaleTraffic, Drain, ProcessResponse;
    OffsetOfNext(c.goal.data, k);
    SenderTakesAll(c, s, now);
    OneRefusalIsForgiven(s.snd, 1, now);
    assert s.toSnd == [s.toSnd[0], s.toSnd[1]];
    PayloadsOfTwo(s.toSnd[0], s.toSnd[1]);
    assert Refusals(1) == [WRONG];
    var r := Drain(s.snd, [YES] + Refusals(1), now);
    SendsNext(c.goal.data, r, k + 1, now);
    u := Next(c, s, SenderPass(2, now));
    assert [] + [PieceMessage(c.goal.data, k + 1)] == [PieceMessage(c.goal.data, k + 1)];
  }

  /** The repeat's refusal, read while the next piece is in flight, changes nothing else. */
  lemma RefusalIsSwallowed(c: Setup, s: System, k: nat, now: int) returns (u: System)
    requires SenderWaits(c, s, k + 1) && s.snd.resent == Some(k) && s.snd.timer == now
    requires |s.toSnd| == 1 && s.toSnd[0].resp == WRONG
    ensures Enabled(c, s, SenderPass(1, now)) && u == Next(c, s, SenderPass(1, now))
    ensures NoStaleTraffic(c, s, SenderPass(1, now)) && u == s.(snd := s.snd.(resent := None), toSnd := [])
  {
    hide Slice, Offset, NoStaleTraffic;
    SenderTakesOne(c, s, now);
    u := Next(c, s, SenderPass(1, now));
    assert s.toDev + [] == s.toDev;
    NothingToRepeat(c, s, now);
  }

  lemma NothingToRepeat(c: Setup, s: System, now: int)
    requires |s.toSnd| == 1 && Enabled(c, s, SenderPass(1, now))
    requires !TimedOut(ProcessResponse(s.snd, s.toSnd[0].resp, now), now)
    ensures NoStaleTraffic(c, s, SenderPass(1, now))
  {
    hide ProcessResponse;
    var ts := s.toSnd[..1];
    assert ts == s.toSnd && ts[1..] == [] && Payloads(ts) == [s.toSnd[0].resp] + Payloads(ts[1..]);
    DrainOne(s.snd, s.toSnd[0].resp, now);
  }

  /** The acceptance comes to one pass, the refusal of the repeat to the next. */
  lemma RecoversApart(c: Setup, s: System, k: nat) returns (u: System)
    requires InFlight(c, s, k) && s.snd.retries == 0 && PIECE_SIZE * (k + 1) < |c.goal.data|
    ensures var actions := Episode(LateApart, s.snd.timer);
            && Possible(c, s, actions) && Final(c, s, actions) == u && AssumptionHolds(c, s, actions)
    ensures InFlight(c, u, k + 1) && u.snd.retries == 0 && u.snd.timer == s.snd.timer + PATIENCE
            && SameResult(s.dev, u.dev)
  {
    hide Firmware, Slice, DeviceWaits, PieceMessage, Offset, Next, Enabled, NoStaleTraffic;
    InFlightIsAlone(c, s, k);
    var now := s.snd.timer + PATIENCE;
    var s1 := Repeats(c, s, k, now);
    RepeatIsClean(c, s, k, now);
    var s2 := IsAnswered(c, s1, k, false);
    assert s2.toSnd == [Tagged(YES, AboutPiece(k))];
    var s3 := MovesOn(c, s2, k, now);
    assert s3.toDev == [PieceMessage(c.goal.data, k), PieceMessage(c.goal.data, k + 1)];
    var s4 := IsAnswered(c, s3, k, true);
    u := RefusalIsSwallowed(c, s4, k, now);
    NextIsInFlight(c, u, k + 1);
    PathIsRun(c, Episode(LateApart, s.snd.timer), [s, s1, s2, s3, s4, u]);
  }

  lemma Recovers(c: Setup, s: System, k: nat, m: Mishap) returns (u: System)
    requires InFlight(c, s, k) && s.snd.retries == 0 && PIECE_SIZE * (k + 1) < |c.goal.data| && Mild(m)
    ensures var actions := Episode(m, s.snd.timer);
            && Possible(c, s, actions) && Final(c, s, actions) == u && AssumptionHolds(c, s, actions)
    ensures InFlight(c, u, k + 1) && u.snd.retries == 0 && u.snd.timer == s.snd.timer + Duration(m)
            && SameResult(s.dev, u.dev)
  {
    hide InFlight, Possible, Final, AssumptionHolds;
    match m
    case Lost(fates) => u := RecoversFromLoss(c, s, k, fates);
    case LateTogether => u := RecoversTogether(c, s, k);
    case LateApart => u := RecoversApart(c, s, k);
  }

  // ---------------------------------------------------------------- the whole transfer

  /** One mishap for every piece. */
  type Plan = nat -> Mishap

  /** When piece `k` is published, the first one having been at `t`. */
  function TimeOf(plan: Plan, k: nat, t: int): int {
    if k == 0 then t else TimeOf(plan, k - 1, t) + Duration(plan(k - 1))
  }

  /** The run up to the publication of piece `k`. */
  function Schedule(plan: Plan, k: nat, t: int): seq<Action> {
    if k == 0 then [DeviceReceives(GOOD), SenderPass(1, t)]
    else Schedule(plan, k - 1, t) + Episode(plan(k - 1), TimeOf(plan, k - 1, t))
  }

  lemma {:induction false} ScheduleReaches(c: Setup, s: System, plan: Plan, k: nat) returns (u: System)
    requires Acceptable(c) && JustStarted(c, s) && Remembers(s.dev) && PIECE_SIZE * k < |c.goal.data|
    requires forall i: nat :: i < k ==> Mild(plan(i))
    ensures var actions := Schedule(plan, k, s.snd.timer);
            && Possible(c, s, actions) && Final(c, s, actions) == u && AssumptionHolds(c, s, actions)
    ensures InFlight(c, u, k) && u.snd.retries == 0 && u.snd.timer == TimeOf(plan, k, s.snd.timer)
            && SameResult(s.dev, u.dev)
    decreases k
  {
    hide Enabled, Next, InFlight, JustStarted, Acceptable, NoStaleTraffic, Episode, Mild;
    if k == 0 {
      FirstExchange(c, s);
      var two := [DeviceReceives(GOOD), SenderPass(1, s.snd.timer)];
      OnlyPassesRepeat(c, s, two[0]);
      var s1 := Next(c, s, two[0]);
      u := Next(c, s1, two[1]);
      PathIsRun(c, two, [s, s1, u]);
    } else {
      var t := ScheduleReaches(c, s, plan, k - 1);
      u := Recovers(c, t, k - 1, plan(k - 1));
      RunsCompose(c, s, Schedule(plan, k - 1, s.snd.timer), Episode(plan(k - 1), t.snd.timer));
    }
  }

  /** For every file and firmware, whatever happens to each of its pieces: the run in which every piece but
      the last meets a mishap of any kind, and the last one is lost up to three times, goes on, without
      further loss, to DONE; the data is in its place, and the device has been restarted if it is a
      firmware. */
  lemma TransferRecovers(c: Setup, s: System, plan: Plan, losses: nat) returns (rest: seq<Action>)
    requires Acceptable(c) && Initial(c, s) && Remembers(s.dev) && !s.dev.checkDone
             && c.md5Is(c.goal.data, Md5Local(c.goal.md5))
    requires (forall i: nat :: i < LastNumber(c) ==> Mild(plan(i))) && losses <= 3
    ensures var actions := Schedule(plan, LastNumber(c), s.snd.timer)
                           + (Attempts(Lose(losses), TimeOf(plan, LastNumber(c), s.snd.timer)) + rest);
            && Smooth(rest) && Possible(c, s, actions) && AssumptionHolds(c, s, actions)
            && Final(c, s, actions).snd.state == Done && Delivered(Final(c, s, actions).dev, c.goal, c.md5Is)
            && RestartsIffFirmware(c, Final(c, s, actions).dev)
  {
    hide Next, Enabled, NoStaleTraffic, InFlight, Settled, Possible, Final, AssumptionHolds, Initial, JustStarted,
        Firmware, Delivered, Md5Local, RestartsIffFirmware, Mild, Acceptable;
    var k := LastNumber(c);
    LastNumberIs(c);
    InitialIsStarted(c, s);
    var t := ScheduleReaches(c, s, plan, k);
    InFlightIsAlone(c, t, k);
    var l := AttemptsFail(c, t, k, false, Lose(losses));
    AloneIsInFlight(c, l, k);
    var e, middle := Settles(c, l, k);
    var u, report := ResultIsReported(c, e);
    rest := middle + report;
    RunsCompose(c, l, middle, report);
    RunsCompose(c, t, Attempts(Lose(losses), t.snd.timer), rest);
    RunsCompose(c, s, Schedule(plan, k, s.snd.timer), Attempts(Lose(losses), t.snd.timer) + rest);
    DoneOnlyAfterDelivery(c, s, Schedule(plan, k, s.snd.timer) + (Attempts(Lose(losses), t.snd.timer) + rest));
  }

  function LastNumber(c: Setup): nat
    requires Acceptable(c)
  {
    (|c.goal.data| - 1) / PIECE_SIZE
  }

  lemma LastNumberIs(c: Setup)
    requires Acceptable(c)
    ensures PIECE_SIZE * LastNumber(c) < |c.goal.data| <= PIECE_SIZE * (LastNumber(c) + 1)
  {}

  function Lose(n: nat): (fates: seq<Fate>)
    ensures |fates| == n && AnswerLost !in fates
  {
    seq(n, _ => PieceLost)
  }

  lemma AloneIsInFlight(c: Setup, s: System, k: nat)
    requires Alone(c, s, k, false)
    ensures InFlight(c, s, k)
  {
    hide DeviceWaits, PieceMessage, Slice, Offset;
    NextIsInFlight(c, s, k);
  }
}
