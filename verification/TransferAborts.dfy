/** What the repetition of pieces does not recover: a lost or late answer to the last piece, a second repeat
    that proves needless, a fourth loss in a row. */
module TransferAborts {
  import opened Common
  import opened TransferSender
  import opened TransferDevice
  import opened TransferSenderRuns
  import opened TransferSession
  import opened TransferSystem
  import opened TransferAssumption
  import opened TransferSuccess
  import opened TransferRepeats

  // ---------------------------------------------------------------- the last piece

  /** What the device says of a piece once it has them all. */
  const NOT_BEGUN := Response(false, {BeginNotCalled})

  /** The device has every byte: a firmware is installed, a file is in its check. */
  ghost predicate HasItAll(c: Setup, d: Device) {
    d.phase != Storing && d.errs == {} && if Firmware(c.goal) then Passed(d) else d.phase == Check
  }

  /** The last piece is the only thing on the wire, and the device has it already. */
  ghost predicate AloneAtEnd(c: Setup, s: System, k: nat) {
    && SenderWaits(c, s, k) && s.snd.remaining == 0 && s.toDev == [PieceMessage(c.goal.data, k)] && s.toSnd == []
    && HasItAll(c, s.dev) && k < TWO_32
  }

  lemma LastIsStored(c: Setup, s: System, k: nat) returns (u: System)
    requires PIECE_SIZE * (k + 1) >= |c.goal.data| && DeviceWaits(c, s.dev, k)
    requires s.toDev != [] && s.toDev[0] == PieceMessage(c.goal.data, k)
    requires c.md5Is(c.goal.data, Md5Local(c.goal.md5))
    ensures Enabled(c, s, DeviceReceives(GOOD)) && u == Next(c, s, DeviceReceives(GOOD)) && k < TWO_32
    ensures HasItAll(c, u.dev)
    ensures u == s.(dev := u.dev, verified := u.verified, toDev := s.toDev[1..],
                    toSnd := s.toSnd + [Tagged(YES, AboutPiece(k))])
  {
    hide Firmware, StoreBase64, DeviceWaits, Md5Local, Slice, Offset;
    if Firmware(c.goal) {
      LastPieceInstalls(c, s.dev, k);
    } else {
      GoodStoreAccepts(c, s.dev, k);
    }
    u := Next(c, s, DeviceReceives(GOOD));
  }

  lemma RefusesAtEnd(c: Setup, s: System, k: nat) returns (u: System)
    requires s.toDev != [] && s.toDev[0] == PieceMessage(c.goal.data, k) && k < TWO_32
    requires HasItAll(c, s.dev)
    ensures Enabled(c, s, DeviceReceives(GOOD)) && u == Next(c, s, DeviceReceives(GOOD))
    ensures u == s.(verified := u.verified, toDev := s.toDev[1..],
                    toSnd := s.toSnd + [Tagged(NOT_BEGUN, AboutPiece(k))])
  {
    hide Slice, Firmware;
    u := Next(c, s, DeviceReceives(GOOD));
    assert {} + {BeginNotCalled} == {BeginNotCalled};
  }

  lemma NotBegunAborts(c: Setup, s: System, now: int) returns (u: System)
    requires !Over(s.snd) && SliceValid(s.snd, c.goal.data) && |s.toSnd| == 1 && s.toSnd[0].resp == NOT_BEGUN
    ensures Enabled(c, s, SenderPass(1, now)) && u == Next(c, s, SenderPass(1, now)) && u.snd.state == Error
            && u.dev == s.dev
  {
    assert BeginNotCalled in NOT_BEGUN.err;
    SenderTakesOne(c, s, now);
    u := Next(c, s, SenderPass(1, now));
  }

  /** The device has the last piece and its answer is lost: the attempts after that change nothing. */
  lemma AttemptAtEnd(c: Setup, s: System, k: nat, fate: Fate) returns (u: System)
    requires AloneAtEnd(c, s, k) && s.snd.retries < MAX_PIECE_RETRIES
    ensures var actions := Attempt(fate, s.snd.timer + PATIENCE);
            Possible(c, s, actions) && Final(c, s, actions) == u
    ensures AloneAtEnd(c, u, k) && u.snd.retries == s.snd.retries + 1 && u.snd.timer == s.snd.timer + PATIENCE
  {
    hide Firmware, Slice, PieceMessage, Offset, Next, Enabled, NoStaleTraffic;
    var now := s.snd.timer + PATIENCE;
    if fate == PieceLost {
      RequestIsLost(c, s);
      var s1 := s.(toDev := []);
      u := Repeats(c, s1, k, now);
      PathIsRun(c, [RequestLost(0), SenderPass(0, now)], [s, s1, u]);
      assert Attempt(fate, now) == [RequestLost(0), SenderPass(0, now)];
    } else {
      var s1 := RefusesAtEnd(c, s, k);
      u := AnswerLostAtEnd(c, s, s1, k);
    }
  }

  /** The answer to the last piece is lost, and the piece is repeated. */
  lemma AnswerLostAtEnd(c: Setup, s: System, s1: System, k: nat) returns (u: System)
    requires SenderWaits(c, s, k) && s.snd.remaining == 0 && s.snd.retries < MAX_PIECE_RETRIES && k < TWO_32
    requires Enabled(c, s, DeviceReceives(GOOD)) && s1 == Next(c, s, DeviceReceives(GOOD))
    requires s1.snd == s.snd && s1.toDev == [] && |s1.toSnd| == 1 && HasItAll(c, s1.dev)
    ensures var actions := Attempt(AnswerLost, s.snd.timer + PATIENCE);
            Possible(c, s, actions) && Final(c, s, actions) == u
    ensures AloneAtEnd(c, u, k) && u.snd.retries == s.snd.retries + 1 && u.snd.timer == s.snd.timer + PATIENCE
  {
    hide Firmware, Slice, PieceMessage, Offset, Next, Enabled, NoStaleTraffic;
    var now := s.snd.timer + PATIENCE;
    ResponseIsLost(c, s1);
    var s2 := s1.(toSnd := []);
    u := Repeats(c, s2, k, now);
    PathIsRun(c, [DeviceReceives(GOOD), ResponseLost(0), SenderPass(0, now)], [s, s1, s2, u]);
    assert Attempt(AnswerLost, now) == [DeviceReceives(GOOD), ResponseLost(0), SenderPass(0, now)];
  }

  lemma {:induction false} AttemptsAtEnd(c: Setup, s: System, k: nat, fates: seq<Fate>) returns (u: System)
    requires AloneAtEnd(c, s, k) && s.snd.retries + |fates| <= MAX_PIECE_RETRIES
    ensures var actions := Attempts(fates, s.snd.timer); Possible(c, s, actions) && Final(c, s, actions) == u
    ensures AloneAtEnd(c, u, k) && u.snd.timer == s.snd.timer + PATIENCE * |fates|
    decreases |fates|
  {
    hide AloneAtEnd, Next, Enabled, NoStaleTraffic, Attempt;
    u := s;
    if fates != [] {
      var t := AttemptAtEnd(c, s, k, fates[0]);
      u := AttemptsAtEnd(c, t, k, fates[1..]);
      RunsCompose(c, s, Attempt(fates[0], s.snd.timer + PATIENCE), Attempts(fates[1..], t.snd.timer));
    }
  }

  /** The last piece is on the wire; after these attempts it still is, and the device has it exactly if an
      answer was among what was lost. */
  lemma {:induction false} LastAttemptsFail(c: Setup, s: System, k: nat, fates: seq<Fate>) returns (u: System)
    requires Alone(c, s, k, false) && PIECE_SIZE * (k + 1) >= |c.goal.data|
    requires s.snd.retries + |fates| <= MAX_PIECE_RETRIES && c.md5Is(c.goal.data, Md5Local(c.goal.md5))
    ensures var actions := Attempts(fates, s.snd.timer); Possible(c, s, actions) && Final(c, s, actions) == u
    ensures if AnswerLost in fates then AloneAtEnd(c, u, k) else Alone(c, u, k, false)
    ensures u.snd.timer == s.snd.timer + PATIENCE * |fates|
    decreases |fates|
  {
    hide AloneAtEnd, Alone, Next, Enabled, NoStaleTraffic, Attempt, Md5Local;
    u := s;
    if fates != [] {
      assert fates == [fates[0]] + fates[1..];
      var t;
      if fates[0] == PieceLost {
        t := LosesPiece(c, s, k, false);
        u := LastAttemptsFail(c, t, k, fates[1..]);
      } else {
        t := LastAnswerIsLost(c, s, k);
        u := AttemptsAtEnd(c, t, k, fates[1..]);
      }
      RunsCompose(c, s, Attempt(fates[0], s.snd.timer + PATIENCE), Attempts(fates[1..], t.snd.timer));
    }
  }

  lemma LastAnswerIsLost(c: Setup, s: System, k: nat) returns (u: System)
    requires Alone(c, s, k, false) && PIECE_SIZE * (k + 1) >= |c.goal.data|
    requires s.snd.retries < MAX_PIECE_RETRIES && c.md5Is(c.goal.data, Md5Local(c.goal.md5))
    ensures var actions := Attempt(AnswerLost, s.snd.timer + PATIENCE);
            Possible(c, s, actions) && Final(c, s, actions) == u
    ensures AloneAtEnd(c, u, k) && u.snd.retries == s.snd.retries + 1 && u.snd.timer == s.snd.timer + PATIENCE
  {
    hide Firmware, Slice, PieceMessage, Offset, Next, Enabled, NoStaleTraffic, DeviceWaits, Md5Local, Possible, Final;
    OffsetAtEnd(c.goal.data, k + 1);
    var s1 := LastIsStored(c, s, k);
    u := AnswerLostAtEnd(c, s, s1, k);
  }

  /** Lost attempts at the last piece are recovered exactly if no answer was among what was lost: the
      device has left its storing state by then, and refuses the repeat as a piece of no transfer. */
  lemma LastPieceRecoversIff(c: Setup, s: System, k: nat, fates: seq<Fate>) returns (u: System)
    requires InFlight(c, s, k) && s.snd.retries == 0 && PIECE_SIZE * (k + 1) >= |c.goal.data|
    requires |fates| <= MAX_PIECE_RETRIES && c.md5Is(c.goal.data, Md5Local(c.goal.md5))
    ensures var actions := Episode(Lost(fates), s.snd.timer); Possible(c, s, actions) && Final(c, s, actions) == u
    ensures u.snd.state == (if AnswerLost in fates then Error else WaitCheckAck) && HasItAll(c, u.dev)
  {
    hide Firmware, Slice, PieceMessage, Offset, Next, Enabled, NoStaleTraffic, DeviceWaits, Md5Local, Possible, Final,
        InFlight, Attempts;
    InFlightIsAlone(c, s, k);
    var t := LastAttemptsFail(c, s, k, fates);
    var now := t.snd.timer;
    var s1;
    if AnswerLost in fates {
      s1 := RefusesAtEnd(c, t, k);
      u := NotBegunAborts(c, s1, now);
    } else {
      OffsetAtEnd(c.goal.data, k + 1);
      s1 := LastIsStored(c, t, k);
      u := AwaitsResult(c, s1, now);
    }
    var two := [DeviceReceives(GOOD), SenderPass(1, now)];
    PathIsRun(c, two, [t, s1, u]);
    RunsCompose(c, s, Attempts(fates, s.snd.timer), two);
  }

  /** So a needless repeat of the last piece aborts a transfer whose every byte the device has, whether the two
      answers come to one pass or to two. */
  lemma LateLastAnswerAborts(c: Setup, s: System, k: nat, m: Mishap) returns (u: System)
    requires InFlight(c, s, k) && s.snd.retries == 0 && PIECE_SIZE * (k + 1) >= |c.goal.data| && !m.Lost?
    requires c.md5Is(c.goal.data, Md5Local(c.goal.md5))
    ensures var actions := Episode(m, s.snd.timer); Possible(c, s, actions) && Final(c, s, actions) == u
    ensures u.snd.state == Error && HasItAll(c, u.dev)
  {
    hide Firmware, Slice, PieceMessage, Offset, Next, Enabled, NoStaleTraffic, DeviceWaits, Md5Local;
    InFlightIsAlone(c, s, k);
    OffsetAtEnd(c.goal.data, k + 1);
    var now := s.snd.timer + PATIENCE;
    var s1 := Repeats(c, s, k, now);
    var s2 := LastIsStored(c, s1, k);
    if m == LateTogether {
      var s3 := RefusesAtEnd(c, s2, k);
      assert s3.toSnd == [Tagged(YES, AboutPiece(k)), Tagged(NOT_BEGUN, AboutPiece(k))];
      u := TwoAnswersAbort(c, s3, now);
      PathIsRun(c, Episode(m, s.snd.timer), [s, s1, s2, s3, u]);
    } else {
      var s3 := AwaitsResultStill(c, s2, now);
      var s4 := RefusesAtEnd(c, s3, k);
      u := NotBegunAborts(c, s4, now);
      PathIsRun(c, Episode(m, s.snd.timer), [s, s1, s2, s3, s4, u]);
    }
  }

  lemma TwoAnswersAbort(c: Setup, s: System, now: int) returns (u: System)
    requires s.snd.state == WaitPieceAck && s.snd.remaining == 0 && SliceValid(s.snd, c.goal.data)
    requires |s.toSnd| == 2 && s.toSnd[0].resp == YES && s.toSnd[1].resp == NOT_BEGUN
    ensures Enabled(c, s, SenderPass(2, now)) && u == Next(c, s, SenderPass(2, now)) && u.snd.state == Error
            && u.dev == s.dev
  {
    hide Next;
    SenderTakesAll(c, s, now);
    assert s.toSnd == [s.toSnd[0], s.toSnd[1]];
    PayloadsOfTwo(s.toSnd[0], s.toSnd[1]);
    DrainJoins(s.snd, [YES], [NOT_BEGUN], now);
    DrainOne(s.snd, YES, now);
    DrainOne(ProcessResponse(s.snd, YES, now), NOT_BEGUN, now);
    assert BeginNotCalled in NOT_BEGUN.err;
    u := Next(c, s, SenderPass(2, now));
  }

  /** As when nothing else is on the wire, the acceptance turns the sender to the result. */
  lemma AwaitsResultStill(c: Setup, s: System, now: int) returns (u: System)
    requires s.snd.state == WaitPieceAck && s.snd.remaining == 0 && SliceValid(s.snd, c.goal.data)
    requires |s.toSnd| == 1 && s.toSnd[0].resp == YES
    ensures Enabled(c, s, SenderPass(1, now)) && u == Next(c, s, SenderPass(1, now))
    ensures u == s.(snd := u.snd, toSnd := []) && u.snd.state == WaitCheckAck && SliceValid(u.snd, c.goal.data)
  {
    hide Next, Enabled;
    SenderTakesOne(c, s, now);
    u := Next(c, s, SenderPass(1, now));
    assert s.toDev + [] == s.toDev;
  }

  // ---------------------------------------------------------------- too many

  /** Four attempts in a row that come to nothing end the transfer. */
  lemma {:induction false} FourLossesAbort(c: Setup, s: System, k: nat, stored: bool, fates: seq<Fate>)
      returns (u: System)
    requires Alone(c, s, k, stored) && PIECE_SIZE * (k + 1) < |c.goal.data|
    requires fates != [] && s.snd.retries + |fates| == 4
    ensures var actions := Attempts(fates, s.snd.timer);
            Possible(c, s, actions) && Final(c, s, actions) == u && u.snd.state == Error
    decreases |fates|
  {
    hide Alone, Next, Enabled, NoStaleTraffic, Attempt;
    var first := Attempt(fates[0], s.snd.timer + PATIENCE);
    if |fates| == 1 {
      u := GivesUp(c, s, k, stored, fates[0]);
      assert Attempts(fates[1..], s.snd.timer + PATIENCE) == [];
      assert Attempts(fates, s.snd.timer) == first;
    } else {
      var t;
      if fates[0] == PieceLost {
        t := LosesPiece(c, s, k, stored);
      } else {
        t := LosesAnswer(c, s, k, stored);
      }
      u := FourLossesAbort(c, t, k, stored || fates[0] == AnswerLost, fates[1..]);
      RunsCompose(c, s, first, Attempts(fates[1..], t.snd.timer));
    }
  }

  lemma GivesUp(c: Setup, s: System, k: nat, stored: bool, fate: Fate) returns (u: System)
    requires Alone(c, s, k, stored) && PIECE_SIZE * (k + 1) < |c.goal.data| && s.snd.retries == MAX_PIECE_RETRIES
    ensures var actions := Attempt(fate, s.snd.timer + PATIENCE);
            Possible(c, s, actions) && Final(c, s, actions) == u && u.snd.state == Error
  {
    hide Firmware, Slice, Holds, PieceMessage, Offset, Next, Enabled, NoStaleTraffic;
    var now := s.snd.timer + PATIENCE;
    if fate == PieceLost {
      RequestIsLost(c, s);
      var s1 := s.(toDev := []);
      u := TimesOut(c, s1, k, now);
      PathIsRun(c, [RequestLost(0), SenderPass(0, now)], [s, s1, u]);
      assert Attempt(fate, now) == [RequestLost(0), SenderPass(0, now)];
    } else {
      var s1 := IsAnswered(c, s, k, stored);
      ResponseIsLost(c, s1);
      var s2 := s1.(toSnd := []);
      u := TimesOut(c, s2, k, now);
      PathIsRun(c, [DeviceReceives(GOOD), ResponseLost(0), SenderPass(0, now)], [s, s1, s2, u]);
      assert Attempt(fate, now) == [DeviceReceives(GOOD), ResponseLost(0), SenderPass(0, now)];
    }
  }

  lemma TimesOut(c: Setup, s: System, k: nat, now: int) returns (u: System)
    requires SenderWaits(c, s, k) && s.snd.retries == MAX_PIECE_RETRIES && now - s.snd.timer > TIMEOUT_MS
    ensures Enabled(c, s, SenderPass(0, now)) && u == Next(c, s, SenderPass(0, now)) && u.snd.state == Error
  {
    hide Slice, Offset;
    SenderTakesNone(c, s, now);
    u := Next(c, s, SenderPass(0, now));
  }

  /** A piece that was merely slow, repeated twice, aborts the transfer: the device refuses both repeats, and
      only one refusal is forgiven. */
  lemma TwoNeedlessRepeatsAbort(c: Setup, s: System, k: nat) returns (u: System, actions: seq<Action>)
    requires InFlight(c, s, k) && s.snd.retries == 0 && PIECE_SIZE * (k + 1) < |c.goal.data|
    ensures Possible(c, s, actions) && Smooth(actions) && Final(c, s, actions) == u && u.snd.state == Error
  {
    hide Firmware, Slice, DeviceWaits, PieceMessage, Offset, Next, Enabled, NoStaleTraffic, Act, Drain;
    InFlightIsAlone(c, s, k);
    OffsetOfNext(c.goal.data, k);
    var (t1, t2) := (s.snd.timer + PATIENCE, s.snd.timer + 2 * PATIENCE);
    var s1 := Repeats(c, s, k, t1);
    var s2 := Repeats(c, s1, k, t2);
    var s3 := IsAnswered(c, s2, k, false);
    var s4 := IsAnswered(c, s3, k, true);
    var s5 := IsAnswered(c, s4, k, true);
    u := ThreeAnswersAbort(c, s5, k, t2);
    actions := [SenderPass(0, t1), SenderPass(0, t2), DeviceReceives(GOOD), DeviceReceives(GOOD), DeviceReceives(GOOD),
        SenderPass(3, t2)];
    PathIsRun(c, actions, [s, s1, s2, s3, s4, s5, u]);
  }

  lemma ThreeAnswersAbort(c: Setup, s: System, k: nat, now: int) returns (u: System)
    requires SenderWaits(c, s, k) && s.snd.resent == Some(k) && s.snd.remaining > 0
    requires |s.toSnd| == 3 && s.toSnd[0].resp == YES && s.toSnd[1].resp == WRONG && s.toSnd[2].resp == WRONG
    ensures Enabled(c, s, SenderPass(3, now)) && u == Next(c, s, SenderPass(3, now)) && u.snd.state == Error
  {
    hide Slice, Offset, Next, Drain, ProcessResponse;
    SenderTakesAll(c, s, now);
    OneRefusalIsForgiven(s.snd, 2, now);
    var ts := s.toSnd;
    assert ts[1..] == [ts[1], ts[2]];
    PayloadsOfTwo(ts[1], ts[2]);
    assert Payloads(ts) == [ts[0].resp] + Payloads(ts[1..]);
    assert Payloads(ts) == [YES] + Refusals(2);
    u := Next(c, s, SenderPass(3, now));
  }
}
