/** A firmware image is verified while its last piece is stored, so the acceptance of that piece is as
    good as a result. With at most two pieces that is enough: DONE can be relied on without the
    sender's assumption. */
module TransferFirmware {
  import opened Common
  import opened TransferSender
  import opened TransferDevice
  import opened TransferSenderRuns
  import opened TransferSession
  import opened TransferSystem

  ghost predicate TwoPieces(c: Setup) { Firmware(c.goal) && |c.goal.data| <= 2 * PIECE_SIZE }

  /** Whoever says yes in this answer says it of a delivered image. */
  ghost predicate YesIsFinal(t: Tagged, s: System, c: Setup) {
    t.resp.Response? && (t.resp.ack ==> s.verified && Delivered(s.dev, c.goal, c.md5Is))
  }

  /** Both pieces have been published: the device is past the first one, and every positive answer
      that is still on its way is final. */
  ghost predicate LateInv(c: Setup, s: System) {
    && Consistent(s.snd, c.goal.data) && s.snd.pieceNumber == 2 && s.snd.state !in {WaitStartAck, SendingFw}
    && DeviceInv(c, s.dev, s.verified)
    && (s.dev.phase == Storing ==> s.dev.next >= 1)
    && (forall i :: 0 <= i < |s.toDev| ==> RequestFits(s.toDev[i], 2, c))
    && (forall i :: 0 <= i < |s.toSnd| ==> YesIsFinal(s.toSnd[i], s, c))
    && (s.snd.state == Done ==> s.verified && Delivered(s.dev, c.goal, c.md5Is))
  }

  ghost predicate EarlyInv(c: Setup, s: System) { Inv(c, s) && s.snd.pieceNumber <= 1 }

  ghost predicate FwInv(c: Setup, s: System) { s.snd.state == Error || EarlyInv(c, s) || LateInv(c, s) }

  // ---------------------------------------------------------------- the sender's steps

  lemma NothingLeft(s: Sender, data: seq<Byte>)
    requires Consistent(s, data) && s.pieceNumber == 2 && |data| <= 2 * PIECE_SIZE
    ensures s.remaining == 0
  {}

  lemma LateResponse(c: Setup, s: System, now: int)
    requires TwoPieces(c) && LateInv(c, s) && s.toSnd != []
    ensures var t := s.(snd := ProcessResponse(s.snd, s.toSnd[0].resp, now), toSnd := s.toSnd[1..]);
            t.snd.state == Error || LateInv(c, t)
  {
    hide Consistent, DeviceInv, Delivered, RequestFits, Firmware;
    ResponseKeepsConsistent(s.snd, c.goal.data, s.toSnd[0].resp, now);
    NothingLeft(s.snd, c.goal.data);
    assert YesIsFinal(s.toSnd[0], s, c);
  }

  /** An error is final. */
  lemma {:induction false} ErrorDrains(s: Sender, pending: seq<Response>, now: int)
    requires s.state == Error
    ensures Drain(s, pending, now).state == Error
    decreases |pending|
  {
    if pending != [] { ErrorDrains(ProcessResponse(s, pending[0], now), pending[1..], now); }
  }

  lemma {:induction false} LateDrain(c: Setup, s: System, taken: nat, now: int)
    requires TwoPieces(c) && LateInv(c, s) && taken <= |s.toSnd|
    ensures var t := s.(snd := Drain(s.snd, Payloads(s.toSnd[..taken]), now), toSnd := s.toSnd[taken..]);
            t.snd.state == Error || LateInv(c, t)
    decreases taken
  {
    hide LateInv, ProcessResponse, TwoPieces;
    if taken == 0 {
      assert s.toSnd[0..] == s.toSnd;
      assert s.(snd := s.snd, toSnd := s.toSnd[0..]) == s;
    } else {
      var u := s.(snd := ProcessResponse(s.snd, s.toSnd[0].resp, now), toSnd := s.toSnd[1..]);
      LateResponse(c, s, now);
      assert s.toSnd[..taken][1..] == u.toSnd[..taken - 1];
      assert s.toSnd[taken..] == u.toSnd[taken - 1..];
      if u.snd.state == Error {
        ErrorDrains(u.snd, Payloads(u.toSnd[..taken - 1]), now);
      } else {
        LateDrain(c, u, taken - 1, now);
      }
    }
  }

  lemma LateAct(c: Setup, s: System, now: int)
    requires TwoPieces(c) && LateInv(c, s)
    ensures SliceValid(s.snd, c.goal.data)
    ensures var (t, out) := Act(s.snd, c.goal.data, now); FwInv(c, s.(snd := t, toDev := s.toDev + out))
  {
    hide DeviceInv, Delivered, Consistent, PieceText, PieceMessage, Firmware, Inv;
    ActKeepsConsistent(s.snd, c.goal.data, now);
    NothingLeft(s.snd, c.goal.data);
    var (t, out) := Act(s.snd, c.goal.data, now);
    if out != [] {
      LastIsPublished(t, c.goal.data);
      assert out[0].Piece? && out[0].number == t.pieceNumber - 1 by { PieceMessageIs(c.goal.data, t.pieceNumber - 1); }
    }
  }

  lemma LastIsPublished(s: Sender, data: seq<Byte>)
    requires Consistent(s, data) && s.last.Some?
    ensures s.pieceNumber > 0 && s.last.value.number == s.pieceNumber - 1
  {}

  /** The second piece goes out: nothing about it can have been answered, and of the first one only
      refusals are left. */
  lemma EarlyAct(c: Setup, s: System, now: int)
    requires TwoPieces(c) && EarlyInv(c, s) && s.snd.state != Error
    ensures SliceValid(s.snd, c.goal.data)
    ensures var (t, out) := Act(s.snd, c.goal.data, now); FwInv(c, s.(snd := t, toDev := s.toDev + out))
  {
    hide DeviceInv, Delivered, Consistent, PieceText, PieceMessage, Firmware, StartInv, AcceptanceFirst;
    ActKeepsConsistent(s.snd, c.goal.data, now);
    var (t, out) := Act(s.snd, c.goal.data, now);
    if s.snd.state == SendingFw && s.snd.remaining > 0 && s.snd.pieceNumber == 1 {
      SecondPiece(c, s, now);
    } else {
      if Resends(s.snd, now) {
        LastIsPublished(s.snd, c.goal.data);
        NothingEarlier(s);
      }
      ActKeepsInv(c, s, now);
    }
  }

  lemma NothingEarlier(s: System)
    ensures OnlyAbout(s, 0)
  {}

  lemma SecondPiece(c: Setup, s: System, now: int)
    requires TwoPieces(c) && EarlyInv(c, s) && s.snd.state == SendingFw && s.snd.remaining > 0 && s.snd.pieceNumber == 1
    ensures SliceValid(s.snd, c.goal.data)
    ensures var (t, out) := Act(s.snd, c.goal.data, now); LateInv(c, s.(snd := t, toDev := s.toDev + out))
  {
    hide DeviceInv, Delivered, Consistent, PieceText, PieceMessage, Firmware, StartInv, AcceptanceFirst;
    ActKeepsConsistent(s.snd, c.goal.data, now);
    var (t, out) := Act(s.snd, c.goal.data, now);
    PieceMessageIs(c.goal.data, 1);
    LastIsPublished(t, c.goal.data);
    assert out == [PieceMessage(c.goal.data, 1)];
    var u := s.(snd := t, toDev := s.toDev + out);
    forall i | 0 <= i < |s.toSnd| ensures YesIsFinal(s.toSnd[i], u, c) {
      assert AnswerFits(s.toSnd[i], 1, 1, s.dev, s.verified, c);
    }
  }

  lemma FwPass(c: Setup, s: System, a: Action)
    requires TwoPieces(c) && FwInv(c, s) && a.SenderPass? && Enabled(c, s, a)
    ensures FwInv(c, Next(c, s, a))
  {
    hide Inv, LateInv, Act, Drain, TwoPieces;
    var u := s.(snd := Drain(s.snd, Payloads(s.toSnd[..a.taken]), a.now), toSnd := s.toSnd[a.taken..]);
    DrainKeepsSlices(s.snd, Payloads(s.toSnd[..a.taken]), a.now);
    assert s.snd.state != Error;
    if EarlyInv(c, s) {
      DrainKeepsInv(c, s, a.taken, a.now);
      if u.snd.state == Error { ErrorActs(c, u, a.now); } else { EarlyAct(c, u, a.now); }
    } else {
      LateDrain(c, s, a.taken, a.now);
      if u.snd.state == Error { ErrorActs(c, u, a.now); } else { LateAct(c, u, a.now); }
    }
  }

  lemma ErrorActs(c: Setup, s: System, now: int)
    requires s.snd.state == Error && SliceValid(s.snd, c.goal.data)
    ensures Act(s.snd, c.goal.data, now).0.state == Error
  {}

  // ---------------------------------------------------------------- the device's steps

  /** With the second piece accepted the image is complete. */
  lemma SecondIsLast(c: Setup, e: Device)
    requires TwoPieces(c) && Session(e, c.goal, c.md5Is) && e.next >= 2
    ensures e.phase != Storing
  {
    assert Offset(c.goal.data, e.next) == |c.goal.data|;
    if e.phase == Storing { HoldingOf(e, c.goal, c.md5Is); }
  }

  lemma LateArrival(c: Setup, s: System, env: Env)
    requires TwoPieces(c) && LateInv(c, s) && s.toDev != []
    ensures LateInv(c, Next(c, s, DeviceReceives(env)))
  {
    hide Consistent, Delivered, MessageArrived, PieceMessage, Session, ResultHonest, Firmware;
    var r := s.toDev[0];
    assert RequestFits(r, 2, c);
    ArrivalIsAnswered(c, s.dev, r.number, env, s.verified);
    var (e, m) := MessageArrived(s.dev, r, env, c.md5Is);
    var u := Next(c, s, DeviceReceives(env));
    if m.Some? && m.value.ack {
      assert r.number == 1;
      if e.phase == Storing { SecondIsLast(c, e); }
      assert Passed(e);
      PassedIsDelivered(e, c);
    }
    forall i | 0 <= i < |s.toSnd| ensures YesIsFinal(s.toSnd[i], u, c) { assert YesIsFinal(s.toSnd[i], s, c); }
    var reply := Reply(m, AboutPiece(r.number));
    assert forall i :: 0 <= i < |reply| ==> YesIsFinal(reply[i], u, c);
  }

  lemma PassedIsDelivered(d: Device, c: Setup)
    requires Passed(d) && ResultHonest(d, c.goal, c.md5Is)
    ensures Delivered(d, c.goal, c.md5Is)
  {}

  lemma LateTask(c: Setup, s: System, env: Env)
    requires LateInv(c, s)
    ensures LateInv(c, Next(c, s, DeviceTask(env)))
  {
    hide Consistent, RunTask, Session, Delivered, ResultHonest, RequestFits;
    RunKeepsSession(s.dev, c.goal, env, c.md5Is);
    var (e, m) := RunTask(s.dev, env, c.md5Is);
    var u := Next(c, s, DeviceTask(env));
    forall i | 0 <= i < |s.toSnd| ensures YesIsFinal(s.toSnd[i], u, c) { assert YesIsFinal(s.toSnd[i], s, c); }
    var reply := Reply(m, AboutResult);
    assert forall i :: 0 <= i < |reply| ==> YesIsFinal(reply[i], u, c);
  }

  lemma LateRestart(c: Setup, s: System)
    requires LateInv(c, s)
    ensures LateInv(c, Next(c, s, DeviceRestarts))
  {
    hide Consistent, Session, Delivered, ResultHonest, PowerUp, RequestFits;
    PowerUpIsQuiet(s.dev, c.goal);
    RestartKeepsSession(s.dev, c.goal, c.md5Is);
    var u := Next(c, s, DeviceRestarts);
    forall i | 0 <= i < |s.toSnd| ensures YesIsFinal(s.toSnd[i], u, c) { assert YesIsFinal(s.toSnd[i], s, c); }
  }

  lemma LateLoss(c: Setup, s: System, a: Action)
    requires LateInv(c, s) && (a.RequestLost? || a.ResponseLost?) && Enabled(c, s, a)
    ensures LateInv(c, Next(c, s, a))
  {
    hide Consistent, DeviceInv, Delivered, RequestFits;
    var u := Next(c, s, a);
    forall i | 0 <= i < |u.toSnd| ensures YesIsFinal(u.toSnd[i], u, c) {
      var j := if a.ResponseLost? && i >= a.index then i + 1 else i;
      assert u.toSnd[i] == s.toSnd[j] && YesIsFinal(s.toSnd[j], s, c);
    }
  }

  // ---------------------------------------------------------------- every run

  lemma FwStep(c: Setup, s: System, a: Action)
    requires TwoPieces(c) && FwInv(c, s) && Enabled(c, s, a)
    ensures FwInv(c, Next(c, s, a))
  {
    if a.SenderPass? {
      FwPass(c, s, a);
    } else if s.snd.state == Error {
    } else if EarlyInv(c, s) {
      hide Inv;
      StepKeepsInv(c, s, a);
    } else {
      hide LateInv;
      match a
      case DeviceReceives(env) => LateArrival(c, s, env);
      case DeviceTask(env) => LateTask(c, s, env);
      case DeviceRestarts => LateRestart(c, s);
      case RequestLost(_) => LateLoss(c, s, a);
      case ResponseLost(_) => LateLoss(c, s, a);
    }
  }

  lemma {:induction false} FwRun(c: Setup, s: System, actions: seq<Action>)
    requires TwoPieces(c) && FwInv(c, s) && Possible(c, s, actions)
    ensures FwInv(c, Final(c, s, actions))
    decreases |actions|
  {
    hide FwInv, Next, Enabled, TwoPieces;
    if actions != [] {
      FwStep(c, s, actions[0]);
      FwRun(c, Next(c, s, actions[0]), actions[1..]);
    }
  }

  /** A firmware image of at most two pieces needs no assumption: on every run DONE means that it was
      verified and installed. */
  lemma TwoPieceFirmwareIsSafe(c: Setup, s: System, actions: seq<Action>)
    requires TwoPieces(c) && Initial(c, s) && Possible(c, s, actions)
    ensures DoneIsTrue(c, Final(c, s, actions))
  {
    hide Final, Possible, Delivered, TwoPieces;
    InitialInv(c, s);
    FwRun(c, s, actions);
  }
}
