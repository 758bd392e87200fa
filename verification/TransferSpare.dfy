/** One acknowledgment to spare. A positive result of an earlier transfer that is still waiting on the device can be
    taken for any answer of the new one, so that the sender runs one acknowledgment ahead. For a firmware that does
    no harm, as long as no transfer is open when it starts: the acceptance of its last piece is itself the proof
    of the installed image, and without that acceptance the sender is always one short of DONE. */
module TransferSpare {
  import opened Common
  import opened TransferSender
  import opened TransferDevice
  import opened TransferSenderRuns
  import opened TransferSession
  import opened TransferSystem
  import opened TransferFirmware
  import opened TransferAssumption

  // ---------------------------------------------------------------- what is on the wire

  predicate Numbered(t: Tagged) { !t.about.AboutResult? }

  /** What a message is about: the start comes before every piece. */
  function Num(t: Tagged): int { if t.about.AboutPiece? then t.about.number else -1 }
  function ReqNum(m: Request): int { if m.Piece? then m.number else -1 }

  predicate IsYes(t: Tagged) { t.resp.Response? && t.resp.ack }
  predicate IsWrong(t: Tagged) { t.resp == Response(false, {WrongFilePieceNumber}) }

  ghost function Yes(ts: seq<Tagged>): nat {
    if ts == [] then 0 else (if IsYes(ts[0]) then 1 else 0) + Yes(ts[1..])
  }

  /** Those of them that are results. */
  ghost function Results(ts: seq<Tagged>): nat {
    if ts == [] then 0 else (if IsYes(ts[0]) && !Numbered(ts[0]) then 1 else 0) + Results(ts[1..])
  }

  lemma {:induction false} CountsJoin(a: seq<Tagged>, b: seq<Tagged>)
    ensures Yes(a + b) == Yes(a) + Yes(b) && Results(a + b) == Results(a) + Results(b)
    decreases |a|
  {
    if a == [] {
      assert a + b == b;
    } else {
      assert (a + b)[0] == a[0] && (a + b)[1..] == a[1..] + b;
      CountsJoin(a[1..], b);
    }
  }

  lemma CountsOfOne(t: Tagged)
    ensures Yes([t]) == (if IsYes(t) then 1 else 0) && Results([t]) == (if IsYes(t) && !Numbered(t) then 1 else 0)
  {
    assert [t][1..] == [];
  }

  lemma CountsOfNone()
    ensures Yes([]) == 0 && Results([]) == 0
  {}

  lemma CountsWithout(ts: seq<Tagged>, i: nat)
    requires i < |ts|
    ensures Yes(Without(ts, i)) <= Yes(ts) && Results(Without(ts, i)) <= Results(ts)
  {
    assert ts == ts[..i] + ([ts[i]] + ts[i + 1..]);
    CountsJoin(ts[..i], [ts[i]] + ts[i + 1..]);
    CountsJoin([ts[i]], ts[i + 1..]);
    CountsJoin(ts[..i], ts[i + 1..]);
  }

  lemma {:induction false} OnlyResults(ts: seq<Tagged>)
    requires forall i :: 0 <= i < |ts| ==> Numbered(ts[i]) ==> !IsYes(ts[i])
    ensures Yes(ts) == Results(ts)
    decreases |ts|
  {
    if ts != [] { OnlyResults(ts[1..]); }
  }

  ghost predicate Requests(q: seq<Request>, n: nat, c: Setup) {
    && (forall i :: 0 <= i < |q| ==> (i == 0 && q[i] == StartMessage(c)) || RequestFits(q[i], n, c))
    && (forall i, j :: 0 <= i < j < |q| ==> ReqNum(q[i]) <= ReqNum(q[j]))
  }

  ghost predicate Answers(ts: seq<Tagged>, n: nat) {
    && (forall i :: 0 <= i < |ts| ==>
          ts[i].resp.Response? && Num(ts[i]) < n && (IsWrong(ts[i]) ==> ts[i].about.AboutPiece?))
    && (forall i, j :: 0 <= i < j < |ts| && Numbered(ts[i]) && Numbered(ts[j]) ==> Num(ts[i]) <= Num(ts[j]))
  }

  /** Answers are about what was sent before the requests still on their way. */
  ghost predicate Before(ts: seq<Tagged>, q: seq<Request>) {
    forall i, j :: 0 <= i < |ts| && 0 <= j < |q| && Numbered(ts[i]) ==> Num(ts[i]) <= ReqNum(q[j])
  }

  /** A piece once refused for its number is not accepted later; `r` counts what the device has accepted. */
  ghost predicate Refused(ts: seq<Tagged>, r: int) {
    && (forall i :: 0 <= i < |ts| && IsWrong(ts[i]) ==> r != Num(ts[i]) + 1)
    && (forall i, j :: 0 <= i < j < |ts| && IsWrong(ts[i]) && Numbered(ts[j]) && IsYes(ts[j])
            ==> Num(ts[i]) < Num(ts[j]))
  }

  ghost predicate Flow(c: Setup, s: System, r: int) {
    && Requests(s.toDev, s.snd.pieceNumber, c) && Answers(s.toSnd, s.snd.pieceNumber)
    && Before(s.toSnd, s.toDev) && Refused(s.toSnd, r)
  }

  // ---------------------------------------------------------------- the invariants

  predicate NoStart(q: seq<Request>) { forall i :: 0 <= i < |q| ==> q[i].Piece? }

  predicate Resting(d: Device) { d.phase in {Quiet, Cleanup} }

  /** What the sender has been credited with. */
  ghost function Pos(s: Sender): int { if s.state == WaitStartAck then 0 else 1 + Credited(s) }

  ghost function Spare(d: Device): int { if Passed(d) then 1 else 0 }

  ghost predicate Budget(s: System, r: int) {
    && Pos(s.snd) + Yes(s.toSnd) + Spare(s.dev) <= r + 1
    && Results(s.toSnd) + Spare(s.dev) <= 1 && 0 <= r <= s.snd.pieceNumber + 1
  }

  /** The start is on its way, the session is open, or it is over for good; `r` is what the device has accepted. */
  ghost predicate Stage(c: Setup, s: System, r: int) {
    if !NoStart(s.toDev) then r == 0 && Resting(s.dev) && Untouched(s.dev, c.goal)
    else
      && Session(s.dev, c.goal, c.md5Is) && 100 * (r - 1) < |c.goal.data|
      && if s.dev.phase == Storing then r == 1 + s.dev.next else Resting(s.dev)
  }

  ghost predicate Running(c: Setup, s: System, r: int) {
    && Consistent(s.snd, c.goal.data) && s.snd.state !in {Done, Error}
    && Flow(c, s, r) && Stage(c, s, r) && Budget(s, r) && WrongFilePieceNumber !in s.dev.errs
    && (s.snd.state == WaitPieceAck && s.snd.resent == Some(Credited(s.snd)) ==> OnlyAbout(s, Credited(s.snd)))
  }

  /** A piece is missing that nobody will send again, and no acknowledgment is left anywhere. */
  ghost predicate Dead(c: Setup, s: System) {
    && Consistent(s.snd, c.goal.data) && s.snd.state !in {Done, Error, WaitStartAck}
    && Yes(s.toSnd) == 0 && !Passed(s.dev) && s.dev.phase != Check && NoStart(s.toDev)
    && (s.dev.phase == Storing ==>
          && s.dev.next < s.snd.pieceNumber - 1
          && forall i :: 0 <= i < |s.toDev| ==> s.dev.next < ReqNum(s.toDev[i]))
  }

  ghost predicate Installed(c: Setup, s: System) {
    && Consistent(s.snd, c.goal.data) && s.verified && Delivered(s.dev, c.goal, c.md5Is)
    && Resting(s.dev) && NoStart(s.toDev)
  }

  ghost predicate Safe(c: Setup, s: System) {
    s.snd.state == Error || Dead(c, s) || Installed(c, s) || exists r :: Running(c, s, r)
  }

  // ---------------------------------------------------------------- reading an answer

  lemma FlowOfRest(c: Setup, s: System, r: int, snd: Sender)
    requires Flow(c, s, r) && s.toSnd != [] && snd.pieceNumber == s.snd.pieceNumber
    ensures Flow(c, s.(snd := snd, toSnd := s.toSnd[1..]), r)
  {
    hide RequestFits;
    var rest := s.toSnd[1..];
    assert forall i :: 0 <= i < |rest| ==> rest[i] == s.toSnd[i + 1];
    assert Answers(rest, s.snd.pieceNumber) by {
      forall i, j | 0 <= i < j < |rest| && Numbered(rest[i]) && Numbered(rest[j]) ensures Num(rest[i]) <= Num(rest[j]) {
        assert rest[i] == s.toSnd[i + 1] && rest[j] == s.toSnd[j + 1];
      }
    }
    assert Refused(rest, r) by {
      forall i, j | 0 <= i < j < |rest| && IsWrong(rest[i]) && Numbered(rest[j]) && IsYes(rest[j])
        ensures Num(rest[i]) < Num(rest[j])
      {
        assert rest[i] == s.toSnd[i + 1] && rest[j] == s.toSnd[j + 1];
      }
    }
  }

  /** The state after one answer has been read. */
  ghost function Read(s: System, now: int): System
    requires s.toSnd != []
  {
    s.(snd := ProcessResponse(s.snd, s.toSnd[0].resp, now), toSnd := s.toSnd[1..])
  }

  lemma HeadCounts(ts: seq<Tagged>)
    requires ts != []
    ensures Yes(ts) == (if IsYes(ts[0]) then 1 else 0) + Yes(ts[1..])
    ensures Results(ts) == (if IsYes(ts[0]) && !Numbered(ts[0]) then 1 else 0) + Results(ts[1..])
  {}

  lemma ReadsYes(c: Setup, s: System, r: int, now: int)
    requires Running(c, s, r) && s.toSnd != [] && IsYes(s.toSnd[0])
    ensures var t := Read(s, now); t.snd.state == Error || Running(c, t, r)
  {
    hide Flow, Session, Untouched, Yes, Results, Slice;
    var t := Read(s, now);
    ResponseKeepsConsistent(s.snd, c.goal.data, s.toSnd[0].resp, now);
    FlowOfRest(c, s, r, t.snd);
    HeadCounts(s.toSnd);
    StageBounds(c, s, r);
    assert s.snd.state == WaitCheckAck ==> 100 * s.snd.pieceNumber >= |c.goal.data|;
  }

  lemma StageBounds(c: Setup, s: System, r: int)
    requires Stage(c, s, r)
    ensures 100 * (r - 1) < |c.goal.data|
  {
    hide Session;
  }

  /** No acceptance of a piece is behind the refusal of the one in flight. */
  lemma NoYesBehind(c: Setup, s: System, r: int)
    requires Flow(c, s, r) && s.toSnd != [] && IsWrong(s.toSnd[0]) && Num(s.toSnd[0]) == s.snd.pieceNumber - 1
    ensures Yes(s.toSnd[1..]) == Results(s.toSnd[1..])
  {
    hide Requests, Before;
    var rest := s.toSnd[1..];
    forall i | 0 <= i < |rest| ensures Numbered(rest[i]) ==> !IsYes(rest[i]) {
      assert rest[i] == s.toSnd[i + 1];
    }
    OnlyResults(rest);
  }

  /** The refusal that confirms a repeat is about that piece. */
  lemma ConfirmIsAbout(c: Setup, s: System, r: int)
    requires Running(c, s, r) && s.toSnd != [] && ConfirmsThePieceInFlight(s.snd, s.toSnd[0].resp)
    ensures IsWrong(s.toSnd[0]) && Num(s.toSnd[0]) == s.snd.pieceNumber - 1 == Credited(s.snd)
  {
    hide Stage, Yes, Results, Requests, Before, Refused;
    LastIsInFlight(s.snd, c.goal.data);
    assert !EarlierAnswer(s.toSnd[0], Credited(s.snd));
  }

  lemma ReadsConfirmation(c: Setup, s: System, r: int, now: int)
    requires Running(c, s, r) && s.toSnd != [] && ConfirmsThePieceInFlight(s.snd, s.toSnd[0].resp)
    ensures Running(c, Read(s, now), r) || Dead(c, Read(s, now))
  {
    ConfirmIsAbout(c, s, r);
    var (t, k) := (Read(s, now), s.snd.pieceNumber - 1);
    ResponseKeepsConsistent(s.snd, c.goal.data, s.toSnd[0].resp, now);
    FlowOfRest(c, s, r, t.snd);
    HeadCounts(s.toSnd);
    NoYesBehind(c, s, r);
    assert r != k + 1;
    hide Session, Untouched, Yes, Results, Slice, Requests, Answers, Refused, Consistent;
    if r == k + 2 {
      assert Budget(t, r);
      assert Running(c, t, r);
    } else {
      assert Yes(t.toSnd) == 0 && Spare(s.dev) == 0;
      StartIsBehind(c, s);
      DeadAfter(c, s, t, r, k);
    }
  }

  /** An answer about a piece comes after the start. */
  lemma StartIsBehind(c: Setup, s: System)
    requires Before(s.toSnd, s.toDev) && s.toSnd != [] && s.toSnd[0].about.AboutPiece?
    ensures NoStart(s.toDev)
  {
    forall j | 0 <= j < |s.toDev| ensures s.toDev[j].Piece? {
      assert Num(s.toSnd[0]) <= ReqNum(s.toDev[j]);
    }
  }

  lemma DeadAfter(c: Setup, s: System, t: System, r: int, k: nat)
    requires Stage(c, s, r) && NoStart(s.toDev) && r <= k && k == s.snd.pieceNumber - 1
    requires Before(s.toSnd, s.toDev) && s.toSnd != [] && s.toSnd[0].about == AboutPiece(k)
    requires t == s.(snd := t.snd, toSnd := s.toSnd[1..]) && t.snd.pieceNumber == k + 1
    requires Consistent(t.snd, c.goal.data) && t.snd.state in {SendingFw, WaitCheckAck}
    requires Yes(t.toSnd) == 0 && Spare(s.dev) == 0
    ensures Dead(c, t)
  {
    hide Consistent, Session, Yes;
    forall j | 0 <= j < |s.toDev| ensures k <= ReqNum(s.toDev[j]) {
      assert Num(s.toSnd[0]) <= ReqNum(s.toDev[j]);
    }
  }

  lemma ReadsOther(c: Setup, s: System, r: int, now: int)
    requires Running(c, s, r) && s.toSnd != [] && !IsYes(s.toSnd[0])
    requires !ConfirmsThePieceInFlight(s.snd, s.toSnd[0].resp)
    ensures var t := Read(s, now); t.snd.state == Error || Running(c, t, r)
  {
    hide Session, Untouched, Yes, Results, Slice, Requests, Before, Refused;
    var t := Read(s, now);
    ResponseKeepsConsistent(s.snd, c.goal.data, s.toSnd[0].resp, now);
    FlowOfRest(c, s, r, t.snd);
    HeadCounts(s.toSnd);
    assert s.toSnd[0].resp.Response?;
  }

  lemma ReadsDead(c: Setup, s: System, now: int)
    requires Dead(c, s) && s.toSnd != []
    ensures var t := Read(s, now); t.snd.state == Error || Dead(c, t)
  {
    hide Slice;
    ResponseKeepsConsistent(s.snd, c.goal.data, s.toSnd[0].resp, now);
    HeadCounts(s.toSnd);
  }

  lemma ReadKeepsSafe(c: Setup, s: System, now: int)
    requires Safe(c, s) && s.toSnd != []
    ensures Safe(c, Read(s, now))
  {
    hide Running, Dead, ProcessResponse, Delivered;
    if s.snd.state == Error {
      ErrorStays(s.snd, s.toSnd[0].resp, now);
    } else if Dead(c, s) {
      ReadsDead(c, s, now);
    } else if Installed(c, s) {
      ResponseKeepsConsistent(s.snd, c.goal.data, s.toSnd[0].resp, now);
    } else {
      var r :| Running(c, s, r);
      if IsYes(s.toSnd[0]) {
        ReadsYes(c, s, r, now);
      } else if ConfirmsThePieceInFlight(s.snd, s.toSnd[0].resp) {
        ReadsConfirmation(c, s, r, now);
      } else {
        ReadsOther(c, s, r, now);
      }
    }
  }

  lemma ErrorStays(s: Sender, m: Response, now: int)
    requires s.state == Error
    ensures ProcessResponse(s, m, now).state == Error
  {}

  lemma {:induction false} DrainKeepsSafe(c: Setup, s: System, taken: nat, now: int)
    requires Safe(c, s) && taken <= |s.toSnd|
    ensures Safe(c, s.(snd := Drain(s.snd, Payloads(s.toSnd[..taken]), now), toSnd := s.toSnd[taken..]))
    decreases taken
  {
    hide Safe, ProcessResponse;
    if taken == 0 {
      assert s.toSnd[0..] == s.toSnd;
      assert s.(snd := s.snd, toSnd := s.toSnd[0..]) == s;
    } else {
      var u := Read(s, now);
      ReadKeepsSafe(c, s, now);
      DrainKeepsSafe(c, u, taken - 1, now);
      assert s.toSnd[..taken][1..] == u.toSnd[..taken - 1];
      assert s.toSnd[taken..] == u.toSnd[taken - 1..];
    }
  }

  // ---------------------------------------------------------------- sending

  lemma SendsNew(c: Setup, s: System, r: int, now: int)
    requires Running(c, s, r) && s.snd.state == SendingFw && s.snd.remaining > 0
    ensures SliceValid(s.snd, c.goal.data)
    ensures var (t, out) := Act(s.snd, c.goal.data, now); Running(c, s.(snd := t, toDev := s.toDev + out), r)
  {
    hide Stage, Yes, Results, Refused, PieceText, PieceMessage, Consistent, Session;
    var n := s.snd.pieceNumber;
    ActKeepsConsistent(s.snd, c.goal.data, now);
    var (t, out) := Act(s.snd, c.goal.data, now);
    var u := s.(snd := t, toDev := s.toDev + out);
    assert t.pieceNumber == n + 1 && Credited(t) == n;
    assert out == [PieceMessage(c.goal.data, n)] && out[0].Piece? && out[0].number == n by {
      PieceMessageIs(c.goal.data, n);
    }
    RepeatIsBehind(s.snd, c.goal.data);
    StageSends(c, s, u, r);
    assert Requests(u.toDev, n + 1, c);
  }

  lemma StageSends(c: Setup, s: System, u: System, r: int)
    requires Stage(c, s, r) && u == s.(snd := u.snd, toDev := u.toDev)
    requires || u.toDev == s.toDev
             || (|u.toDev| == |s.toDev| + 1 && u.toDev[..|s.toDev|] == s.toDev && u.toDev[|s.toDev|].Piece?)
    ensures Stage(c, u, r)
  {
    hide Session, Untouched;
    assert forall i :: 0 <= i < |s.toDev| ==> u.toDev[i] == s.toDev[i];
  }

  lemma SendsAgain(c: Setup, s: System, r: int, now: int)
    requires Running(c, s, r) && Resends(s.snd, now) && OnlyAbout(s, s.snd.last.value.number)
    ensures SliceValid(s.snd, c.goal.data)
    ensures var (t, out) := Act(s.snd, c.goal.data, now); Running(c, s.(snd := t, toDev := s.toDev + out), r)
  {
    hide Stage, Yes, Results, Refused, PieceText, PieceMessage, Consistent, Session;
    var k := s.snd.pieceNumber - 1;
    ActKeepsConsistent(s.snd, c.goal.data, now);
    LastIsInFlight(s.snd, c.goal.data);
    var (t, out) := Act(s.snd, c.goal.data, now);
    var u := s.(snd := t, toDev := s.toDev + out);
    assert out == [PieceMessage(c.goal.data, k)] && out[0].Piece? && out[0].number == k by {
      PieceMessageIs(c.goal.data, k);
    }
    StageSends(c, s, u, r);
    assert Requests(u.toDev, k + 1, c);
    assert Before(u.toSnd, u.toDev) by { hide RequestFits; }
  }

  lemma SendsNothing(c: Setup, s: System, r: int, now: int)
    requires Running(c, s, r) && !(s.snd.state == SendingFw && s.snd.remaining > 0) && !Resends(s.snd, now)
    ensures SliceValid(s.snd, c.goal.data)
    ensures var (t, out) := Act(s.snd, c.goal.data, now);
            t.state == Error || Running(c, s.(snd := t, toDev := s.toDev + out), r)
  {
    hide Stage, Yes, Results, Flow, Session, Slice;
    ActKeepsConsistent(s.snd, c.goal.data, now);
    var (t, out) := Act(s.snd, c.goal.data, now);
    assert s.toDev + [] == s.toDev;
    assert out == [];
    StageSends(c, s, s.(snd := t), r);
    SameFlow(c, s, t, r);
  }

  lemma SameFlow(c: Setup, s: System, t: Sender, r: int)
    requires Flow(c, s, r) && t.pieceNumber == s.snd.pieceNumber
    ensures Flow(c, s.(snd := t), r)
  {}

  lemma DeadActs(c: Setup, s: System, now: int)
    requires Dead(c, s)
    ensures SliceValid(s.snd, c.goal.data)
    ensures var (t, out) := Act(s.snd, c.goal.data, now);
            t.state == Error || Dead(c, s.(snd := t, toDev := s.toDev + out))
  {
    hide Yes, PieceText, PieceMessage, Consistent;
    ActKeepsConsistent(s.snd, c.goal.data, now);
    var (t, out) := Act(s.snd, c.goal.data, now);
    if out != [] {
      LastIsPublished(t, c.goal.data);
      PieceMessageIs(c.goal.data, t.pieceNumber - 1);
    }
  }

  lemma InstalledActs(c: Setup, s: System, now: int)
    requires Installed(c, s)
    ensures SliceValid(s.snd, c.goal.data)
    ensures var (t, out) := Act(s.snd, c.goal.data, now); Installed(c, s.(snd := t, toDev := s.toDev + out))
  {
    hide Delivered, PieceText, PieceMessage, Consistent;
    ActKeepsConsistent(s.snd, c.goal.data, now);
    var (t, out) := Act(s.snd, c.goal.data, now);
    if out != [] { PieceMessageIs(c.goal.data, t.last.value.number); }
  }

  lemma ActKeepsSafe(c: Setup, s: System, now: int)
    requires Safe(c, s) && SliceValid(s.snd, c.goal.data)
    requires Resends(s.snd, now) ==> OnlyAbout(s, s.snd.last.value.number)
    ensures var (t, out) := Act(s.snd, c.goal.data, now); Safe(c, s.(snd := t, toDev := s.toDev + out))
  {
    hide Running, Dead, Installed, Act;
    if s.snd.state == Error {
      ErrorActs(c, s, now);
    } else if Dead(c, s) {
      DeadActs(c, s, now);
    } else if Installed(c, s) {
      InstalledActs(c, s, now);
    } else {
      var r :| Running(c, s, r);
      if s.snd.state == SendingFw && s.snd.remaining > 0 {
        SendsNew(c, s, r, now);
      } else if Resends(s.snd, now) {
        SendsAgain(c, s, r, now);
      } else {
        SendsNothing(c, s, r, now);
      }
    }
  }

  lemma PassKeepsSafe(c: Setup, s: System, a: Action)
    requires a.SenderPass? && Safe(c, s) && Enabled(c, s, a) && NoStaleTraffic(c, s, a)
    ensures Safe(c, Next(c, s, a))
  {
    hide Safe, Act, Drain;
    var t := Drain(s.snd, Payloads(s.toSnd[..a.taken]), a.now);
    var u := s.(snd := t, toSnd := s.toSnd[a.taken..]);
    DrainKeepsSafe(c, s, a.taken, a.now);
    DrainKeepsSlices(s.snd, Payloads(s.toSnd[..a.taken]), a.now);
    forall i | 0 <= i < |u.toSnd| && Resends(t, a.now) ensures !EarlierAnswer(u.toSnd[i], t.last.value.number) {
      assert u.toSnd[i] == s.toSnd[a.taken + i];
    }
    ActKeepsSafe(c, u, a.now);
  }

  // ---------------------------------------------------------------- what the device answers

  lemma FlowOfReply(c: Setup, s: System, u: System, r: int, q: int, t: Tagged)
    requires Flow(c, s, r) && s.toDev != [] && t.about == AboutOf(s.toDev[0]) && t.resp.Response?
    requires u.snd == s.snd && u.toDev == s.toDev[1..] && u.toSnd == s.toSnd + [t]
    requires IsWrong(t) ==> t.about.AboutPiece? && q != Num(t) + 1
    requires forall i :: 0 <= i < |s.toSnd| && IsWrong(s.toSnd[i]) ==> q != Num(s.toSnd[i]) + 1
    requires IsYes(t) ==> forall i :: 0 <= i < |s.toSnd| && IsWrong(s.toSnd[i]) ==> Num(s.toSnd[i]) < Num(t)
    ensures Flow(c, u, q)
  {
    assert Num(t) == ReqNum(s.toDev[0]);
    assert forall j :: 0 <= j < |u.toDev| ==> u.toDev[j] == s.toDev[j + 1];
    assert Requests(u.toDev, u.snd.pieceNumber, c) by {
      hide Answers, Before, Refused;
      forall j | 0 <= j < |u.toDev| ensures RequestFits(u.toDev[j], u.snd.pieceNumber, c) {
        assert u.toDev[j] == s.toDev[j + 1];
      }
    }
    hide Requests, RequestFits;
    assert Answers(u.toSnd, u.snd.pieceNumber) by {
      hide Refused;
      NumFits(c, s);
      assert forall i :: 0 <= i < |s.toSnd| && Numbered(s.toSnd[i]) ==> Num(s.toSnd[i]) <= ReqNum(s.toDev[0]);
    }
    assert Before(u.toSnd, u.toDev) by {
      hide Refused, Answers;
      HeadIsFirst(c, s);
    }
    assert Refused(u.toSnd, q);
  }

  lemma NumFits(c: Setup, s: System)
    requires Requests(s.toDev, s.snd.pieceNumber, c) && s.toDev != []
    ensures ReqNum(s.toDev[0]) < s.snd.pieceNumber
  {}

  lemma HeadIsFirst(c: Setup, s: System)
    requires Requests(s.toDev, s.snd.pieceNumber, c) && s.toDev != []
    ensures forall j :: 0 <= j < |s.toDev| ==> ReqNum(s.toDev[0]) <= ReqNum(s.toDev[j])
  {}

  /** An unnumbered answer, or none, changes nothing about the order. */
  lemma FlowOfResult(c: Setup, s: System, u: System, r: int, reply: seq<Tagged>)
    requires Flow(c, s, r) && u.snd == s.snd && u.toDev == s.toDev && u.toSnd == s.toSnd + reply
    requires || reply == []
             || (|reply| == 1 && reply[0].about == AboutResult && reply[0].resp.Response? && !IsWrong(reply[0]))
    ensures Flow(c, u, r)
  {
    hide Requests;
    if reply == [] {
      assert u.toSnd == s.toSnd;
    } else {
      assert !Numbered(reply[0]) && Num(reply[0]) == -1;
    }
  }

  /** A request leaves without an answer. */
  lemma FlowOfNone(c: Setup, s: System, u: System, r: int)
    requires Flow(c, s, r) && s.toDev != [] && u.snd == s.snd && u.toDev == s.toDev[1..] && u.toSnd == s.toSnd
    ensures Flow(c, u, r)
  {
    hide Answers, Refused;
    assert forall j :: 0 <= j < |u.toDev| ==> u.toDev[j] == s.toDev[j + 1];
    forall j | 0 <= j < |u.toDev| ensures RequestFits(u.toDev[j], u.snd.pieceNumber, c) {
      assert u.toDev[j] == s.toDev[j + 1];
    }
    forall i, j | 0 <= i < |u.toSnd| && 0 <= j < |u.toDev| && Numbered(u.toSnd[i])
      ensures Num(u.toSnd[i]) <= ReqNum(u.toDev[j])
    {
      assert u.toDev[j] == s.toDev[j + 1];
    }
    forall i, j | 0 <= i < j < |u.toDev| ensures ReqNum(u.toDev[i]) <= ReqNum(u.toDev[j]) {
      assert u.toDev[i] == s.toDev[i + 1] && u.toDev[j] == s.toDev[j + 1];
    }
  }

  // ---------------------------------------------------------------- the start arrives

  lemma BeginOutcome(d: Device, size: nat, md5: string, name: string, env: Env)
    ensures var (b, ok) := Begin(d, size, Some(md5), Some(name), env);
            && (ok ==> b.phase == Storing && b.next == 0) && (!ok ==> b.phase == d.phase)
            && b.checkDone == d.checkDone && b.checkValid == d.checkValid
            && b.files == d.files && b.installed == d.installed
            && (WrongFilePieceNumber in b.errs ==> WrongFilePieceNumber in d.errs)
  {
    hide IsOwnFirmwareFileName, Md5Local, BeginRefusal, Open;
    OpenOutcome(Reset(d, size, md5, name), env);
    RefusalIsNot(size, md5, name, env);
  }

  lemma RefusalIsNot(size: nat, md5: string, name: string, env: Env)
    ensures BeginRefusal(size, Some(md5), Some(name), env) != Some(WrongFilePieceNumber)
  {
    hide IsValidFileName;
  }

  lemma OpenOutcome(r: Device, env: Env)
    ensures var (b, ok) := Open(r, env);
            && (ok ==> b.phase == Storing && b.next == r.next) && (!ok ==> b.phase == r.phase)
            && b.checkDone == r.checkDone && b.checkValid == r.checkValid
            && b.files == r.files && b.installed == r.installed
            && (WrongFilePieceNumber in b.errs ==> WrongFilePieceNumber in r.errs)
  {}

  /** What the start leads to: an open session and a yes, or a no and nothing. */
  ghost predicate StartOutcome(c: Setup, d: Device, e: Device, m: Option<Response>) {
    && Spare(e) == Spare(d) && WrongFilePieceNumber !in e.errs && Session(e, c.goal, c.md5Is)
    && (m.Some? ==> m.value.Response?)
    && if m.Some? && m.value.ack then e.phase == Storing && e.next == 0
       else Resting(e) && (m.Some? ==> m.value.err != {WrongFilePieceNumber})
  }

  lemma StartArrives(c: Setup, d: Device, env: Env)
    requires Firmware(c.goal) && Resting(d) && Untouched(d, c.goal) && WrongFilePieceNumber !in d.errs
    ensures var (e, m) := MessageArrived(d, StartMessage(c), env, c.md5Is); StartOutcome(c, d, e, m)
  {
    hide Begin, IsOwnFirmwareFileName, Session;
    var g := c.goal;
    RestingSession(c, d);
    if |g.data| < TWO_32 {
      BeginOutcome(d, |g.data|, g.md5, g.name, env);
      var (b, ok) := Begin(d, |g.data|, Some(g.md5), Some(g.name), env);
      if ok {
        BeginOpensSession(d, g, c.md5Is, env);
        FlagDoesNotMatter(b, b.isFw, g, c.md5Is);
        ErrorsDoNotMatter(b.(restartRequired := b.isFw), {}, g, c.md5Is);
      } else {
        RestingSession(c, b.(errs := {}));
      }
    }
  }

  lemma RestingSession(c: Setup, d: Device)
    requires Firmware(c.goal) && Resting(d) && Untouched(d, c.goal)
    ensures Session(d, c.goal, c.md5Is)
  {}

  lemma ReceivesStart(c: Setup, s: System, r: int, env: Env)
    requires Firmware(c.goal) && Running(c, s, r) && s.toDev != [] && s.toDev[0] == StartMessage(c)
    ensures exists q :: Running(c, Next(c, s, DeviceReceives(env)), q)
  {
    hide Consistent, MessageArrived, Firmware, Session, Untouched, Yes, Results;
    assert !NoStart(s.toDev);
    StartArrives(c, s.dev, env);
    var (e, m) := MessageArrived(s.dev, s.toDev[0], env, c.md5Is);
    var u := Next(c, s, DeviceReceives(env));
    StartLeaves(c, s);
    NothingRefused(c, s, r);
    var q := if m.Some? && m.value.ack then 1 else 0;
    if m.None? {
      FlowOfNone(c, s, u, r);
      assert u.toSnd == s.toSnd;
    } else {
      var t := Tagged(m.value, AboutStart);
      FlowOfReply(c, s, u, r, q, t);
      CountsJoin(s.toSnd, [t]);
      CountsOfOne(t);
    }
    assert Stage(c, u, q) by {
      StartStage(c, s, r);
      if e.phase == Storing { OpenBounds(c, e); }
    }
    assert Running(c, u, q) by { hide Flow; }
  }

  lemma OpenBounds(c: Setup, d: Device)
    requires Session(d, c.goal, c.md5Is) && d.phase == Storing
    ensures 100 * d.next < |c.goal.data|
  {
    hide Session, Firmware;
    HoldingOf(d, c.goal, c.md5Is);
    SliceOfHolding(d, c.goal);
  }

  lemma StartStage(c: Setup, s: System, r: int)
    requires Stage(c, s, r) && !NoStart(s.toDev)
    ensures r == 0
  {
    hide Session;
  }

  lemma StartLeaves(c: Setup, s: System)
    requires Requests(s.toDev, s.snd.pieceNumber, c) && s.toDev != []
    ensures NoStart(s.toDev[1..])
  {
    forall i | 0 <= i < |s.toDev[1..]| ensures s.toDev[1..][i].Piece? {
      assert s.toDev[1..][i] == s.toDev[i + 1];
    }
  }

  lemma NothingRefused(c: Setup, s: System, r: int)
    requires Flow(c, s, r) && s.toDev != [] && s.toDev[0].Start?
    ensures forall i :: 0 <= i < |s.toSnd| ==> !IsWrong(s.toSnd[i])
  {
    forall i | 0 <= i < |s.toSnd| ensures !IsWrong(s.toSnd[i]) {
      assert Numbered(s.toSnd[i]) ==> Num(s.toSnd[i]) <= ReqNum(s.toDev[0]);
    }
  }

  // ---------------------------------------------------------------- a piece arrives

  /** What a piece leads to. */
  ghost predicate Accepted(d: Device, e: Device, j: nat, m: Option<Response>) {
    && m.Some? && m.value.Response? && m.value.ack && d.phase == Storing && d.next == j
    && e.phase == Storing && e.next == j + 1 && Spare(e) == Spare(d)
  }
  ghost predicate Completed(c: Setup, e: Device, m: Option<Response>) {
    m.Some? && m.value.Response? && m.value.ack && Resting(e) && Passed(e) && Delivered(e, c.goal, c.md5Is)
  }
  ghost predicate TurnedDown(d: Device, e: Device, j: nat, m: Option<Response>) {
    && (m.Some? ==> m.value.Response? && !m.value.ack) && Spare(e) == Spare(d)
    && (Resting(e) || (d.phase == Storing && e.phase == Storing && e.next == d.next))
    && (m.Some? && m.value.err == {WrongFilePieceNumber} ==> d.phase == Storing && d.next != j)
  }
  ghost predicate PieceOutcome(c: Setup, d: Device, e: Device, j: nat, m: Option<Response>) {
    && Session(e, c.goal, c.md5Is) && WrongFilePieceNumber !in e.errs
    && (Accepted(d, e, j, m) || Completed(c, e, m) || TurnedDown(d, e, j, m))
  }

  lemma NoCheck(c: Setup, d: Device)
    requires Firmware(c.goal) && Session(d, c.goal, c.md5Is)
    ensures d.phase != Check
  {}

  lemma PieceArrives(c: Setup, d: Device, j: nat, env: Env)
    requires Firmware(c.goal) && Session(d, c.goal, c.md5Is) && WrongFilePieceNumber !in d.errs
    ensures var (e, m) := MessageArrived(d, PieceMessage(c.goal.data, j), env, c.md5Is); PieceOutcome(c, d, e, j, m)
  {
    hide Session, StoreBase64, Delivered, Firmware, ResultHonest;
    var text := Base64.Encode(Slice(c.goal.data, j));
    NoCheck(c, d);
    if j < TWO_32 {
      var (b, ok) := StoreBase64(d, j, Some(text), env, c.md5Is);
      ErrorsDoNotMatter(b, {}, c.goal, c.md5Is);
      ErrorsDoNotMatter(d, {}, c.goal, c.md5Is);
      DeliveredWithoutErrors(b, c.goal, c.md5Is);
      if d.phase == Storing && j == d.next {
        ExpectedPieceIsStored(d, c.goal, env, c.md5Is);
        NoCheck(c, b);
      } else {
        OtherPieceIsRefused(d, j, text, env, c.md5Is);
        assert d.phase != Storing ==> BeginNotCalled in b.errs && BeginNotCalled !in {WrongFilePieceNumber};
      }
    }
  }

  lemma ReceivesPiece(c: Setup, s: System, r: int, env: Env)
    requires Firmware(c.goal) && Running(c, s, r) && s.toDev != [] && s.toDev[0].Piece?
    ensures var u := Next(c, s, DeviceReceives(env)); Installed(c, u) || exists q :: Running(c, u, q)
  {
    hide Consistent, MessageArrived, Firmware, Session, Untouched, Yes, Results, PieceMessage, Delivered, Before,
        Answers, Refused;
    var j := s.toDev[0].number;
    assert RequestFits(s.toDev[0], s.snd.pieceNumber, c);
    StartLeaves(c, s);
    AllPieces(c, s);
    PieceArrives(c, s.dev, j, env);
    var (e, m) := MessageArrived(s.dev, s.toDev[0], env, c.md5Is);
    var u := Next(c, s, DeviceReceives(env));
    if Completed(c, e, m) {
      assert Installed(c, u);
    } else if Accepted(s.dev, e, j, m) {
      AcceptsPiece(c, s, u, r, j, e, m.value);
    } else {
      TurnsDown(c, s, u, r, j, e, m);
    }
  }

  /** Pieces only, once the first request is one. */
  lemma AllPieces(c: Setup, s: System)
    requires Requests(s.toDev, s.snd.pieceNumber, c) && s.toDev != [] && s.toDev[0].Piece?
    ensures NoStart(s.toDev)
  {}

  lemma AcceptsPiece(c: Setup, s: System, u: System, r: int, j: nat, e: Device, m: Response)
    requires Running(c, s, r) && NoStart(s.toDev) && s.toDev != [] && AboutOf(s.toDev[0]) == AboutPiece(j)
    requires j < s.snd.pieceNumber && Session(e, c.goal, c.md5Is) && WrongFilePieceNumber !in e.errs
    requires Accepted(s.dev, e, j, Some(m))
    requires u.snd == s.snd && u.dev == e && u.toDev == s.toDev[1..] && u.toSnd == s.toSnd + [Tagged(m, AboutPiece(j))]
    ensures Running(c, u, r + 1)
  {
    hide Consistent, Session, Yes, Results, Requests, Answers;
    var t := Tagged(m, AboutPiece(j));
    OpenBounds(c, e);
    forall i | 0 <= i < |s.toSnd| && IsWrong(s.toSnd[i]) ensures Num(s.toSnd[i]) < j {
      WrongIsNumbered(c, s, r, i);
      assert Num(s.toSnd[i]) <= ReqNum(s.toDev[0]) && r != Num(s.toSnd[i]) + 1;
    }
    FlowOfReply(c, s, u, r, r + 1, t);
    CountsJoin(s.toSnd, [t]);
    CountsOfOne(t);
    assert NoStart(u.toDev);
    OnlyAboutRest(s, u, t);
    hide Flow;
    assert Running(c, u, r + 1);
  }

  lemma WrongIsNumbered(c: Setup, s: System, r: int, i: nat)
    requires Flow(c, s, r) && i < |s.toSnd| && IsWrong(s.toSnd[i])
    ensures Numbered(s.toSnd[i]) && s.toSnd[i].about.AboutPiece?
  {}

  /** The answer to the first request is about nothing earlier than it. */
  lemma OnlyAboutRest(s: System, u: System, t: Tagged)
    requires s.toDev != [] && u.toDev == s.toDev[1..] && u.toSnd == s.toSnd + [t] && t.about == AboutOf(s.toDev[0])
    ensures forall k :: OnlyAbout(s, k) ==> OnlyAbout(u, k)
  {
    forall k | OnlyAbout(s, k) ensures OnlyAbout(u, k) {
      assert !EarlierRequest(s.toDev[0], k);
      assert forall i :: 0 <= i < |u.toDev| ==> u.toDev[i] == s.toDev[i + 1];
    }
  }

  lemma TurnsDown(c: Setup, s: System, u: System, r: int, j: nat, e: Device, m: Option<Response>)
    requires Running(c, s, r) && NoStart(s.toDev) && s.toDev != [] && AboutOf(s.toDev[0]) == AboutPiece(j)
    requires Session(e, c.goal, c.md5Is) && WrongFilePieceNumber !in e.errs && TurnedDown(s.dev, e, j, m)
    requires u.snd == s.snd && u.dev == e && u.toDev == s.toDev[1..] && u.toSnd == s.toSnd + Reply(m, AboutPiece(j))
    ensures Running(c, u, r)
  {
    hide Consistent, Session, Yes, Results, Requests, Answers;
    assert NoStart(u.toDev);
    if m.None? {
      FlowOfNone(c, s, u, r);
      assert u.toSnd == s.toSnd;
      assert forall i :: 0 <= i < |u.toDev| ==> u.toDev[i] == s.toDev[i + 1];
    } else {
      var t := Tagged(m.value, AboutPiece(j));
      FlowOfReply(c, s, u, r, r, t);
      CountsJoin(s.toSnd, [t]);
      CountsOfOne(t);
      OnlyAboutRest(s, u, t);
    }
    hide Flow;
    assert Running(c, u, r);
  }

  // ---------------------------------------------------------------- the device's own steps

  /** A pass spends the spare acknowledgment or loses it; it makes no new one. */
  ghost predicate PassOutcome(d: Device, e: Device, m: Option<Response>) {
    && !Passed(e) && (m.Some? ==> m.value.Response? && m.value.err == d.errs)
    && (m.Some? && m.value.ack ==> Passed(d))
    && (e.phase == Storing ==> d.phase == Storing && e.next == d.next) && e.phase != Check
    && (d.phase != Storing ==> e.files == d.files && e.installed == d.installed)
    && (WrongFilePieceNumber in e.errs ==> WrongFilePieceNumber in d.errs)
  }

  lemma ValidityPass(d: Device, env: Env, md5Is: Md5Is)
    requires d.phase != Check && !Passed(d)
    ensures var e := RunValidityCheck(d, env, md5Is);
            && !Passed(e) && (e.phase == Storing ==> d.phase == Storing && e.next == d.next) && e.phase != Check
            && e.files == d.files && e.installed == d.installed
            && (WrongFilePieceNumber in e.errs ==> WrongFilePieceNumber in d.errs)
  {
    hide HasElapsed, CheckPass;
  }

  lemma DevicePass(d: Device, env: Env, md5Is: Md5Is)
    requires d.phase != Check
    ensures var (e, m) := RunTask(d, env, md5Is); PassOutcome(d, e, m)
  {
    hide RunValidityCheck;
    ValidityPass(ReportCheck(d).0, env, md5Is);
  }

  lemma PassKeepsRunning(c: Setup, s: System, r: int, env: Env)
    requires Firmware(c.goal) && Running(c, s, r)
    ensures Running(c, Next(c, s, DeviceTask(env)), r)
  {
    hide Consistent, RunTask, Firmware, Yes, Results, Requests, Answers, Before, Refused, Delivered, ResultHonest,
        Session;
    var (e, m) := RunTask(s.dev, env, c.md5Is);
    var u := Next(c, s, DeviceTask(env));
    var reply := Reply(m, AboutResult);
    StageIsOpen(c, s, r);
    DevicePass(s.dev, env, c.md5Is);
    assert m.Some? ==> WrongFilePieceNumber !in m.value.err && WrongFilePieceNumber in {WrongFilePieceNumber};
    FlowOfResult(c, s, u, r, reply);
    CountsJoin(s.toSnd, reply);
    if m.Some? { CountsOfOne(reply[0]); }
    CountsOfNone();
    RunKeepsSession(s.dev, c.goal, env, c.md5Is);
    assert Stage(c, u, r);
    assert Budget(u, r);
    hide Flow, Stage, Budget;
    assert Running(c, u, r);
  }

  lemma StageIsOpen(c: Setup, s: System, r: int)
    requires Firmware(c.goal) && Stage(c, s, r)
    ensures Session(s.dev, c.goal, c.md5Is) && s.dev.phase != Check
  {
    if !NoStart(s.toDev) { RestingSession(c, s.dev); }
    NoCheck(c, s.dev);
  }

  lemma RestartKeepsRunning(c: Setup, s: System, r: int)
    requires Firmware(c.goal) && Running(c, s, r)
    ensures Running(c, Next(c, s, DeviceRestarts), r)
  {
    hide Consistent, Firmware, Yes, Results, Flow, Delivered, Session, PowerUp;
    var u := Next(c, s, DeviceRestarts);
    StageIsOpen(c, s, r);
    RestartKeepsSession(s.dev, c.goal, c.md5Is);
    PowerUpIsQuiet(s.dev, c.goal);
    SameChannels(c, s, u, r);
    assert Stage(c, u, r);
    assert Budget(u, r);
    hide Stage, Budget;
  }

  lemma SameChannels(c: Setup, s: System, u: System, r: int)
    requires Flow(c, s, r) && u.snd == s.snd && u.toDev == s.toDev && u.toSnd == s.toSnd
    ensures Flow(c, u, r)
  {}

  // ---------------------------------------------------------------- losses

  lemma RequestsLose(q: seq<Request>, i: nat, n: nat, c: Setup)
    requires Requests(q, n, c) && i < |q|
    ensures Requests(Without(q, i), n, c)
  {
    hide RequestFits;
    var rest := Without(q, i);
    assert |rest| == |q| - 1 && forall p :: 0 <= p < |rest| ==> rest[p] == q[if p < i then p else p + 1];
    forall p, m | 0 <= p < m < |rest| ensures ReqNum(rest[p]) <= ReqNum(rest[m]) {
      assert rest[p] == q[if p < i then p else p + 1] && rest[m] == q[if m < i then m else m + 1];
    }
  }

  lemma LosesRequest(c: Setup, s: System, r: int, i: nat)
    requires Firmware(c.goal) && Running(c, s, r) && i < |s.toDev|
    ensures Running(c, Next(c, s, RequestLost(i)), r)
  {
    hide Consistent, Firmware, Yes, Results, Answers, Refused, Stage, Requests;
    var rest, u := Without(s.toDev, i), Next(c, s, RequestLost(i));
    assert |rest| == |s.toDev| - 1 && forall p :: 0 <= p < |rest| ==> rest[p] == s.toDev[if p < i then p else p + 1];
    RequestsLose(s.toDev, i, s.snd.pieceNumber, c);
    assert Before(s.toSnd, rest);
    assert forall k :: OnlyAbout(s, k) ==> OnlyAbout(u, k);
    StageLoses(c, s, r, i);
    hide Before;
    assert Running(c, u, r);
  }

  lemma StageLoses(c: Setup, s: System, r: int, i: nat)
    requires Firmware(c.goal) && Stage(c, s, r) && i < |s.toDev|
    ensures Stage(c, s.(toDev := Without(s.toDev, i)), r)
  {
    var rest := Without(s.toDev, i);
    assert forall p :: 0 <= p < |rest| ==> rest[p] == s.toDev[if p < i then p else p + 1];
    StageIsOpen(c, s, r);
    hide Session, Firmware, Untouched;
  }

  lemma LosesAnswer(c: Setup, s: System, r: int, i: nat)
    requires Running(c, s, r) && i < |s.toSnd|
    ensures Running(c, Next(c, s, ResponseLost(i)), r)
  {
    hide Consistent, Yes, Results, Requests, Session, Untouched;
    var ts, u := Without(s.toSnd, i), Next(c, s, ResponseLost(i));
    assert |ts| == |s.toSnd| - 1 && forall p :: 0 <= p < |ts| ==> ts[p] == s.toSnd[if p < i then p else p + 1];
    CountsWithout(s.toSnd, i);
    AnswersLose(s.toSnd, i, s.snd.pieceNumber, r);
    assert Before(ts, s.toDev);
    assert forall k :: OnlyAbout(s, k) ==> OnlyAbout(u, k);
    hide Answers, Before, Refused;
    assert Stage(c, u, r) && Budget(u, r);
    hide Stage, Budget;
    assert Running(c, u, r);
  }

  lemma AnswersLose(ts: seq<Tagged>, i: nat, n: nat, r: int)
    requires Answers(ts, n) && Refused(ts, r) && i < |ts|
    ensures Answers(Without(ts, i), n) && Refused(Without(ts, i), r)
  {
    var rest := Without(ts, i);
    assert |rest| == |ts| - 1 && forall p :: 0 <= p < |rest| ==> rest[p] == ts[if p < i then p else p + 1];
    forall p, q | 0 <= p < q < |rest| && Numbered(rest[p]) && Numbered(rest[q]) ensures Num(rest[p]) <= Num(rest[q]) {
      assert rest[p] == ts[if p < i then p else p + 1] && rest[q] == ts[if q < i then q else q + 1];
    }
    forall p, q | 0 <= p < q < |rest| && IsWrong(rest[p]) && Numbered(rest[q]) && IsYes(rest[q])
      ensures Num(rest[p]) < Num(rest[q])
    {
      assert rest[p] == ts[if p < i then p else p + 1] && rest[q] == ts[if q < i then q else q + 1];
    }
  }

  // ---------------------------------------------------------------- dead, and installed

  lemma DeadStep(c: Setup, s: System, a: Action)
    requires Dead(c, s) && !a.SenderPass? && Enabled(c, s, a)
    ensures Dead(c, Next(c, s, a))
  {
    hide Consistent, Yes, StoreBase64, RunTask;
    var u := Next(c, s, a);
    match a
    case DeviceReceives(env) =>
      var r := s.toDev[0];
      OtherPieceIsRefused(s.dev, r.number, r.text, env, c.md5Is);
      var reply := Reply(MessageArrived(s.dev, r, env, c.md5Is).1, AboutOf(r));
      CountsJoin(s.toSnd, reply);
      if reply != [] { CountsOfOne(reply[0]); }
      CountsOfNone();
      assert forall i :: 0 <= i < |u.toDev| ==> u.toDev[i] == s.toDev[i + 1];
    case DeviceTask(env) =>
      DevicePass(s.dev, env, c.md5Is);
      var reply := Reply(RunTask(s.dev, env, c.md5Is).1, AboutResult);
      CountsJoin(s.toSnd, reply);
      if reply != [] { CountsOfOne(reply[0]); }
      CountsOfNone();
    case DeviceRestarts =>
    case RequestLost(i) =>
      assert forall p :: 0 <= p < |u.toDev| ==> u.toDev[p] == s.toDev[if p < i then p else p + 1];
    case ResponseLost(i) => CountsWithout(s.toSnd, i);
  }

  lemma InstalledStep(c: Setup, s: System, a: Action)
    requires Installed(c, s) && !a.SenderPass? && Enabled(c, s, a)
    ensures Installed(c, Next(c, s, a))
  {
    hide Consistent, StoreBase64, RunTask, Md5Local;
    var u := Next(c, s, a);
    match a
    case DeviceReceives(env) =>
      var r := s.toDev[0];
      OtherPieceIsRefused(s.dev, r.number, r.text, env, c.md5Is);
      assert forall i :: 0 <= i < |u.toDev| ==> u.toDev[i] == s.toDev[i + 1];
    case DeviceTask(env) => InstalledPass(c, s.dev, env);
    case DeviceRestarts =>
    case RequestLost(i) =>
      assert forall p :: 0 <= p < |u.toDev| ==> u.toDev[p] == s.toDev[if p < i then p else p + 1];
    case ResponseLost(i) =>
  }

  lemma InstalledPass(c: Setup, d: Device, env: Env)
    requires Resting(d) && Delivered(d, c.goal, c.md5Is)
    ensures var e := RunTask(d, env, c.md5Is).0; Resting(e) && Delivered(e, c.goal, c.md5Is)
  {
    hide RunTask, Md5Local;
    DevicePass(d, env, c.md5Is);
  }

  // ---------------------------------------------------------------- every run

  lemma StepKeepsSafe(c: Setup, s: System, a: Action)
    requires Firmware(c.goal) && Safe(c, s) && Enabled(c, s, a) && NoStaleTraffic(c, s, a)
    ensures Safe(c, Next(c, s, a))
  {
    hide Running, Dead, Installed, Firmware, NoStaleTraffic;
    if a.SenderPass? {
      hide Next, Enabled;
      PassKeepsSafe(c, s, a);
    } else if s.snd.state == Error {
    } else if Dead(c, s) {
      DeadStep(c, s, a);
    } else if Installed(c, s) {
      InstalledStep(c, s, a);
    } else {
      hide Next;
      var r :| Running(c, s, r);
      match a
      case DeviceReceives(env) => Receives(c, s, r, env);
      case DeviceTask(env) => PassKeepsRunning(c, s, r, env);
      case DeviceRestarts => RestartKeepsRunning(c, s, r);
      case RequestLost(i) => LosesRequest(c, s, r, i);
      case ResponseLost(i) => LosesAnswer(c, s, r, i);
    }
  }

  lemma Receives(c: Setup, s: System, r: int, env: Env)
    requires Firmware(c.goal) && Running(c, s, r) && s.toDev != []
    ensures var u := Next(c, s, DeviceReceives(env)); Installed(c, u) || exists q :: Running(c, u, q)
  {
    assert s.toDev[0] == StartMessage(c) || s.toDev[0].Piece? by {
      hide Stage, Budget, Answers, Before, Refused, Consistent;
    }
    hide Running, Next, Installed, Firmware;
    if s.toDev[0].Piece? { ReceivesPiece(c, s, r, env); } else { ReceivesStart(c, s, r, env); }
  }

  lemma {:induction false} RunKeepsSafe(c: Setup, s: System, actions: seq<Action>)
    requires Firmware(c.goal) && Safe(c, s) && Possible(c, s, actions) && AssumptionHolds(c, s, actions)
    ensures Safe(c, Final(c, s, actions))
    decreases |actions|
  {
    hide Safe, Next, Enabled, Firmware, NoStaleTraffic;
    if actions != [] {
      StepKeepsSafe(c, s, actions[0]);
      RunKeepsSafe(c, Next(c, s, actions[0]), actions[1..]);
    }
  }

  lemma StartIsSafe(c: Setup, s: System)
    requires JustStarted(c, s) && Resting(s.dev) && WrongFilePieceNumber !in s.dev.errs
    ensures Safe(c, s)
  {
    hide Untouched;
    var now :| s.snd == Started(FRESH, c.goal.data, now);
    StartedIsConsistent(c.goal.data, now);
    assert s.toDev[0] == StartMessage(c) && !s.toDev[0].Piece?;
    assert Running(c, s, 0) by { hide Consistent; }
  }

  /** For every firmware, and a device on which no transfer is open: whether or not a positive result of an earlier
      one waits to be reported, DONE means over every run in which the sender's assumption holds that the image
      was verified and is installed. */
  lemma FirmwareToleratesResult(c: Setup, s: System, actions: seq<Action>)
    requires Firmware(c.goal) && JustStarted(c, s) && Resting(s.dev) && WrongFilePieceNumber !in s.dev.errs
    requires Possible(c, s, actions) && AssumptionHolds(c, s, actions)
    ensures DoneIsTrue(c, Final(c, s, actions))
  {
    hide Final, Possible, AssumptionHolds, Delivered, Firmware, JustStarted, Flow, Stage, Budget;
    StartIsSafe(c, s);
    RunKeepsSafe(c, s, actions);
  }
}
