/** Sender, device and the two lossy first-in first-out channels between them, as one step system.

    Answers carry no piece number on the wire. The model tags each with what it answers, so that
    "an answer about an earlier piece" can be spoken of; the sender never sees the tag. */
module TransferSystem {
  import opened Common
  import opened TransferSender
  import opened TransferDevice
  import opened TransferSenderRuns
  import opened TransferSession
  import Base64

  datatype About = AboutStart | AboutPiece(number: nat) | AboutResult
  datatype Tagged = Tagged(resp: Response, about: About)

  /** `verified` remembers that the device's final check has passed during this run. */
  datatype System = System(snd: Sender, dev: Device, toDev: seq<Request>, toSnd: seq<Tagged>, verified: bool)

  datatype Setup = Setup(goal: Goal, binId: Option<string>, md5Is: Md5Is)

  function StartMessage(c: Setup): Request {
    Start(|c.goal.data|, c.goal.md5, c.goal.name, c.binId)
  }

  /** One step: a pass of the sender's loop that first takes `taken` answers off its channel, the
      device handling its next message or running its task or restarting, or a message lost. */
  datatype Action =
    | SenderPass(taken: nat, now: int)
    | DeviceReceives(env: Env)
    | DeviceTask(env: Env)
    | DeviceRestarts
    | RequestLost(index: nat)
    | ResponseLost(index: nat)

  function Payloads(ts: seq<Tagged>): (r: seq<Response>)
    ensures |r| == |ts|
  {
    if ts == [] then [] else [ts[0].resp] + Payloads(ts[1..])
  }

  function AboutOf(m: Request): About {
    if m.Start? then AboutStart else AboutPiece(m.number)
  }

  function Reply(m: Option<Response>, about: About): seq<Tagged> {
    if m.None? then [] else [Tagged(m.value, about)]
  }

  ghost predicate Enabled(c: Setup, s: System, a: Action) {
    match a
    case SenderPass(taken, now) => taken <= |s.toSnd| && !Over(s.snd) && SliceValid(s.snd, c.goal.data)
    case DeviceReceives(env) => s.toDev != []
    case DeviceTask(env) => true
    case DeviceRestarts => true
    case RequestLost(i) => i < |s.toDev|
    case ResponseLost(i) => i < |s.toSnd|
  }

  function WithDevice(s: System, d: Device): System {
    s.(dev := d, verified := s.verified || Passed(d))
  }

  ghost function Next(c: Setup, s: System, a: Action): System
    requires Enabled(c, s, a)
  {
    match a
    case SenderPass(taken, now) =>
      var (t, out) := ProcessState(s.snd, c.goal.data, Payloads(s.toSnd[..taken]), now);
      s.(snd := t, toDev := s.toDev + out, toSnd := s.toSnd[taken..])
    case DeviceReceives(env) =>
      var (d, m) := MessageArrived(s.dev, s.toDev[0], env, c.md5Is);
      WithDevice(s, d).(toDev := s.toDev[1..], toSnd := s.toSnd + Reply(m, AboutOf(s.toDev[0])))
    case DeviceTask(env) =>
      var (d, m) := RunTask(s.dev, env, c.md5Is);
      WithDevice(s, d).(toSnd := s.toSnd + Reply(m, AboutResult))
    case DeviceRestarts => WithDevice(s, PowerUp(s.dev))
    case RequestLost(i) => s.(toDev := Without(s.toDev, i))
    case ResponseLost(i) => s.(toSnd := Without(s.toSnd, i))
  }

  /** A device with no result of an earlier transfer outstanding; a transfer it never finished may
      still be open. */
  ghost predicate Unbegun(d: Device, g: Goal) {
    Untouched(d, g) && !Passed(d) && d.phase != Check && WrongFilePieceNumber !in d.errs
  }

  ghost predicate Initial(c: Setup, s: System) {
    && (exists now :: s.snd == Started(FRESH, c.goal.data, now))
    && Unbegun(s.dev, c.goal)
    && s.toDev == [StartMessage(c)] && s.toSnd == [] && !s.verified
  }

  // ---------------------------------------------------------------- the sender's assumption

  predicate EarlierRequest(m: Request, number: int) { m.Piece? && m.number < number }
  predicate EarlierAnswer(t: Tagged, number: int) { t.about.AboutPiece? && t.about.number < number }

  /** "The device answers pieces in order, so a repeat's own answer can be at most one piece late":
      when the sender repeats a piece, nothing about an earlier one is in transit any more. */
  ghost predicate NoStaleTraffic(c: Setup, s: System, a: Action)
    requires Enabled(c, s, a)
  {
    a.SenderPass? ==>
      var t := Drain(s.snd, Payloads(s.toSnd[..a.taken]), a.now);
      Resends(t, a.now) ==>
        && (forall i :: 0 <= i < |s.toDev| ==> !EarlierRequest(s.toDev[i], t.last.value.number))
        && (forall i :: a.taken <= i < |s.toSnd| ==> !EarlierAnswer(s.toSnd[i], t.last.value.number))
  }

  // ---------------------------------------------------------------- the invariant

  /** How many pieces the sender counts as stored. */
  ghost function Credited(s: Sender): int {
    if s.state == WaitPieceAck then s.pieceNumber - 1 else s.pieceNumber
  }

  /** An answer that may be on its way to a sender that counts `k` of `n` published pieces. */
  ghost predicate AnswerFits(t: Tagged, k: int, n: nat, dev: Device, verified: bool, c: Setup) {
    t.resp.Response? &&
    match t.about
    case AboutStart => false
    case AboutPiece(j) => j < n && (t.resp.ack ==> j == k) && (j == k ==> !(dev.phase == Storing && dev.next == k))
    case AboutResult =>
      if t.resp.ack then verified && Delivered(dev, c.goal, c.md5Is) && dev.phase != Storing
      else t.resp.err != {WrongFilePieceNumber}
  }

  /** Of the answers about the piece in flight an acceptance comes first, and before a result. */
  ghost predicate AcceptanceFirst(ts: seq<Tagged>, k: int) {
    forall i, j :: 0 <= i < j < |ts| && Accepts(ts[j], k) ==> !ConcernsOrEnds(ts[i], k)
  }

  ghost predicate Accepts(t: Tagged, k: int) {
    t.resp.Response? && t.resp.ack && t.about.AboutPiece? && t.about.number == k
  }

  ghost predicate ConcernsOrEnds(t: Tagged, k: int) {
    || (t.about.AboutPiece? && t.about.number == k)
    || (t.about.AboutResult? && t.resp.Response? && t.resp.ack)
  }

  ghost predicate RequestFits(m: Request, n: nat, c: Setup) {
    m.Piece? && m.number < n && m == PieceMessage(c.goal.data, m.number)
  }

  ghost predicate PieceInv(c: Setup, s: System) {
    var (n, k) := (s.snd.pieceNumber, Credited(s.snd));
    && DeviceInv(c, s.dev, s.verified)
    && (s.dev.phase == Storing ==> k <= s.dev.next <= n)
    && (forall i :: 0 <= i < |s.toDev| ==> RequestFits(s.toDev[i], n, c))
    && (forall i :: 0 <= i < |s.toSnd| ==> AnswerFits(s.toSnd[i], k, n, s.dev, s.verified, c))
    && AcceptanceFirst(s.toSnd, k)
    && (s.snd.state == WaitPieceAck && s.snd.resent == Some(k) ==> OnlyAbout(s, k))
    && (s.snd.state == Done ==> s.verified && Delivered(s.dev, c.goal, c.md5Is))
  }

  ghost predicate DeviceInv(c: Setup, dev: Device, verified: bool) {
    && Session(dev, c.goal, c.md5Is) && ResultHonest(dev, c.goal, c.md5Is)
    && WrongFilePieceNumber !in dev.errs
    && (Passed(dev) ==> verified)
  }

  ghost predicate OnlyAbout(s: System, k: int) {
    && (forall i :: 0 <= i < |s.toDev| ==> !EarlierRequest(s.toDev[i], k))
    && (forall i :: 0 <= i < |s.toSnd| ==> !EarlierAnswer(s.toSnd[i], k))
  }

  ghost predicate StartInv(c: Setup, s: System) {
    && s.snd.pieceNumber == 0
    && s.dev.phase != Check && !Passed(s.dev) && WrongFilePieceNumber !in s.dev.errs
    && (s.toDev == [] || (s.toDev == [StartMessage(c)] && Untouched(s.dev, c.goal)))
    && (forall i :: 0 <= i < |s.toSnd| ==> StartAnswerFits(s.toSnd[i], s, c))
    && (forall i, j :: 0 <= i < j < |s.toSnd| ==> !(s.toSnd[i].about.AboutStart? && s.toSnd[j].about.AboutStart?))
  }

  ghost predicate StartAnswerFits(t: Tagged, s: System, c: Setup) {
    t.resp.Response? &&
    match t.about
    case AboutStart =>
      s.toDev == [] && (t.resp.ack ==> Session(s.dev, c.goal, c.md5Is) && (s.dev.phase == Storing ==> s.dev.next == 0))
    case AboutPiece(j) => false
    case AboutResult => !t.resp.ack && t.resp.err != {WrongFilePieceNumber}
  }

  ghost predicate Inv(c: Setup, s: System) {
    && Consistent(s.snd, c.goal.data)
    && match s.snd.state
       case Error => true
       case WaitStartAck => StartInv(c, s)
       case _ => PieceInv(c, s)
  }

  // ---------------------------------------------------------------- the sender's steps

  lemma ConsumeStart(c: Setup, s: System, now: int)
    requires s.snd.state == WaitStartAck && Inv(c, s) && s.toSnd != []
    ensures Inv(c, s.(snd := ProcessResponse(s.snd, s.toSnd[0].resp, now), toSnd := s.toSnd[1..]))
  {
    hide Session, Delivered, Untouched, Consistent;
    ResponseKeepsConsistent(s.snd, c.goal.data, s.toSnd[0].resp, now);
    assert StartAnswerFits(s.toSnd[0], s, c);
    assert Consistent(s.snd, c.goal.data) ==> s.snd.resent.None? by { WaitingHasNoRepeat(s.snd, c.goal.data); }
    var rest := s.toSnd[1..];
    assert forall i :: 0 <= i < |rest| ==> rest[i] == s.toSnd[i + 1];
    if s.toSnd[0].resp.ack {
      assert s.toSnd[0].about.AboutStart?;
      forall i | 0 <= i < |rest| ensures !rest[i].about.AboutStart? { assert rest[i] == s.toSnd[i + 1]; }
      forall i | 0 <= i < |rest| ensures StartAnswerFits(rest[i], s, c) { assert rest[i] == s.toSnd[i + 1]; }
    }
  }

  lemma WaitingHasNoRepeat(s: Sender, data: seq<Byte>)
    requires Consistent(s, data) && s.state == WaitStartAck
    ensures s.resent.None? && s.pieceNumber == 0
  {
  }

  /** Dropping the first answer keeps what holds of all of them. */
  lemma PieceInvOfRest(c: Setup, s: System)
    requires PieceInv(c, s) && s.toSnd != []
    ensures PieceInv(c, s.(toSnd := s.toSnd[1..]))
  {
    hide DeviceInv, Delivered, RequestFits, AnswerFits;
    var rest := s.toSnd[1..];
    var k := Credited(s.snd);
    forall i, j | 0 <= i < j < |rest| && Accepts(rest[j], k) ensures !ConcernsOrEnds(rest[i], k) {
      assert Accepts(s.toSnd[j + 1], k) && s.toSnd[i + 1] == rest[i];
    }
  }

  lemma ConsumeAck(c: Setup, s: System, now: int)
    requires s.snd.state == WaitPieceAck && Inv(c, s) && s.toSnd != [] && s.toSnd[0].resp.Response?
    requires s.toSnd[0].resp.ack || ConfirmsThePieceInFlight(s.snd, s.toSnd[0].resp)
    ensures Inv(c, s.(snd := ProcessResponse(s.snd, s.toSnd[0].resp, now), toSnd := s.toSnd[1..]))
  {
    hide DeviceInv, Delivered, RequestFits, Consistent;
    var (n, k, m) := (s.snd.pieceNumber, Credited(s.snd), s.toSnd[0]);
    ResponseKeepsConsistent(s.snd, c.goal.data, m.resp, now);
    LastIsInFlight(s.snd, c.goal.data);
    assert AnswerFits(m, k, n, s.dev, s.verified, c);
    assert ConcernsOrEnds(m, k) && (s.dev.phase == Storing ==> s.dev.next == n);
    var rest := s.toSnd[1..];
    forall i | 0 <= i < |rest| ensures AnswerFits(rest[i], n, n, s.dev, s.verified, c) {
      assert AnswerFits(s.toSnd[i + 1], k, n, s.dev, s.verified, c);
      assert rest[i] == s.toSnd[i + 1] && !Accepts(s.toSnd[i + 1], k);
    }
    assert AcceptanceFirst(rest, n);
  }

  lemma LastIsInFlight(s: Sender, data: seq<Byte>)
    requires Consistent(s, data) && s.state == WaitPieceAck
    ensures s.last.Some? && s.last.value.number == s.pieceNumber - 1 == Credited(s)
  {
  }

  /** One answer taken off the channel and processed keeps the invariant. */
  lemma ConsumeKeepsInv(c: Setup, s: System, now: int)
    requires Inv(c, s) && s.toSnd != []
    ensures Inv(c, s.(snd := ProcessResponse(s.snd, s.toSnd[0].resp, now), toSnd := s.toSnd[1..]))
  {
    hide DeviceInv, RequestFits, Consistent, AcceptanceFirst, StartInv;
    var m := s.toSnd[0];
    ResponseKeepsConsistent(s.snd, c.goal.data, m.resp, now);
    if s.snd.state == WaitStartAck {
      ConsumeStart(c, s, now);
    } else if s.snd.state == Error {
    } else if s.snd.state == WaitPieceAck && m.resp.Response?
        && (m.resp.ack || ConfirmsThePieceInFlight(s.snd, m.resp)) {
      ConsumeAck(c, s, now);
    } else {
      assert AnswerFits(m, Credited(s.snd), s.snd.pieceNumber, s.dev, s.verified, c);
      PieceInvOfRest(c, s);
    }
  }

  lemma {:induction false} DrainKeepsInv(c: Setup, s: System, taken: nat, now: int)
    requires Inv(c, s) && taken <= |s.toSnd|
    ensures Inv(c, s.(snd := Drain(s.snd, Payloads(s.toSnd[..taken]), now), toSnd := s.toSnd[taken..]))
    decreases taken
  {
    hide Inv, ProcessResponse;
    if taken == 0 {
      assert s.toSnd[0..] == s.toSnd;
      assert s.(snd := s.snd, toSnd := s.toSnd[0..]) == s;
    } else {
      var u := s.(snd := ProcessResponse(s.snd, s.toSnd[0].resp, now), toSnd := s.toSnd[1..]);
      ConsumeKeepsInv(c, s, now);
      DrainKeepsInv(c, u, taken - 1, now);
      assert s.toSnd[..taken][1..] == u.toSnd[..taken - 1];
      assert s.toSnd[taken..] == u.toSnd[taken - 1..];
    }
  }

  /** Acting keeps the invariant, if a repeat meets no traffic about an earlier piece. */
  lemma ActKeepsInv(c: Setup, s: System, now: int)
    requires Inv(c, s)
    requires Resends(s.snd, now) ==> OnlyAbout(s, s.snd.last.value.number)
    ensures SliceValid(s.snd, c.goal.data)
    ensures var (t, out) := Act(s.snd, c.goal.data, now); Inv(c, s.(snd := t, toDev := s.toDev + out))
  {
    ActKeepsConsistent(s.snd, c.goal.data, now);
    if s.snd.state == SendingFw && s.snd.remaining > 0 {
      SendKeepsInv(c, s, now);
    } else if Resends(s.snd, now) {
      ResendKeepsInv(c, s, now);
    } else {
      assert s.toDev + [] == s.toDev;
      hide DeviceInv, Delivered, RequestFits, Consistent, AcceptanceFirst, AnswerFits, StartAnswerFits;
    }
  }

  lemma SendKeepsInv(c: Setup, s: System, now: int)
    requires Inv(c, s) && s.snd.state == SendingFw && s.snd.remaining > 0 && SliceValid(s.snd, c.goal.data)
    ensures var (t, out) := Act(s.snd, c.goal.data, now); Inv(c, s.(snd := t, toDev := s.toDev + out))
  {
    hide DeviceInv, Delivered, Consistent, PieceMessage, StartInv, PieceText;
    var data := c.goal.data;
    ActKeepsConsistent(s.snd, data, now);
    var (t, out) := Act(s.snd, data, now);
    var n := s.snd.pieceNumber;
    assert t.pieceNumber == n + 1 && Credited(t) == n;
    assert out == [PieceMessage(data, n)] && out[0].Piece? && out[0].number == n;
    forall i | 0 <= i < |s.toSnd| ensures AnswerFits(s.toSnd[i], n, n + 1, s.dev, s.verified, c) {
      assert AnswerFits(s.toSnd[i], n, n, s.dev, s.verified, c);
    }
    RepeatIsBehind(s.snd, data);
  }

  lemma RepeatIsBehind(s: Sender, data: seq<Byte>)
    requires Consistent(s, data)
    ensures s.resent.Some? ==> s.resent.value < s.pieceNumber
  {
  }

  lemma ResendKeepsInv(c: Setup, s: System, now: int)
    requires Inv(c, s) && Resends(s.snd, now) && SliceValid(s.snd, c.goal.data)
    requires OnlyAbout(s, s.snd.last.value.number)
    ensures var (t, out) := Act(s.snd, c.goal.data, now); Inv(c, s.(snd := t, toDev := s.toDev + out))
  {
    hide DeviceInv, Delivered, Consistent, AnswerFits, AcceptanceFirst, PieceText, PieceMessage, StartInv;
    ActKeepsConsistent(s.snd, c.goal.data, now);
    LastIsInFlight(s.snd, c.goal.data);
    var (t, out) := Act(s.snd, c.goal.data, now);
    assert out[0].Piece? && out[0] == PieceMessage(c.goal.data, out[0].number);
  }

  lemma SenderPassKeepsInv(c: Setup, s: System, a: Action)
    requires a.SenderPass? && Inv(c, s) && Enabled(c, s, a) && NoStaleTraffic(c, s, a)
    ensures Inv(c, Next(c, s, a))
  {
    hide Inv, Act, Drain;
    var t := Drain(s.snd, Payloads(s.toSnd[..a.taken]), a.now);
    var u := s.(snd := t, toSnd := s.toSnd[a.taken..]);
    DrainKeepsInv(c, s, a.taken, a.now);
    forall i | 0 <= i < |u.toSnd| && Resends(t, a.now) ensures !EarlierAnswer(u.toSnd[i], t.last.value.number) {
      assert u.toSnd[i] == s.toSnd[a.taken + i];
    }
    ActKeepsInv(c, u, a.now);
  }

  // ---------------------------------------------------------------- the device's steps

  /** What a step of the device may do to a session that other traffic depends on. */
  ghost predicate Carries(c: Setup, d: Device, e: Device) {
    && (Delivered(d, c.goal, c.md5Is) ==> Delivered(e, c.goal, c.md5Is))
    && (e.phase == Storing ==> d.phase == Storing)
    && WrongFilePieceNumber !in e.errs
  }

  lemma AnswerStillFits(t: Tagged, k: int, n: nat, d: Device, e: Device, v: bool, w: bool, c: Setup)
    requires AnswerFits(t, k, n, d, v, c) && Carries(c, d, e) && (v ==> w)
    requires e.phase == Storing && e.next == k ==> d.next == k
    ensures AnswerFits(t, k, n, e, w, c)
  {
    hide Delivered;
  }

  lemma ReceiveStart(c: Setup, s: System, env: Env)
    requires s.snd.state == WaitStartAck && Inv(c, s) && s.toDev != []
    ensures Inv(c, Next(c, s, DeviceReceives(env)))
  {
    hide Consistent, Session, Untouched, MessageArrived;
    var (d, m) := MessageArrived(s.dev, s.toDev[0], env, c.md5Is);
    StartAnswered(c, s.dev, env);
    var u := Next(c, s, DeviceReceives(env));
    forall i | 0 <= i < |s.toSnd| ensures StartAnswerFits(s.toSnd[i], u, c) && !s.toSnd[i].about.AboutStart? {
      assert StartAnswerFits(s.toSnd[i], s, c);
    }
  }

  lemma StartAnswered(c: Setup, d: Device, env: Env)
    requires d.phase != Check && !Passed(d) && WrongFilePieceNumber !in d.errs && Untouched(d, c.goal)
    ensures var (e, m) := MessageArrived(d, StartMessage(c), env, c.md5Is);
            && e.phase != Check && !Passed(e) && WrongFilePieceNumber !in e.errs
            && (m.Some? ==> m.value.Response?)
            && (m.Some? && m.value.ack ==> Session(e, c.goal, c.md5Is) && (e.phase == Storing ==> e.next == 0))
  {
    hide Session, Begin, Untouched, IsOwnFirmwareFileName;
    var g := c.goal;
    if |g.data| < TWO_32 {
      BeginFlags(d, |g.data|, g.md5, g.name, env);
      var (b, ok) := Begin(d, |g.data|, Some(g.md5), Some(g.name), env);
      if ok {
        BeginOpensSession(d, g, c.md5Is, env);
        FlagDoesNotMatter(b, b.isFw, g, c.md5Is);
        ErrorsDoNotMatter(b.(restartRequired := b.isFw), {}, g, c.md5Is);
      }
    }
  }

  lemma BeginFlags(d: Device, size: nat, md5: string, name: string, env: Env)
    ensures var (b, ok) := Begin(d, size, Some(md5), Some(name), env);
            && b.checkDone == d.checkDone && b.checkValid == d.checkValid && b.phase in {d.phase, Storing}
            && b.files == d.files && b.installed == d.installed
  {
    hide IsOwnFirmwareFileName, Md5Local, BeginRefusal, Open;
    OpenFlags(Reset(d, size, md5, name), env);
  }

  lemma OpenFlags(r: Device, env: Env)
    ensures var b := Open(r, env).0;
            && b.checkDone == r.checkDone && b.checkValid == r.checkValid && b.phase in {r.phase, Storing}
            && b.files == r.files && b.installed == r.installed
  {}

  lemma FlagDoesNotMatter(d: Device, flag: bool, g: Goal, md5Is: Md5Is)
    ensures Session(d.(restartRequired := flag), g, md5Is) <==> Session(d, g, md5Is)
  {
  }

  /** What the arrival of a piece does: store it and say yes, or refuse it and change nothing. */
  ghost predicate Answered(c: Setup, d: Device, e: Device, number: nat, m: Option<Response>, v: bool) {
    && DeviceInv(c, e, v || Passed(e)) && Carries(c, d, e)
    && (m.Some? ==> m.value.Response?)
    && (m.Some? && m.value.ack ==> d.phase == Storing && d.next == number)
    && (m.Some? && m.value.ack && Firmware(c.goal) ==> e.phase == Storing || Passed(e))
    && (m.Some? ==> !(e.phase == Storing && e.next == number))
    && (e.phase == Storing ==> e.next == d.next || (d.next == number && e.next == number + 1))
  }

  lemma ArrivalIsAnswered(c: Setup, d: Device, number: nat, env: Env, v: bool)
    requires DeviceInv(c, d, v)
    ensures var (e, m) := MessageArrived(d, PieceMessage(c.goal.data, number), env, c.md5Is);
            Answered(c, d, e, number, m, v)
  {
    hide Session, ResultHonest, StoreBase64, Delivered;
    var text := Base64.Encode(Slice(c.goal.data, number));
    if number < TWO_32 {
      var (b, ok) := StoreBase64(d, number, Some(text), env, c.md5Is);
      if d.phase == Storing && number == d.next {
        ExpectedPieceIsStored(d, c.goal, env, c.md5Is);
        ErrorsDoNotMatter(b, {}, c.goal, c.md5Is);
        DeliveredWithoutErrors(b, c.goal, c.md5Is);
      } else {
        OtherPieceIsRefused(d, number, text, env, c.md5Is);
        ErrorsDoNotMatter(d, {}, c.goal, c.md5Is);
        DeliveredWithoutErrors(d, c.goal, c.md5Is);
      }
    }
  }

  lemma DeliveredWithoutErrors(d: Device, g: Goal, md5Is: Md5Is)
    ensures Delivered(d.(errs := {}), g, md5Is) <==> Delivered(d, g, md5Is)
  {
  }

  lemma ReceivePiece(c: Setup, s: System, env: Env)
    requires s.snd.state != WaitStartAck && s.snd.state != Error && Inv(c, s) && s.toDev != []
    ensures Inv(c, Next(c, s, DeviceReceives(env)))
  {
    hide Consistent, DeviceInv, Delivered, MessageArrived, PieceMessage;
    var (n, k, r) := (s.snd.pieceNumber, Credited(s.snd), s.toDev[0]);
    assert RequestFits(r, n, c);
    ArrivalIsAnswered(c, s.dev, r.number, env, s.verified);
    var (e, m) := MessageArrived(s.dev, r, env, c.md5Is);
    var u := Next(c, s, DeviceReceives(env));
    var reply := Reply(m, AboutPiece(r.number));
    CreditIsClose(s.snd, c.goal.data);
    forall i | 0 <= i < |s.toSnd| ensures AnswerFits(s.toSnd[i], k, n, e, u.verified, c) {
      assert AnswerFits(s.toSnd[i], k, n, s.dev, s.verified, c);
      AnswerStillFits(s.toSnd[i], k, n, s.dev, e, s.verified, u.verified, c);
    }
    assert forall i :: 0 <= i < |reply| ==> AnswerFits(reply[i], k, n, e, u.verified, c);
    forall i, j | 0 <= i < j < |u.toSnd| && Accepts(u.toSnd[j], k) ensures !ConcernsOrEnds(u.toSnd[i], k) {
      assert AnswerFits(s.toSnd[i], k, n, s.dev, s.verified, c);
    }
  }

  lemma CreditIsClose(s: Sender, data: seq<Byte>)
    requires Consistent(s, data)
    ensures s.pieceNumber - 1 <= Credited(s) <= s.pieceNumber
  {
  }

  lemma TaskKeepsInv(c: Setup, s: System, env: Env)
    requires Inv(c, s)
    ensures Inv(c, Next(c, s, DeviceTask(env)))
  {
    hide Consistent, RunTask, Session, Delivered, Untouched, ResultHonest;
    var (e, m) := RunTask(s.dev, env, c.md5Is);
    var u := Next(c, s, DeviceTask(env));
    if s.snd.state == WaitStartAck {
      TaskBeforeStart(c, s.dev, env);
      forall i | 0 <= i < |s.toSnd| ensures StartAnswerFits(s.toSnd[i], u, c) {
        assert StartAnswerFits(s.toSnd[i], s, c);
      }
    } else if s.snd.state != Error {
      RunKeepsSession(s.dev, c.goal, env, c.md5Is);
      CreditIsClose(s.snd, c.goal.data);
      ResultKeepsPieceInv(c, s, u, Reply(m, AboutResult));
    }
  }

  lemma ResultKeepsPieceInv(c: Setup, s: System, u: System, reply: seq<Tagged>)
    requires PieceInv(c, s) && u == s.(dev := u.dev, verified := u.verified, toSnd := s.toSnd + reply)
    requires DeviceInv(c, u.dev, u.verified) && Carries(c, s.dev, u.dev) && (s.verified ==> u.verified)
    requires u.dev.phase == Storing ==> u.dev.next == s.dev.next
    requires forall i :: 0 <= i < |reply| ==>
               reply[i].about.AboutResult?
               && AnswerFits(reply[i], Credited(s.snd), s.snd.pieceNumber, u.dev, u.verified, c)
    ensures PieceInv(c, u)
  {
    hide DeviceInv, Delivered, RequestFits;
    var (n, k) := (s.snd.pieceNumber, Credited(s.snd));
    forall i | 0 <= i < |s.toSnd| ensures AnswerFits(s.toSnd[i], k, n, u.dev, u.verified, c) {
      AnswerStillFits(s.toSnd[i], k, n, s.dev, u.dev, s.verified, u.verified, c);
    }
  }

  lemma TaskBeforeStart(c: Setup, d: Device, env: Env)
    requires d.phase != Check && !Passed(d) && WrongFilePieceNumber !in d.errs
    ensures var (e, m) := RunTask(d, env, c.md5Is);
            && e.phase != Check && !Passed(e) && WrongFilePieceNumber !in e.errs
            && (m.Some? ==> m.value.Response? && !m.value.ack && m.value.err != {WrongFilePieceNumber})
            && (Untouched(d, c.goal) ==> Untouched(e, c.goal))
            && (Session(d, c.goal, c.md5Is) ==> Session(e, c.goal, c.md5Is))
            && (e.phase == Storing ==> d.phase == Storing && e.next == d.next)
  {
    hide HasElapsed;
    if Session(d, c.goal, c.md5Is) { RunKeepsSession(d, c.goal, env, c.md5Is); }
  }

  lemma RestartKeepsInv(c: Setup, s: System)
    requires Inv(c, s)
    ensures Inv(c, Next(c, s, DeviceRestarts))
  {
    hide Consistent, Session, Delivered, ResultHonest, PowerUp;
    var u := Next(c, s, DeviceRestarts);
    PowerUpIsQuiet(s.dev, c.goal);
    if s.snd.state == WaitStartAck {
      forall i | 0 <= i < |s.toSnd| ensures StartAnswerFits(s.toSnd[i], u, c) {
        assert StartAnswerFits(s.toSnd[i], s, c);
        if Session(s.dev, c.goal, c.md5Is) { RestartKeepsSession(s.dev, c.goal, c.md5Is); }
      }
    } else if s.snd.state != Error {
      RestartKeepsSession(s.dev, c.goal, c.md5Is);
      CreditIsClose(s.snd, c.goal.data);
      assert s.toSnd + [] == s.toSnd;
      ResultKeepsPieceInv(c, s, u, []);
    }
  }

  lemma PowerUpIsQuiet(d: Device, g: Goal)
    ensures var e := PowerUp(d); e.phase == Quiet && !Passed(e) && e.errs == {} && (Untouched(d, g) ==> Untouched(e, g))
  {
  }

  // ---------------------------------------------------------------- losses

  lemma RequestLossKeepsInv(c: Setup, s: System, i: nat)
    requires Inv(c, s) && i < |s.toDev|
    ensures Inv(c, Next(c, s, RequestLost(i)))
  {
    hide Consistent, DeviceInv, Session, Delivered, Untouched, AnswerFits, AcceptanceFirst;
    var rest := Without(s.toDev, i);
    assert |rest| == |s.toDev| - 1 && forall p :: 0 <= p < |rest| ==> rest[p] == s.toDev[if p < i then p else p + 1];
    var u := Next(c, s, RequestLost(i));
    if s.snd.state == WaitStartAck {
      forall p | 0 <= p < |s.toSnd| ensures StartAnswerFits(s.toSnd[p], u, c) {
        assert StartAnswerFits(s.toSnd[p], s, c);
      }
    }
  }

  lemma ResponseLossKeepsInv(c: Setup, s: System, i: nat)
    requires Inv(c, s) && i < |s.toSnd|
    ensures Inv(c, Next(c, s, ResponseLost(i)))
  {
    hide Consistent, DeviceInv, Session, Delivered, Untouched, RequestFits, AnswerFits;
    var rest, u, k := Without(s.toSnd, i), Next(c, s, ResponseLost(i)), Credited(s.snd);
    assert |rest| == |s.toSnd| - 1 && forall p :: 0 <= p < |rest| ==> rest[p] == s.toSnd[if p < i then p else p + 1];
    if s.snd.state == WaitStartAck {
      forall p | 0 <= p < |rest| ensures StartAnswerFits(rest[p], u, c) {
        assert StartAnswerFits(s.toSnd[if p < i then p else p + 1], s, c);
      }
      forall p, q | 0 <= p < q < |rest| ensures !(rest[p].about.AboutStart? && rest[q].about.AboutStart?) {
        assert rest[p] == s.toSnd[if p < i then p else p + 1] && rest[q] == s.toSnd[if q < i then q else q + 1];
      }
    } else if s.snd.state != Error {
      forall p, q | 0 <= p < q < |rest| && Accepts(rest[q], k) ensures !ConcernsOrEnds(rest[p], k) {
        assert rest[p] == s.toSnd[if p < i then p else p + 1] && rest[q] == s.toSnd[if q < i then q else q + 1];
      }
    }
  }

  // ---------------------------------------------------------------- runs

  lemma StepKeepsInv(c: Setup, s: System, a: Action)
    requires Inv(c, s) && Enabled(c, s, a) && NoStaleTraffic(c, s, a)
    ensures Inv(c, Next(c, s, a))
  {
    match a
    case SenderPass(_, _) => SenderPassKeepsInv(c, s, a);
    case DeviceReceives(env) =>
      if s.snd.state == WaitStartAck {
        ReceiveStart(c, s, env);
      } else if s.snd.state != Error {
        ReceivePiece(c, s, env);
      }
    case DeviceTask(env) => TaskKeepsInv(c, s, env);
    case DeviceRestarts => RestartKeepsInv(c, s);
    case RequestLost(i) => RequestLossKeepsInv(c, s, i);
    case ResponseLost(i) => ResponseLossKeepsInv(c, s, i);
  }

  /** A sequence of steps each of which is possible. */
  ghost predicate Possible(c: Setup, s: System, actions: seq<Action>)
    decreases |actions|
  {
    actions == [] || (Enabled(c, s, actions[0]) && Possible(c, Next(c, s, actions[0]), actions[1..]))
  }

  ghost function Final(c: Setup, s: System, actions: seq<Action>): System
    requires Possible(c, s, actions)
    decreases |actions|
  {
    if actions == [] then s else Final(c, Next(c, s, actions[0]), actions[1..])
  }

  /** The sender's assumption holds at every step of the run. */
  ghost predicate AssumptionHolds(c: Setup, s: System, actions: seq<Action>)
    requires Possible(c, s, actions)
    decreases |actions|
  {
    actions == [] || (NoStaleTraffic(c, s, actions[0]) && AssumptionHolds(c, Next(c, s, actions[0]), actions[1..]))
  }

  /** DONE means: the device's final check passed during this run, and what it has in place of
      the target is exactly the sender's data. */
  ghost predicate DoneIsTrue(c: Setup, s: System) {
    s.snd.state == Done ==> s.verified && Delivered(s.dev, c.goal, c.md5Is)
  }

  lemma {:induction false} RunKeepsInv(c: Setup, s: System, actions: seq<Action>)
    requires Inv(c, s) && Possible(c, s, actions) && AssumptionHolds(c, s, actions)
    ensures Inv(c, Final(c, s, actions))
    decreases |actions|
  {
    hide Inv, Next, Enabled;
    if actions != [] {
      StepKeepsInv(c, s, actions[0]);
      RunKeepsInv(c, Next(c, s, actions[0]), actions[1..]);
    }
  }

  lemma InitialInv(c: Setup, s: System)
    requires Initial(c, s)
    ensures Inv(c, s)
  {
    hide Untouched;
    var now :| s.snd == Started(FRESH, c.goal.data, now);
    StartedIsConsistent(c.goal.data, now);
  }

  /** Over every interleaving of sender, device, losses and device restarts in which the sender's
      assumption holds, the sender reaches DONE only after the device stored exactly the sender's
      bytes and passed the final verification. */
  lemma DoneOnlyAfterDelivery(c: Setup, s: System, actions: seq<Action>)
    requires Initial(c, s) && Possible(c, s, actions) && AssumptionHolds(c, s, actions)
    ensures DoneIsTrue(c, Final(c, s, actions))
  {
    hide Final, Possible, AssumptionHolds, Delivered;
    InitialInv(c, s);
    RunKeepsInv(c, s, actions);
  }
}
