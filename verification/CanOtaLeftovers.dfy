/** The one state of the device in which a CAN transfer must not begin besides its check: START, the erase of an
    earlier transfer. Its acknowledgment is taken for the new one's, whose start may never arrive, and the file
    goes to the block of the old one. */
module CanOtaLeftovers {
  import opened Common
  import opened Crc16
  import G = CanOta
  import D = OtaDevice
  import opened CanOtaSystem
  import opened CanOtaSuccess

  /** The same gateway, bus and device, but for what was announced and who remembers it. */
  ghost predicate Alike(s: System, p: System) {
    && p == s.(begun := p.begun, startAcked := p.startAcked,
               g := s.g.(start := p.g.start, storageNumber := p.g.storageNumber))
    && s.g.start.Some? && p.g.start.Some? && s.g.state != G.Begin
  }

  /** The device has heard of no start, and will not. */
  ghost predicate Unheard(s: System) { !s.begun && forall i :: 0 <= i < |s.toDevice| ==> s.toDevice[i].PieceMessage? }

  ghost predicate SameBut(g: G.Gateway, h: G.Gateway) {
    h == g.(start := h.start, storageNumber := h.storageNumber) && g.start.Some? && h.start.Some?
  }

  lemma FrameIsAlike(g: G.Gateway, h: G.Gateway)
    requires SameBut(g, h) && g.pos < |g.file|
    ensures G.NextFrame(h) == G.NextFrame(g) && G.NextEnd(h) == G.NextEnd(g)
  {
    hide G.Padded;
  }

  lemma PieceIsAlike(g: G.Gateway, h: G.Gateway, env: G.Env)
    requires SameBut(g, h)
    ensures var (a, b) := (G.PiecePass(g, env), G.PiecePass(h, env));
            SameBut(a, b) && a.start == g.start && a.state in {G.WaitForAck, G.Invalid}
  {
    hide G.NextFrame, G.NextEnd;
    if g.pos < |g.file| { FrameIsAlike(g, h); }
    if g.pos >= |g.file| || !env.readOk {
    } else if env.sendOk {
      assert G.PiecePass(g, env).state == G.WaitForAck;
    } else {
      assert G.PiecePass(g, env).state == G.Invalid;
    }
  }

  lemma PassIsAlike(g: G.Gateway, h: G.Gateway, env: G.Env)
    requires SameBut(g, h) && g.state != G.Begin
    ensures var (a, b) := (G.OtaPass(g, env), G.OtaPass(h, env));
            SameBut(a, b) && a.start == g.start && a.state != G.Begin
  {
    hide HasElapsed, G.PiecePass, G.StartPass;
    PieceIsAlike(g.(timer := env.now), h.(timer := env.now), env);
  }

  lemma MessagesAreAlike(g: G.Gateway, a: G.Gateway, h: G.Gateway, b: G.Gateway)
    requires SameBut(g, h) && SameBut(a, b)
    ensures NewMessages(g, a) == NewMessages(h, b)
    ensures forall i :: 0 <= i < |NewMessages(g, a)| ==> NewMessages(g, a)[i].PieceMessage?
  {}

  lemma GatewayStepIsAlike(s: System, p: System, env: G.Env)
    requires D.Placed(s.d) && D.Placed(p.d) && Alike(s, p) && Unheard(s)
    ensures var step := GatewayPass(env); Alike(Next(s, step), Next(p, step)) && Unheard(Next(s, step))
  {
    hide D.Placed, G.OtaPass, NewMessages;
    PassIsAlike(s.g, p.g, env);
    MessagesAreAlike(s.g, G.OtaPass(s.g, env), p.g, G.OtaPass(p.g, env));
  }

  lemma DeviceStepIsAlike(s: System, p: System, io: D.Io)
    requires D.Placed(s.d) && D.Placed(p.d) && Alike(s, p) && Unheard(s)
    ensures var step := DeviceGets(io); Alike(Next(s, step), Next(p, step)) && Unheard(Next(s, step))
  {
    hide D.Placed, D.StoreAccepted, D.Next;
    if s.toDevice != [] {
      assert s.toDevice[0].PieceMessage?;
      var rest := s.toDevice[1..];
      assert forall i :: 0 <= i < |rest| ==> rest[i] == s.toDevice[i + 1];
    }
  }

  lemma RunStepIsAlike(s: System, p: System, io: D.Io)
    requires D.Placed(s.d) && D.Placed(p.d) && Alike(s, p) && Unheard(s)
    ensures var step := DeviceRuns(io); Alike(Next(s, step), Next(p, step)) && Unheard(Next(s, step))
  {
    hide D.Placed, D.Next, Answer;
  }

  lemma LossIsAlike(s: System, p: System, i: nat)
    requires D.Placed(s.d) && D.Placed(p.d) && Alike(s, p) && Unheard(s)
    ensures var step := LoseMessage(i); Alike(Next(s, step), Next(p, step)) && Unheard(Next(s, step))
  {
    hide D.Placed;
    if i < |s.toDevice| {
      var rest := Without(s.toDevice, i);
      assert forall k :: 0 <= k < |rest| ==> rest[k] == s.toDevice[if k < i then k else k + 1];
    }
  }

  lemma OtherStepIsAlike(s: System, p: System, step: Step)
    requires D.Placed(s.d) && D.Placed(p.d) && Alike(s, p) && Unheard(s)
    requires step in {GatewayGets, DeviceRestarts} || step.LoseReply?
    ensures Alike(Next(s, step), Next(p, step)) && Unheard(Next(s, step))
  {
    hide D.Placed, D.PowerUp;
  }

  lemma StepIsAlike(s: System, p: System, step: Step)
    requires D.Placed(s.d) && Alike(s, p) && Unheard(s)
    ensures D.Placed(p.d) && Alike(Next(s, step), Next(p, step)) && Unheard(Next(s, step))
  {
    assert p.d == s.d;
    hide D.Placed, Next, Alike, Unheard;
    match step
    case GatewayPass(env) => GatewayStepIsAlike(s, p, env);
    case DeviceGets(io) => DeviceStepIsAlike(s, p, io);
    case DeviceRuns(io) => RunStepIsAlike(s, p, io);
    case LoseMessage(i) => LossIsAlike(s, p, i);
    case _ => OtherStepIsAlike(s, p, step);
  }

  lemma {:induction false} RunIsAlike(s: System, p: System, steps: seq<Step>)
    requires D.Placed(s.d) && D.Placed(p.d) && Alike(s, p) && Unheard(s)
    ensures Alike(Run(s, steps), Run(p, steps)) && Unheard(Run(s, steps))
    decreases |steps|
  {
    hide D.Placed, Next, Alike, Unheard;
    if steps != [] {
      StepIsAlike(s, p, steps[0]);
      RunIsAlike(Next(s, steps[0]), Next(p, steps[0]), steps[1..]);
    }
  }

  /** The device erases its chip for an earlier transfer of the same file, to another block. */
  ghost predicate Erasing(d: D.Device, file: seq<bv8>, other: nat, now: int) {
    && d.state == D.Start && d.stall == now && d.base == other * D.BLOCK && d.pointer == 0
    && D.Holding(d, file, 0) && d.fwCrc == Crc(DEFAULT_INIT, file, DEFAULT_POLYNOMIAL)
  }

  /** The old start is acknowledged, and the gateway goes on to its pieces. */
  lemma OldStartIsAnswered(s: System, now: int) returns (t: System)
    requires D.Placed(s.d) && s.d.state == D.Start && s.d.stall == now && s.last == D.Start
    requires s.g.state == G.WaitForAck && s.toDevice == [] && s.toGateway == []
    ensures Leads(s, t)
    ensures t == s.(d := s.d.(state := D.Store), last := D.Store, startAcked := true, g := s.g.(state := G.Store))
  {
    hide D.Placed, Next, Leads;
    var a, b := DeviceRuns(GoodIo(now, false)), GatewayGets;
    DeviceErases(s, now, false);
    var s1 := Next(s, a);
    LeadsStep(s, a);
    GatewayGoesOn(s1);
    LeadsStep(s1, b);
    t := Next(s1, b);
    LeadsOn(s, s1, t);
  }

  /** The gateway and device as if the old start had been this transfer's. */
  ghost function Pretend(s: System, other: nat): System
    requires s.g.start.Some?
  {
    s.(begun := true, g := s.g.(storageNumber := other, start := Some(s.g.start.value.(storageNumber := other))))
  }

  lemma PretendIsReady(s: System, file: seq<bv8>, other: nat, now: int)
    requires 0 < |file| < TWO_32 && D.Placed(s.d) && G.StreamInv(s.g, file)
    requires s.g.state == G.Store && s.g.start.Some? && s.g.start.value.fwSize == |file| && s.g.sent == []
    requires s.g.reports == [] && s.g.timer == now && s.toDevice == [] && s.toGateway == []
    requires s.accepted == 0 && s.startAcked && s.last == D.Store && s.d.state == D.Store
    requires Erasing(s.d.(state := D.Start), file, other, now)
    ensures var p := Pretend(s, other);
            && Inv(p, file, other, 0) && Ready(p, now, 0) && Alike(s, p)
            && p.d.fwCrc == Crc(DEFAULT_INIT, file, DEFAULT_POLYNOMIAL)
  {
    hide Crc;
    var p := Pretend(s, other);
    assert G.StreamInv(p.g, file);
    hide G.StreamInv;
    EmptyPermits();
    assert Filling(p.d, file, 0);
    assert Receiving(p, file, other, 0) by { hide D.Placed, D.Holding; }
  }

  /** From there to the report the run is the one of a transfer that was announced. */
  lemma GoesToReport(p: System, file: seq<bv8>, other: nat, now: int) returns (t: System)
    requires Inv(p, file, other, 0) && Ready(p, now, 0) && p.d.fwCrc == Crc(DEFAULT_INIT, file, DEFAULT_POLYNOMIAL)
    ensures Goes(p, t) && t.g.reports == [true]
  {
    hide Inv, Run, Crc, D.Placed, Ready, Verifying, Goes;
    var p1, n := PiecesAreExchanged(p, file, other, now, 0);
    var p2 := CheckBegins(p1, file, other, now, n);
    var p3 := CheckIsPassed(p2, file, now);
    assert p3.g.state == G.WaitForAck && p3.g.timer == now && p3.g.reports == [] by { VerifyingMeans(p2, file, now); }
    t := SuccessIsReported(p3, now);
    GoesOn(p, p1, p2);
    GoesOn(p, p2, p3);
    GoesOn(p, p3, t);
  }

  /** For every file that a device is about to receive at one block: if the next transfer of it, to whatever
      block, finds the device in START, some run reports success though its own start never arrived. */
  lemma OldStartIsBelieved(file: seq<bv8>, block: nat, image: G.ImageInfo, now: int, d: D.Device, other: nat)
                           returns (t: System)
    requires 0 < |file| < TWO_32 && G.SharedRight(image, file) && D.Placed(d) && Erasing(d, file, other, now)
    ensures Leads(Initial(file, block, image, now, d, []), t) && t.g.reports == [true] && !t.begun
            && !Trusted(t, file, block)
  {
    hide Crc, Run, Next, D.Holding, Delivered, Goes, Leads, Inv, D.Placed;
    var s := Initial(file, block, image, now, d, []);
    G.StartedStreams(file, block, image, now);
    var s1 := SumsUp(s, file, now);
    GoesLeads(s, s1);
    LosesStart(s1);
    LeadsStep(s1, LoseMessage(0));
    var s2 := Next(s1, LoseMessage(0));
    LeadsOn(s, s1, s2);
    var s3 := OldStartIsAnswered(s2, now);
    LeadsOn(s, s2, s3);
    AnnouncedIsFile(s, s1, file);
    StoreIsPlaced(d);
    assert G.StreamInv(s3.g, file) by { StoreStreams(s1.g, file); }
    PretendIsReady(s3, file, other, now);
    var p := Pretend(s3, other);
    var q := GoesToReport(p, file, other, now);
    t := FollowsAlike(s3, p, q);
    LeadsOn(s, s3, t);
  }

  /** What the gateway announces is the file. */
  ghost predicate Announces(g: G.Gateway, file: seq<bv8>) {
    G.StreamInv(g, file) && (g.start.Some? ==> g.start.value.fwSize == |file|)
  }

  lemma PassAnnounces(g: G.Gateway, file: seq<bv8>, env: G.Env)
    requires |file| < TWO_32 && Announces(g, file)
    ensures Announces(G.OtaPass(g, env), file)
  {
    hide G.StreamInv, G.StartPass, G.PiecePass, HasElapsed;
    G.NextKeepsStream(g, file, G.Pass(env));
    PiecePassSends(g.(timer := env.now), env);
    if g.state == G.Begin {
      StreamFile(g, file);
      StartPassSends(g, env);
    }
  }

  lemma {:induction false} RunAnnounces(s: System, steps: seq<Step>, file: seq<bv8>)
    requires D.Placed(s.d) && |file| < TWO_32 && Announces(s.g, file)
    ensures Announces(Run(s, steps).g, file)
    decreases |steps|
  {
    hide D.Placed, G.StreamInv, G.OtaPass, G.HandleFrame;
    if steps != [] {
      var step := steps[0];
      match step {
        case GatewayPass(env) => PassAnnounces(s.g, file, env);
        case GatewayGets =>
          if s.toGateway != [] { FrameAnnounces(s.g, file, s.toGateway[0].cmd, s.toGateway[0].ack); }
        case _ => assert Next(s, step).g == s.g by { hide D.Next, D.AfterStart; }
      }
      RunAnnounces(Next(s, step), steps[1..], file);
    }
  }

  lemma FrameAnnounces(g: G.Gateway, file: seq<bv8>, cmd: G.Command, ack: bool)
    requires Announces(g, file)
    ensures Announces(G.HandleFrame(g, cmd, ack), file)
  {
    hide G.StreamInv;
    G.NextKeepsStream(g, file, G.Frame(cmd, ack));
  }

  lemma AnnouncedIsFile(s: System, t: System, file: seq<bv8>)
    requires D.Placed(s.d) && |file| < TWO_32 && G.StreamInv(s.g, file) && s.g.start.None? && Goes(s, t)
    ensures Announces(t.g, file)
  {
    hide D.Placed, Run, G.StreamInv;
    var steps :| Smooth(steps) && Run(s, steps) == t;
    RunAnnounces(s, steps, file);
  }

  lemma StoreIsPlaced(d: D.Device)
    requires D.Placed(d) && d.state == D.Start
    ensures D.Placed(d.(state := D.Store))
  {}

  lemma StoreStreams(g: G.Gateway, file: seq<bv8>)
    requires G.StreamInv(g, file) && g.state == G.WaitForAck
    ensures G.StreamInv(g.(state := G.Store), file)
  {
    hide Crc;
  }

  lemma FollowsAlike(s: System, p: System, q: System) returns (t: System)
    requires D.Placed(s.d) && Alike(s, p) && Unheard(s) && Goes(p, q)
    ensures Leads(s, t) && t.g.reports == q.g.reports && !t.begun
  {
    hide D.Placed, Run;
    var steps :| Smooth(steps) && Run(p, steps) == q;
    RunIsAlike(s, p, steps);
    t := Run(s, steps);
  }
}
