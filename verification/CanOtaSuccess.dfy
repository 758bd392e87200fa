/** The CAN transfer's safety theorem is not empty: when nothing is lost and nothing fails, every file
    the device accepts is transferred and success is reported. */
module CanOtaSuccess {
  import opened Common
  import opened Crc16
  import G = CanOta
  import D = OtaDevice
  import opened CanOtaSystem

  // ---------------------------------------------------------------- runs

  ghost predicate Leads(s: System, t: System) {
    D.Placed(s.d) && exists steps :: Run(s, steps) == t
  }

  /** A step in which nothing is lost and nothing fails. */
  predicate IsSmooth(step: Step) {
    match step
    case GatewayPass(env) => env.readOk && env.sendOk
    case GatewayGets => true
    case DeviceGets(io) => io.present && io.eraseOk && io.writeOk && io.readOk
    case DeviceRuns(io) => io.present && io.eraseOk && io.writeOk && io.readOk
    case _ => false
  }

  predicate Smooth(steps: seq<Step>) { forall i :: 0 <= i < |steps| ==> IsSmooth(steps[i]) }

  /** Some run of such steps leads there. */
  ghost predicate Goes(s: System, t: System) {
    D.Placed(s.d) && exists steps :: Smooth(steps) && Run(s, steps) == t
  }

  lemma RunOne(s: System, step: Step)
    requires D.Placed(s.d)
    ensures Run(s, [step]) == Next(s, step)
  {
    hide Next, D.Placed;
    assert [step][1..] == [] && Run(Next(s, step), []) == Next(s, step);
  }

  lemma LeadsStep(s: System, step: Step)
    requires D.Placed(s.d)
    ensures Leads(s, Next(s, step)) && (IsSmooth(step) ==> Goes(s, Next(s, step)))
  {
    hide Next, D.Placed, Run;
    RunOne(s, step);
    assert IsSmooth(step) ==> Smooth([step]);
  }

  lemma GoesLeads(s: System, t: System)
    requires Goes(s, t)
    ensures Leads(s, t)
  {
    hide D.Placed, Run;
  }

  lemma {:induction false} RunAppend(s: System, xs: seq<Step>, ys: seq<Step>)
    requires D.Placed(s.d)
    ensures Run(s, xs + ys) == Run(Run(s, xs), ys)
    decreases |xs|
  {
    hide Next, D.Placed;
    if xs == [] {
      assert xs + ys == ys;
    } else {
      RunAppend(Next(s, xs[0]), xs[1..], ys);
      assert (xs + ys)[1..] == xs[1..] + ys;
    }
  }

  lemma LeadsOn(s: System, t: System, u: System)
    requires Leads(s, t) && Leads(t, u)
    ensures Leads(s, u)
  {
    hide D.Placed, Run;
    var xs :| Run(s, xs) == t;
    var ys :| Run(t, ys) == u;
    RunAppend(s, xs, ys);
  }

  lemma GoesOn(s: System, t: System, u: System)
    requires Goes(s, t) && Goes(t, u)
    ensures Goes(s, u)
  {
    hide D.Placed, Run;
    var xs :| Smooth(xs) && Run(s, xs) == t;
    var ys :| Smooth(ys) && Run(t, ys) == u;
    RunAppend(s, xs, ys);
    assert Smooth(xs + ys);
  }

  // ---------------------------------------------------------------- a world without failures

  function GoodEnv(now: int): G.Env { G.Env(now, true, true) }
  function GoodIo(now: int, busy: bool): D.Io { D.Io(now, true, true, busy, true, 0, true) }

  /** Nobody has timed out and nothing is on the bus. */
  ghost predicate Quiet(s: System, now: int) {
    s.toDevice == [] && s.toGateway == [] && s.g.timer == now
  }

  // ---------------------------------------------------------------- the start

  ghost predicate Announcing(s: System, now: int) {
    s.g.state == G.Begin && s.toDevice == [] && s.g.timer == now && s.accepted == 0 && s.g.reports == []
  }

  lemma SumPass(s: System, file: seq<bv8>, now: int)
    requires G.StreamInv(s.g, file) && Announcing(s, now) && D.Placed(s.d)
    ensures var t := Next(s, GatewayPass(GoodEnv(now)));
            && G.StreamInv(t.g, file)
            && if !s.g.imageCrcKnown && s.g.pos < |file| then
                 Announcing(t, now) && t == s.(g := t.g) && t.g.pos == Min(s.g.pos + 64, |file|)
               else
                 && t == s.(g := t.g, toDevice := [StartMessage(t.g.start.value)]) && t.g.start.Some?
                 && t.g.state == G.WaitForAck
                 && t.g.timer == now && t.g.sent == [] && t.g.reports == []
  {
    hide Crc;
    var t := Next(s, GatewayPass(GoodEnv(now)));
    G.NextKeepsStream(s.g, file, G.Pass(GoodEnv(now)));
    assert s.toDevice + NewMessages(s.g, t.g) == NewMessages(s.g, t.g);
  }

  /** The start frame is on the bus; nothing else has changed since `s`. */
  ghost predicate Announced(s: System, t: System, now: int) {
    && t.g.state == G.WaitForAck && t.g.start.Some? && t.g.sent == [] && t.g.reports == [] && t.g.timer == now
    && t == s.(g := t.g, toDevice := [StartMessage(t.g.start.value)])
  }

  lemma {:induction false} SumsUp(s: System, file: seq<bv8>, now: int) returns (t: System)
    requires G.StreamInv(s.g, file) && Announcing(s, now) && D.Placed(s.d)
    ensures Goes(s, t) && Announced(s, t, now)
    decreases |file| - s.g.pos
  {
    hide G.StreamInv, D.Placed, Next, Run;
    BeginMeans(s.g, file);
    SumPass(s, file, now);
    var step := GatewayPass(GoodEnv(now));
    LeadsStep(s, step);
    t := Next(s, step);
    if !s.g.imageCrcKnown && s.g.pos < |file| {
      var u := SumsUp(t, file, now);
      GoesOn(s, t, u);
      t := u;
    }
  }

  lemma LeadsKeepsInv(s: System, t: System, file: seq<bv8>, block: nat)
    requires Inv(s, file, block, 0) && Goes(s, t)
    ensures Inv(t, file, block, 0)
  {
    hide Inv, Run, D.Placed;
    var steps :| Smooth(steps) && Run(s, steps) == t;
    RunsKeepInv(s, steps, file, block, 0);
  }

  lemma BeginMeans(g: G.Gateway, file: seq<bv8>)
    requires G.StreamInv(g, file) && g.state == G.Begin
    ensures g.pos <= |file| && g.sent == [] && g.file == file
  {}

  /** Both sides are ready for piece `k`. */
  ghost predicate Ready(s: System, now: int, k: nat) {
    && s.g.state == G.Store && Quiet(s, now) && s.g.reports == [] && s.d.state == D.Store && s.d.stall == now
    && s.begun && s.accepted == k == |s.g.sent|
  }

  /** OTA_START reaches the device, the erase takes a pass, and the acknowledgment comes back. */
  lemma StartIsAnswered(s0: System, s: System, file: seq<bv8>, block: nat, now: int) returns (t: System)
    requires Inv(s, file, block, 0) && Announced(s0, s, now) && s.accepted == 0 && s.toGateway == []
             && D.StartAccepted(s.d, block, |file|, GoodIo(now, true))
    ensures Goes(s, t) && Inv(t, file, block, 0) && Ready(t, now, 0) && t.d.fwCrc == s.g.start.value.fwCrc
  {
    hide G.StreamInv, OnTheBus, Budget, Receiving, Truthful, D.Placed, Next, D.AfterStart, D.StartAccepted;
    var a, b, c, e := DeviceGets(GoodIo(now, true)), DeviceRuns(GoodIo(now, true)), DeviceRuns(GoodIo(now, false)),
        GatewayGets;
    var s1 := Next(s, a);
    StepKeepsInv(s, a, file, block, 0);
    DeviceStarts(s, now, block, file);
    var s2 := Next(s1, b);
    StepKeepsInv(s1, b, file, block, 0);
    DeviceErases(s1, now, true);
    var s3 := Next(s2, c);
    StepKeepsInv(s2, c, file, block, 0);
    DeviceErases(s2, now, false);
    t := Next(s3, e);
    StepKeepsInv(s3, e, file, block, 0);
    GatewayGoesOn(s3);
    FourSteps(s, a, b, c, e);
  }

  lemma FourSteps(s: System, a: Step, b: Step, c: Step, e: Step)
    requires D.Placed(s.d) && IsSmooth(a) && IsSmooth(b) && IsSmooth(c) && IsSmooth(e)
    ensures Goes(s, Next(Next(Next(Next(s, a), b), c), e))
  {
    hide Next, D.Placed;
    var s1 := Next(s, a);
    var s2 := Next(s1, b);
    var s3 := Next(s2, c);
    LeadsStep(s, a);
    LeadsStep(s1, b);
    LeadsStep(s2, c);
    LeadsStep(s3, e);
    hide Goes;
    GoesOn(s, s1, s2);
    GoesOn(s, s2, s3);
    GoesOn(s, s3, Next(s3, e));
  }

  lemma DeviceStarts(s: System, now: int, block: nat, file: seq<bv8>)
    requires D.Placed(s.d) && s.toDevice != [] && s.toDevice[0].StartMessage?
             && s.toDevice[0].start.storageNumber == block && s.toDevice[0].start.fwSize == |file|
    requires D.StartAccepted(s.d, block, |file|, GoodIo(now, true))
    ensures var t := Next(s, DeviceGets(GoodIo(now, true)));
            && t == s.(d := t.d, toDevice := s.toDevice[1..], begun := true)
            && t.d.state == D.Start && t.d.stall == now && t.d.fwCrc == s.toDevice[0].start.fwCrc
  {}

  lemma DeviceErases(s: System, now: int, busy: bool)
    requires D.Placed(s.d) && s.d.state == D.Start && s.d.stall == now && (!busy ==> s.last == D.Start)
    ensures var t := Next(s, DeviceRuns(GoodIo(now, busy)));
            if busy then t == s.(last := D.Start)
            else t == s.(d := s.d.(state := D.Store), last := D.Store,
                toGateway := s.toGateway + [Reply(G.OtaStart, true)], startAcked := true)
  {
    hide D.Placed;
    assert s.toGateway + [] == s.toGateway;
  }

  lemma GatewayGoesOn(s: System)
    requires D.Placed(s.d) && s.g.state == G.WaitForAck && |s.toGateway| == 1 && s.toGateway[0].ack
             && s.toGateway[0].cmd in {G.OtaStart, G.OtaSend}
    ensures Next(s, GatewayGets) == s.(g := s.g.(state := G.Store), toGateway := [])
  {
    hide D.Placed;
  }

  // ---------------------------------------------------------------- the pieces

  lemma GatewaySends(s: System, file: seq<bv8>, now: int, k: nat)
    requires D.Placed(s.d) && G.StreamInv(s.g, file) && Ready(s, now, k) && 7 * k < |file|
    ensures var t := Next(s, GatewayPass(GoodEnv(now)));
            && t == s.(g := t.g, toDevice := [PieceMessage(k, G.PieceFrame(file, k))])
            && t.g.state == G.WaitForAck && t.g.timer == now && |t.g.sent| == k + 1 && t.g.reports == []
            && t.g.start == s.g.start
  {
    hide G.NextFrame, G.PieceFrame, Crc, D.Placed;
    G.NextFrameIs(s.g, file);
    G.NextFrameIs(s.g.(timer := now), file);
    var t := Next(s, GatewayPass(GoodEnv(now)));
    assert t.g.sent == s.g.sent + [G.PieceFrame(file, k)];
    assert [] + [] + [PieceMessage(k, G.PieceFrame(file, k))] == [PieceMessage(k, G.PieceFrame(file, k))];
  }

  lemma DeviceTakes(s: System, file: seq<bv8>, now: int, k: nat)
    requires D.Placed(s.d) && Filling(s.d, file, k) && 7 * k < |file| && s.accepted == k
    requires s.toDevice == [PieceMessage(k, G.PieceFrame(file, k))] && s.toGateway == []
    ensures var t := Next(s, DeviceGets(GoodIo(now, false)));
            && t == s.(d := t.d, toDevice := [], toGateway := [Reply(G.OtaSend, true)], accepted := k + 1)
            && t.d.state == s.d.state && t.d.stall == now && t.d.fwCrc == s.d.fwCrc
  {
    hide D.Holding, D.AfterStore, D.Kept;
    var (frame, io) := (G.PieceFrame(file, k), GoodIo(now, false));
    assert D.InSequence(s.d, frame.sequence) by { FitsIffCongruent(s.d, k, k, file); }
    StoreStamps(s.d, frame.sequence, frame.data, io);
    PieceFills(s.d, k, io, file);
    PieceLength(file, k);
    assert s.toGateway + [Reply(G.OtaSend, true)] == [Reply(G.OtaSend, true)];
  }

  lemma StoreStamps(d: D.Device, sequence: nat, data: seq<bv8>, io: D.Io)
    requires D.Placed(d) && |data| == 7 && D.InSequence(d, sequence) && io.writeOk
    ensures D.AfterStore(d, sequence, data, io).stall == io.now && D.AfterStore(d, sequence, data, io).fwCrc == d.fwCrc
  {
    hide D.Held, D.Flashed;
  }

  lemma PieceIsExchanged(s: System, file: seq<bv8>, block: nat, now: int, k: nat) returns (t: System)
    requires Inv(s, file, block, 0) && Ready(s, now, k) && 7 * k < |file|
    ensures Goes(s, t) && Inv(t, file, block, 0) && Ready(t, now, k + 1) && t.d.fwCrc == s.d.fwCrc
            && t.g.start == s.g.start
  {
    hide G.StreamInv, OnTheBus, Budget, Truthful, D.Placed, Next, Filling, G.PieceFrame, D.Holding, Delivered;
    var a, b, c := GatewayPass(GoodEnv(now)), DeviceGets(GoodIo(now, false)), GatewayGets;
    var s1 := Next(s, a);
    GatewaySends(s, file, now, k);
    StepKeepsInv(s, a, file, block, 0);
    var s2 := Next(s1, b);
    DeviceTakes(s1, file, now, k);
    StepKeepsInv(s1, b, file, block, 0);
    t := Next(s2, c);
    GatewayGoesOn(s2);
    StepKeepsInv(s2, c, file, block, 0);
    ThreeSteps(s, a, b, c);
  }

  lemma ThreeSteps(s: System, a: Step, b: Step, c: Step)
    requires D.Placed(s.d) && IsSmooth(a) && IsSmooth(b) && IsSmooth(c)
    ensures Goes(s, Next(Next(Next(s, a), b), c))
  {
    hide Next, D.Placed;
    var s1 := Next(s, a);
    var s2 := Next(s1, b);
    LeadsStep(s, a);
    LeadsStep(s1, b);
    LeadsStep(s2, c);
    hide Goes;
    GoesOn(s, s1, s2);
    GoesOn(s, s2, Next(s2, c));
  }

  lemma {:induction false} PiecesAreExchanged(s: System, file: seq<bv8>, block: nat, now: int, k: nat)
                                              returns (t: System, n: nat)
    requires Inv(s, file, block, 0) && Ready(s, now, k)
    ensures Goes(s, t) && Inv(t, file, block, 0) && Ready(t, now, n) && 7 * n >= |file|
    ensures t.d.fwCrc == s.d.fwCrc && t.g.start == s.g.start
    decreases |file| - 7 * k
  {
    hide Inv, Ready, Run, D.Placed;
    if 7 * k < |file| {
      var u := PieceIsExchanged(s, file, block, now, k);
      t, n := PiecesAreExchanged(u, file, block, now, k + 1);
      GoesOn(s, u, t);
    } else {
      t, n := s, k;
      LeadsHere(s, file, block);
    }
  }

  lemma LeadsHere(s: System, file: seq<bv8>, block: nat)
    requires Inv(s, file, block, 0)
    ensures Goes(s, s)
  {
    assert Run(s, []) == s;
  }

  // ---------------------------------------------------------------- the end

  /** Everything is sent, and the device is in the middle of its check. */
  ghost predicate Verifying(s: System, file: seq<bv8>, now: int) {
    && s.g.state == G.WaitForAck && Quiet(s, now) && s.g.reports == []
    && D.Checking(s.d, file) && s.d.pointer < |file| && s.d.fwCrc == Crc(DEFAULT_INIT, file, DEFAULT_POLYNOMIAL)
  }

  lemma CheckPass(s: System, file: seq<bv8>, now: int)
    requires D.Placed(s.d) && Verifying(s, file, now)
    ensures var t := Next(s, DeviceRuns(GoodIo(now, false)));
            && t.g == s.g && t.begun == s.begun
            && ((Verifying(t, file, now) && t.d.pointer > s.d.pointer)
               || (t.toDevice == [] && t.toGateway == [Reply(G.OtaEnd, true)]))
  {
    hide Crc, D.AfterChunk, D.AfterCheck, D.AfterRun, D.Stored;
    var io := GoodIo(now, false);
    D.PassChecksOn(s.d, file, io);
    D.ChunkKeepsHolding(s.d, file, io);
    var c := D.AfterChunk(s.d, io);
    if c.pointer == c.fwSize {
      assert file[..|file|] == file;
      D.CheckCompletes(c, file, io);
      assert s.toGateway + [Reply(G.OtaEnd, true)] == [Reply(G.OtaEnd, true)];
    } else {
      assert s.toGateway + [] == s.toGateway;
    }
  }

  lemma {:induction false} CheckIsPassed(s: System, file: seq<bv8>, now: int) returns (t: System)
    requires D.Placed(s.d) && Verifying(s, file, now)
    ensures Goes(s, t) && D.Placed(t.d) && t.g == s.g && t.begun == s.begun && t.toDevice == []
            && t.toGateway == [Reply(G.OtaEnd, true)]
    decreases |file| - s.d.pointer
  {
    hide Next, D.Placed, D.Checking, Run;
    var step := DeviceRuns(GoodIo(now, false));
    CheckPass(s, file, now);
    LeadsStep(s, step);
    t := Next(s, step);
    if t.toGateway == [] {
      var u := CheckIsPassed(t, file, now);
      GoesOn(s, t, u);
      t := u;
    }
  }

  /** Nothing is left to send: the gateway waits for the result while the device starts its check. */
  lemma CheckBegins(s: System, file: seq<bv8>, block: nat, now: int, n: nat) returns (t: System)
    requires Inv(s, file, block, 0) && Ready(s, now, n) && 7 * n >= |file|
    requires s.d.fwCrc == Crc(DEFAULT_INIT, file, DEFAULT_POLYNOMIAL)
    ensures Goes(s, t) && D.Placed(t.d) && Verifying(t, file, now)
  {
    hide Crc, D.Stored, OnTheBus, Budget, Truthful, D.AfterRun;
    var a, b := GatewayPass(GoodEnv(now)), DeviceRuns(GoodIo(now, false));
    NothingLeft(s, file, now, n);
    var s1 := Next(s, a);
    assert D.Holding(s.d, file, |file|);
    t := Next(s1, b);
    FullRunChecks(s1, file, now);
    LeadsStep(s, a);
    LeadsStep(s1, b);
    hide Goes;
    GoesOn(s, s1, t);
  }

  lemma FullRunChecks(s: System, file: seq<bv8>, now: int)
    requires D.Placed(s.d) && D.Holding(s.d, file, |file|) && s.d.state == D.Store && s.d.pointer == s.d.fwSize
    requires s.d.stall == now && s.g.state == G.WaitForAck && Quiet(s, now) && s.g.reports == []
    requires s.d.fwCrc == Crc(DEFAULT_INIT, file, DEFAULT_POLYNOMIAL)
    ensures Verifying(Next(s, DeviceRuns(GoodIo(now, false))), file, now)
  {
    hide Crc, D.Stored, D.AfterRun;
    D.FullPassChecks(s.d, file, GoodIo(now, false));
    assert s.toGateway + [] == s.toGateway;
  }

  lemma NothingLeft(s: System, file: seq<bv8>, now: int, n: nat)
    requires D.Placed(s.d) && G.StreamInv(s.g, file) && Ready(s, now, n) && 7 * n >= |file|
    ensures Next(s, GatewayPass(GoodEnv(now))) == s.(g := s.g.(state := G.WaitForAck))
  {
    hide Crc, D.Placed;
    assert s.toDevice + [] + [] == s.toDevice;
  }

  lemma SuccessIsReported(s: System, now: int) returns (t: System)
    requires D.Placed(s.d) && s.g.state == G.WaitForAck && s.g.timer == now && s.g.reports == []
    requires s.toGateway != [] && s.toGateway[0] == Reply(G.OtaEnd, true)
    ensures Goes(s, t) && t.g.reports == [true] && t.g.state == G.Idle && t.d == s.d && t.begun == s.begun
  {
    hide D.Placed, Crc;
    var a, b := GatewayGets, GatewayPass(GoodEnv(now));
    var s1 := Next(s, a);
    assert s1.g == s.g.(state := G.Valid);
    t := Next(s1, b);
    LeadsStep(s, a);
    LeadsStep(s1, b);
    hide Goes;
    GoesOn(s, s1, t);
  }

  /** The device has the program memory and the flash for the file. */
  predicate Fits(d: D.Device, file: seq<bv8>, block: nat) {
    |file| <= d.programSize && 32_768 * block + |file| <= |d.mem|
  }

  /** A file that does not fit is refused at the start: the one report is of failure, and the flash is as it
      was. */
  lemma OversizeIsReported(file: seq<bv8>, block: nat, image: G.ImageInfo, now: int, d: D.Device) returns (t: System)
    requires 0 < |file| < TWO_32 && G.SharedRight(image, file) && D.Placed(d) && AtRest(d) && !Fits(d, file, block)
    ensures Goes(Initial(file, block, image, now, d, []), t) && t.g.reports == [false] && t.g.state == G.Idle
            && t.d == d
  {
    hide D.Placed, Crc, Run, Permits, Inv, Next;
    var s := Initial(file, block, image, now, d, []);
    InitialKeeps(file, block, image, now, d);
    G.StartedStreams(file, block, image, now);
    var s1 := SumsUp(s, file, now);
    LeadsKeepsInv(s, s1, file, block);
    assert s1.g.start.value.storageNumber == block && s1.g.start.value.fwSize == |file| by { StartIs(s1, file, block); }
    var a, b, c := DeviceGets(GoodIo(now, true)), GatewayGets, GatewayPass(GoodEnv(now));
    RefusalEndsIt(s1, file, block, now);
    t := Next(Next(Next(s1, a), b), c);
    ThreeSteps(s1, a, b, c);
    hide Goes;
    GoesOn(s, s1, t);
  }

  lemma StartIs(s: System, file: seq<bv8>, block: nat)
    requires Inv(s, file, block, 0) && s.g.start.Some?
    ensures s.g.start.value.storageNumber == block && s.g.start.value.fwSize == |file|
  {
    hide OnTheBus, Budget, Truthful, Receiving, G.StreamInv;
  }

  lemma RefusalEndsIt(s: System, file: seq<bv8>, block: nat, now: int)
    requires D.Placed(s.d) && !Fits(s.d, file, block) && s.toGateway == [] && s.g.reports == []
    requires s.g.state == G.WaitForAck && s.g.start.Some? && s.toDevice == [StartMessage(s.g.start.value)]
    requires s.g.start.value.storageNumber == block && s.g.start.value.fwSize == |file|
    ensures var t := Next(Next(Next(s, DeviceGets(GoodIo(now, true))), GatewayGets), GatewayPass(GoodEnv(now)));
            t.g.reports == [false] && t.g.state == G.Idle && t.d == s.d
  {
    hide D.Placed, HasElapsed;
    var s1 := Next(s, DeviceGets(GoodIo(now, true)));
    assert s1 == s.(toDevice := [], toGateway := [Reply(G.OtaStart, false)]);
    var s2 := Next(s1, GatewayGets);
    assert s2 == s1.(g := s.g.(state := G.Invalid), toGateway := []);
  }

  /** From every accepted start, towards every device with room for the file that is in the middle of
      nothing: some run without loss or failure ends with the one report, of success, and the file in
      the flash. */
  lemma TransferSucceeds(file: seq<bv8>, block: nat, image: G.ImageInfo, now: int, d: D.Device) returns (t: System)
    requires 0 < |file| < TWO_32 && G.SharedRight(image, file) && D.Placed(d) && AtRest(d)
    requires Fits(d, file, block)
    ensures Goes(Initial(file, block, image, now, d, []), t) && t.g.reports == [true] && t.g.state == G.Idle
    ensures block * D.BLOCK + |file| <= |t.d.mem| && t.d.mem[block * D.BLOCK..block * D.BLOCK + |file|] == file
  {
    assert D.StartAccepted(d, block, |file|, GoodIo(now, true));
    hide D.Placed, Crc, Run, D.StartAccepted, Verifying, D.Holding, Permits, Inv;
    var s := Initial(file, block, image, now, d, []);
    InitialKeeps(file, block, image, now, d);
    G.StartedStreams(file, block, image, now);
    var s1 := SumsUp(s, file, now);
    LeadsKeepsInv(s, s1, file, block);
    var s2 := StartIsAnswered(s, s1, file, block, now);
    assert s2.d.fwCrc == Crc(DEFAULT_INIT, file, DEFAULT_POLYNOMIAL) by { StartSum(s1, file, block); }
    var s3, n := PiecesAreExchanged(s2, file, block, now, 0);
    var s4 := CheckBegins(s3, file, block, now, n);
    var s5 := CheckIsPassed(s4, file, now);
    assert s5.g.state == G.WaitForAck && s5.g.timer == now && s5.g.reports == [] by { VerifyingMeans(s4, file, now); }
    t := SuccessIsReported(s5, now);
    hide Goes;
    GoesOn(s, s1, s2);
    GoesOn(s, s2, s3);
    GoesOn(s, s3, s4);
    GoesOn(s, s4, s5);
    GoesOn(s, s5, t);
    LedIsStored(file, block, image, now, d, t);
  }

  lemma InitialKeeps(file: seq<bv8>, block: nat, image: G.ImageInfo, now: int, d: D.Device)
    requires 0 < |file| < TWO_32 && G.SharedRight(image, file) && D.Placed(d) && AtRest(d)
    ensures Inv(Initial(file, block, image, now, d, []), file, block, 0)
  {
    hide Inv, D.Placed, Permits;
    EmptyPermits();
    InitialInv(file, block, image, now, d, []);
  }

  lemma StartSum(s: System, file: seq<bv8>, block: nat)
    requires Inv(s, file, block, 0) && s.g.start.Some?
    ensures s.g.start.value.fwCrc == Crc(DEFAULT_INIT, file, DEFAULT_POLYNOMIAL)
  {}

  lemma VerifyingMeans(s: System, file: seq<bv8>, now: int)
    requires Verifying(s, file, now)
    ensures s.g.state == G.WaitForAck && s.g.timer == now && s.g.reports == []
  {}

  lemma LedIsStored(file: seq<bv8>, block: nat, image: G.ImageInfo, now: int, d: D.Device, t: System)
    requires 0 < |file| < TWO_32 && G.SharedRight(image, file) && D.Placed(d) && AtRest(d)
    requires Goes(Initial(file, block, image, now, d, []), t) && t.g.reports == [true]
    ensures block * D.BLOCK + |file| <= |t.d.mem| && t.d.mem[block * D.BLOCK..block * D.BLOCK + |file|] == file
  {
    hide Run, D.Placed, D.Holding, Initial, Permits;
    EmptyPermits();
    var steps :| Smooth(steps) && Run(Initial(file, block, image, now, d, []), steps) == t;
    SuccessMeansStored(file, block, image, now, d, [], steps);
  }

  // ---------------------------------------------------------------- what must not be left over

  /** Answers can be lost until one of them is at the front. */
  lemma {:induction false} LosesBefore(s: System, i: nat) returns (t: System)
    requires D.Placed(s.d) && i < |s.toGateway|
    ensures Leads(s, t) && t == s.(toGateway := s.toGateway[i..])
    decreases i
  {
    hide D.Placed, Run, Next;
    if i == 0 {
      t := s;
      assert s.toGateway[0..] == s.toGateway;
      StaysHere(s);
    } else {
      LosesOne(s);
      LeadsStep(s, LoseReply(0));
      var u := Next(s, LoseReply(0));
      t := LosesBefore(u, i - 1);
      assert s.toGateway[1..][i - 1..] == s.toGateway[i..];
      LeadsOn(s, u, t);
    }
  }

  lemma LosesOne(s: System)
    requires D.Placed(s.d) && s.toGateway != []
    ensures Next(s, LoseReply(0)) == s.(toGateway := s.toGateway[1..])
  {
    hide D.Placed;
    assert s.toGateway[..0] + s.toGateway[1..] == s.toGateway[1..];
  }

  lemma StaysHere(s: System)
    requires D.Placed(s.d)
    ensures Leads(s, s)
  {
    assert Run(s, []) == s;
  }

  /** With a positive OTA_END reply of an earlier transfer still on the bus some run reports success
      before the device has heard of the new file. */
  lemma StaleEndIsBelieved(file: seq<bv8>, block: nat, image: G.ImageInfo, now: int, d: D.Device, replies: seq<Reply>)
                           returns (t: System)
    requires 0 < |file| < TWO_32 && G.SharedRight(image, file) && D.Placed(d) && Reply(G.OtaEnd, true) in replies
    ensures Leads(Initial(file, block, image, now, d, replies), t) && t.g.reports == [true] && t.d == d && !t.begun
  {
    hide D.Placed, Crc, Run, Next;
    var s := Initial(file, block, image, now, d, replies);
    var i :| 0 <= i < |replies| && replies[i] == Reply(G.OtaEnd, true);
    var s1 := LosesBefore(s, i);
    G.StartedStreams(file, block, image, now);
    var s2 := SumsUp(s1, file, now);
    t := SuccessIsReported(s2, now);
    GoesLeads(s1, s2);
    GoesLeads(s2, t);
    hide Leads;
    LeadsOn(s, s1, s2);
    LeadsOn(s, s2, t);
  }

  /** Towards a device that is in the middle of nothing and with at most 255 acknowledgments of pieces left
      on the bus, or with none and a device that waits for a piece of an earlier transfer: success can be
      relied on over every run exactly if no positive OTA_END reply is left there. */
  lemma ReliableIffNoStaleEnd(file: seq<bv8>, block: nat, image: G.ImageInfo, now: int, d: D.Device,
                              replies: seq<Reply>)
    requires 0 < |file| < TWO_32 && G.SharedRight(image, file) && D.Placed(d) && Permits(replies) < 256
    requires CanBegin(d, Permits(replies))
    ensures (forall steps :: Trusted(Run(Initial(file, block, image, now, d, replies), steps), file, block))
            <==> Reply(G.OtaEnd, true) !in replies
  {
    hide D.Placed, Run, Permits, D.Holding, Delivered;
    var s := Initial(file, block, image, now, d, replies);
    if Reply(G.OtaEnd, true) in replies {
      var t := StaleEndIsBelieved(file, block, image, now, d, replies);
      var steps :| Run(s, steps) == t;
      assert !Trusted(Run(s, steps), file, block);
    } else {
      forall steps ensures Trusted(Run(s, steps), file, block) {
        SuccessMeansStored(file, block, image, now, d, replies, steps);
      }
    }
  }

  /** And the device must not be in the middle of an earlier transfer: the result of a check that is under
      way is taken for the new transfer's, whose start may never arrive. */
  lemma OldCheckIsBelieved(file: seq<bv8>, block: nat, image: G.ImageInfo, now: int, d: D.Device, older: seq<bv8>)
                           returns (t: System)
    requires 0 < |file| < TWO_32 && G.SharedRight(image, file)
    requires D.Checking(d, older) && d.pointer < |older| && d.fwCrc == Crc(DEFAULT_INIT, older, DEFAULT_POLYNOMIAL)
    ensures D.Placed(d) && Leads(Initial(file, block, image, now, d, []), t) && !Trusted(t, file, block)
  {
    hide Crc, Run, Next, D.Stored, Delivered;
    D.CheckingMeans(d, older);
    var s := Initial(file, block, image, now, d, []);
    G.StartedStreams(file, block, image, now);
    var s1 := SumsUp(s, file, now);
    LeadsStep(s1, LoseMessage(0));
    LosesStart(s1);
    var s2 := Next(s1, LoseMessage(0));
    var s3 := CheckIsPassed(s2, older, now);
    t := SuccessIsReported(s3, now);
    GoesLeads(s, s1);
    GoesLeads(s2, s3);
    GoesLeads(s3, t);
    hide Leads;
    LeadsOn(s, s1, s2);
    LeadsOn(s, s2, s3);
    LeadsOn(s, s3, t);
  }

  lemma LosesStart(s: System)
    requires D.Placed(s.d) && |s.toDevice| == 1
    ensures Next(s, LoseMessage(0)) == s.(toDevice := [])
  {
    hide D.Placed;
    assert s.toDevice[..0] + s.toDevice[1..] == [];
  }
}
